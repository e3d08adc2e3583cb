/** The Textual controller of lxpanic.py: `run_adb_command`, the device check
    of `check_adb_connection` (which may set the module-wide `DEVICE_SERIAL`),
    the interface check, the refresh action and the gated step chains of
    `on_button_pressed`. Every process the app starts is answered by a host
    oracle, and the app keeps the trace of the command lines it started.
    What the app shows and logs is kept as values; `StatusText`, `InfoText`,
    `IfaceText` and `LineText` give the text each value is written as. */
module Lxpanic {
  import opened Text
  import opened Wrappers
  import opened Patterns
  import opened Devices
  import Steps

  const AdbPath := "adb"
  /** `DEVICE_SERIAL`'s value at start-up; empty means "auto-detect". */
  const InitialSerial := ""
  /** What the probe's stderr shows for a device that has not authorized this host. */
  const Unauthorized := "device unauthorized"

  /** How an awaited subprocess ended: it exited with a return code and its
      captured stdout and stderr, the executable was missing
      (`FileNotFoundError`), or another exception was raised (its text). */
  datatype PyRun = Exited(returncode: int, stdout: string, stderr: string) | FileMissing | Raised(error: string)

  /** The host: what running a command line gives. */
  type Host = seq<string> -> PyRun

  /** `run_adb_command` reports success exactly for return code 0. */
  predicate Succeeded(r: PyRun) {
    r.Exited? && r.returncode == 0
  }

  // ---------------------------------------------------------------- outcomes

  /** How `check_adb_connection` ends: `adb` missing, another exception, or a
      resolution of the shared resolver, the probe deciding authorization. */
  datatype PyCheck = AdbMissing | CheckError(error: string) | Resolved(resolution: Resolution)

  /** How `get_linux_interface_status` ends. */
  datatype PyIface = IpMissing | IfaceError(error: string) | NotDetected | NoIp(name: string) | WithIp(name: string, ip: string)

  /** `adb_status`: the initial "Unknown" or the outcome of the last check. */
  datatype AdbStatus = UnknownStatus | Shown(check: PyCheck)

  /** `device_info`: "N/A", the list of devices to choose from, or a serial. */
  datatype Info = NoInfo | PleaseSpecify(found: seq<string>) | SerialInfo(serial: string)

  /** `linux_iface_status`: the initial "Unknown" or the last interface outcome. */
  datatype IfaceStatus = UnknownIface | ShownIface(iface: PyIface)

  /** The adb steps `on_button_pressed` runs. */
  datatype AdbStep = Root | DunOff | RndisOn | OffloadOn | OffloadOff | DunOn | MtpAdbOn

  /** A line written to the message log. */
  datatype LogLine =
    | Executing(step: AdbStep) | CommandLine(argv: seq<string>)
    | Success(step: AdbStep) | OutputLine(text: string)
    | Failed(step: AdbStep) | StdoutLine(text: string) | StderrLine(text: string)
    | AdbNotOnPath | ExecutionError(error: string)
    | CheckLine(check: PyCheck, devices: seq<string>)
    | IfaceLine(iface: PyIface)
    | Refreshing | Refreshed | GateClosed
    | EnableStart | EnableSent | DhcpReminder | DisableStart | DisableSent

  /** The fields of the app the core reads or writes, `DEVICE_SERIAL` included,
      with the log's lines and the command lines started so far. */
  datatype AppState = AppState(
    adbStatus: AdbStatus, deviceInfo: Info, linuxIfaceStatus: IfaceStatus, adbReady: bool,
    serial: string, log: seq<LogLine>, issued: seq<seq<string>>)

  function WithLines(st: AppState, lines: seq<LogLine>): AppState {
    st.(log := st.log + lines)
  }

  // ---------------------------------------------------------------- run_adb_command

  function Description(step: AdbStep): string {
    match step
    case Root => "Attempting ADB root"
    case DunOff => "Set tether_dun_required to 0"
    case RndisOn => "Set USB functions to RNDIS"
    case OffloadOn => "Disable tether_offload"
    case OffloadOff => "Restore tether_offload_disabled to 0"
    case DunOn => "Restore tether_dun_required to 1"
    case MtpAdbOn => "Restore default USB functions (MTP, ADB)"
  }

  function PutGlobal(key: string, value: string): seq<string> { ["shell", "settings", "put", "global", key, value] }

  function SetFunctions(functions: string): seq<string> { ["shell", "svc", "usb", "setFunctions", functions] }

  /** The `command_args` of each step. */
  function Args(step: AdbStep): seq<string> {
    match step
    case Root => RootArgs
    case DunOff => DunOffArgs
    case RndisOn => RndisArgs
    case OffloadOn => OffloadOnArgs
    case OffloadOff => OffloadOffArgs
    case DunOn => DunOnArgs
    case MtpAdbOn => MtpAdbArgs
  }

  const RootArgs := ["root"]
  const DunOffArgs := PutGlobal(Steps.DunKey, "0")
  const RndisArgs := SetFunctions(Steps.Rndis)
  const OffloadOnArgs := PutGlobal(Steps.OffloadKey, "1")
  const OffloadOffArgs := PutGlobal(Steps.OffloadKey, "0")
  const DunOnArgs := PutGlobal(Steps.DunKey, "1")
  const MtpAdbArgs := SetFunctions(Steps.MtpAdb)

  /** `[ADB_PATH] + ["-s", DEVICE_SERIAL] (only if set) + command_args`. */
  function FullCommand(serial: string, args: seq<string>): (argv: seq<string>)
    ensures |argv| >= 1 + |args| && argv[0] == AdbPath && argv[|argv| - |args|..] == args
    ensures serial != "" <==> |argv| == |args| + 3
    ensures serial != "" ==> argv[1..3] == ["-s", serial]
    ensures serial == "" ==> argv == [AdbPath] + args
    ensures serial != "" ==> argv == [AdbPath, "-s", serial] + args
  {
    [AdbPath] + (if serial != "" then ["-s", serial] else []) + args
  }

  /** The lines `run_adb_command` logs for one run: what is executed, then the
      verdict with the trimmed stdout (and stderr on failure) when non-empty. */
  function RunLines(step: AdbStep, argv: seq<string>, r: PyRun): (lines: seq<LogLine>)
  {
    [Executing(step), CommandLine(argv)] + Verdict(step, r)
  }

  /** A run logs what is executed, then its verdict: "SUCCESS" exactly for
      return code 0, followed by the output when there is any; "FAILED" for any
      other return code, followed by the stdout and then the stderr, each when
      non-empty; the missing-adb line when the executable was not found; and
      the exception's text for any other exception. */
  lemma RunLinesShape(step: AdbStep, argv: seq<string>, r: PyRun)
    ensures var lines := RunLines(step, argv, r);
      && 3 <= |lines| <= 5 && lines[..2] == [Executing(step), CommandLine(argv)]
      && (lines[2] == Success(step) <==> Succeeded(r))
      && (lines[2] == Failed(step) <==> r.Exited? && !Succeeded(r))
    ensures var lines := RunLines(step, argv, r);
      Succeeded(r) ==> lines[2..] == [Success(step)] + (if r.stdout != "" then [OutputLine(r.stdout)] else [])
    ensures var lines := RunLines(step, argv, r);
      r.Exited? && !Succeeded(r) ==>
        lines[2..] == [Failed(step)] + (if r.stdout != "" then [StdoutLine(r.stdout)] else [])
                      + (if r.stderr != "" then [StderrLine(r.stderr)] else [])
    ensures RunLines(step, argv, r)[2..] == [AdbNotOnPath] <==> r.FileMissing?
    ensures r.Raised? ==> RunLines(step, argv, r)[2..] == [ExecutionError(r.error)]
  {
  }

  /** The verdict lines of one run. */
  function Verdict(step: AdbStep, r: PyRun): seq<LogLine>
  {
    match r
    case Exited(code, out, err) =>
      if code == 0 then [Success(step)] + (if out != "" then [OutputLine(out)] else [])
      else
        [Failed(step)] + (if out != "" then [StdoutLine(out)] else [])
        + (if err != "" then [StderrLine(err)] else [])
    case FileMissing => [AdbNotOnPath]
    case Raised(e) => [ExecutionError(e)]
  }

  /** The app after `run_adb_command` for one step. */
  function RunAdb(st: AppState, step: AdbStep, host: Host): AppState {
    var argv := FullCommand(st.serial, Args(step));
    WithLines(st, RunLines(step, argv, host(argv))).(issued := st.issued + [argv])
  }

  /** One run starts exactly the one command line built from the serial, adds
      three to five log lines and changes neither the status nor the serial. */
  lemma RunAdbEffect(st: AppState, step: AdbStep, host: Host)
    ensures var st' := RunAdb(st, step, host);
      && st'.issued == st.issued + [FullCommand(st.serial, Args(step))]
      && |st.log| + 3 <= |st'.log| <= |st.log| + 5 && st'.log[..|st.log|] == st.log
      && st'.(log := st.log, issued := st.issued) == st
  {
    var st' := RunAdb(st, step, host);
    assert st'.log[..|st.log|] == st.log;
  }

  // ---------------------------------------------------------------- check_adb_connection

  function DevicesArgv(): seq<string> { [AdbPath, "devices"] }

  function ProbeArgv(serial: string): seq<string> { [AdbPath, "-s", serial, "shell", "echo", "test"] }

  /** The device comprehension over the stripped listing. */
  function PyDevices(stdout: string): seq<string> {
    Serials(SplitLines(Trim(stdout)))
  }

  /** The devices the check sees (none when `adb devices` did not run). */
  function ListedDevices(host: Host): seq<string> {
    var listing := host(DevicesArgv());
    if listing.Exited? then PyDevices(listing.stdout) else []
  }

  /** An exception of `adb devices` or of the probe. */
  function Failure(r: PyRun): (c: PyCheck)
    requires !r.Exited?
    ensures c.AdbMissing? <==> r.FileMissing?
    ensures c.CheckError? <==> r.Raised?
  {
    if r.FileMissing? then AdbMissing else CheckError(r.error)
  }

  /** The outcome of the check for the current `DEVICE_SERIAL`. The listing's
      return code and the probe's are not consulted. */
  function CheckOutcome(serial: string, host: Host): PyCheck {
    var listing := host(DevicesArgv());
    if !listing.Exited? then Failure(listing)
    else
      match Resolve(PyDevices(listing.stdout), serial)
      case Settled(r) => Resolved(r)
      case Probe(s) =>
        var probe := host(ProbeArgv(s));
        if !probe.Exited? then Failure(probe)
        else if Contains(probe.stderr, Unauthorized) then Resolved(AuthFailed(s))
        else Resolved(Connected(s))
  }

  /** `DEVICE_SERIAL` after the check: set to the only device when it was
      empty, otherwise kept. */
  function CheckSerial(serial: string, host: Host): string {
    var listing := host(DevicesArgv());
    if listing.Exited? && Resolve(PyDevices(listing.stdout), serial).Probe? then
      Resolve(PyDevices(listing.stdout), serial).serial
    else serial
  }

  /** The command lines the check starts: the listing, then the probe when a
      serial was chosen. */
  function CheckCommands(serial: string, host: Host): seq<seq<string>> {
    var listing := host(DevicesArgv());
    if listing.Exited? && Resolve(PyDevices(listing.stdout), serial).Probe? then
      [DevicesArgv(), ProbeArgv(Resolve(PyDevices(listing.stdout), serial).serial)]
    else [DevicesArgv()]
  }

  /** What the check shows as detected device. */
  function InfoOf(c: PyCheck): (info: Info)
    ensures info.SerialInfo? <==>
      c.Resolved? && (c.resolution.NotFound? || c.resolution.AuthFailed? || c.resolution.Connected?)
    ensures info.SerialInfo? ==> info.serial == c.resolution.serial
    ensures info.PleaseSpecify? <==> c.Resolved? && c.resolution.MultipleDevices?
    ensures info.PleaseSpecify? ==> info.found == c.resolution.found
  {
    match c
    case Resolved(MultipleDevices(ds)) => PleaseSpecify(ds)
    case Resolved(NotFound(s)) => SerialInfo(s)
    case Resolved(AuthFailed(s)) => SerialInfo(s)
    case Resolved(Connected(s)) => SerialInfo(s)
    case _ => NoInfo
  }

  /** The check logs one line, except for a connected device. */
  function CheckLines(c: PyCheck, devices: seq<string>): (lines: seq<LogLine>)
    ensures |lines| <= 1
    ensures lines == [] <==> c.Resolved? && c.resolution.Connected?
  {
    if c.Resolved? && c.resolution.Connected? then [] else [CheckLine(c, devices)]
  }

  /** The app after `check_adb_connection`: ready only for a connected device. */
  function CheckAdbState(st: AppState, host: Host): AppState {
    var c := CheckOutcome(st.serial, host);
    st.(adbStatus := Shown(c), deviceInfo := InfoOf(c), adbReady := c.Resolved? && c.resolution.Connected?,
        serial := CheckSerial(st.serial, host),
        log := st.log + CheckLines(c, ListedDevices(host)), issued := st.issued + CheckCommands(st.serial, host))
  }

  /** The branches of the check: no device, several devices with no serial set,
      a set serial that is not listed, and the only device auto-selected. The
      probe is started only for a chosen serial. */
  lemma CheckBranches(serial: string, host: Host)
    requires host(DevicesArgv()).Exited?
    ensures var devices := ListedDevices(host);
      && (|devices| == 0 ==> CheckOutcome(serial, host) == Resolved(Disconnected))
      && (|devices| > 1 && serial == "" ==> CheckOutcome(serial, host) == Resolved(MultipleDevices(devices)))
      && (|devices| > 0 && serial != "" && serial !in devices ==> CheckOutcome(serial, host) == Resolved(NotFound(serial)))
      && (|devices| == 1 && serial == "" ==> CheckSerial(serial, host) == devices[0])
      && (|CheckCommands(serial, host)| == 2 <==>
            |devices| > 0 && (if serial == "" then |devices| == 1 else serial in devices))
  {
  }

  /** The serial an authorization verdict names is `DEVICE_SERIAL` after the check. */
  lemma ProbedSerial(serial: string, host: Host)
    ensures var c := CheckOutcome(serial, host);
      c.Resolved? && (c.resolution.AuthFailed? || c.resolution.Connected?) ==>
        c.resolution.serial == CheckSerial(serial, host)
  {
    var listing := host(DevicesArgv());
    if listing.Exited? {
      var t := Resolve(PyDevices(listing.stdout), serial);
      if t.Probe? {
        assert CheckSerial(serial, host) == t.serial;
        var probe := host(ProbeArgv(t.serial));
        assert CheckOutcome(serial, host) == if !probe.Exited? then Failure(probe)
          else if Contains(probe.stderr, Unauthorized) then Resolved(AuthFailed(t.serial))
          else Resolved(Connected(t.serial));
      } else {
        assert CheckOutcome(serial, host) == Resolved(t.resolution);
      }
    }
  }

  /** None of the settled outcomes, nor an exception, leaves the app ready:
      it is ready exactly when the probe found the device authorized, and then
      it shows the serial it uses and logs nothing. */
  lemma ReadyOnlyWhenConnected(st: AppState, host: Host)
    ensures var st' := CheckAdbState(st, host);
      st'.adbReady <==> exists s :: CheckOutcome(st.serial, host) == Resolved(Connected(s))
    ensures var st' := CheckAdbState(st, host);
      st'.adbReady ==> st'.deviceInfo == SerialInfo(st'.serial) && st'.log == st.log
  {
    var c := CheckOutcome(st.serial, host);
    var st' := CheckAdbState(st, host);
    assert st'.adbReady == (c.Resolved? && c.resolution.Connected?);
    if st'.adbReady {
      assert c == Resolved(Connected(c.resolution.serial));
      ProbedSerial(st.serial, host);
      assert st'.deviceInfo == SerialInfo(c.resolution.serial);
      assert st'.log == st.log + CheckLines(c, ListedDevices(host));
    }
  }

  /** Once set, `DEVICE_SERIAL` is never cleared or replaced by the check; an
      empty one is set only to the single listed device. So with a serial set,
      several devices no longer give "Multiple Devices": only membership counts. */
  lemma {:induction false} SerialNeverCleared(serial: string, host: Host)
    ensures serial != "" ==> CheckSerial(serial, host) == serial
    ensures serial == "" && CheckSerial(serial, host) != "" ==>
      ListedDevices(host) == [CheckSerial(serial, host)]
    ensures serial != "" ==> !CheckOutcome(serial, host).Resolved? || !CheckOutcome(serial, host).resolution.MultipleDevices?
  {
    var listing := host(DevicesArgv());
    if listing.Exited? {
      var devices := PyDevices(listing.stdout);
      var t := Resolve(devices, serial);
      if serial != "" {
        assert t.Probe? ==> t.serial == serial;
        assert !t.Settled? || !t.resolution.MultipleDevices?;
      } else if t.Probe? {
        assert |devices| == 1 && devices == [devices[0]];
      }
    }
  }

  /** Authorization: a probed serial fails exactly when the probe's stderr
      contains "device unauthorized", and is connected otherwise, whatever the
      probe's return code. */
  lemma AuthFailedIff(serial: string, host: Host)
    requires host(DevicesArgv()).Exited?
    requires Resolve(ListedDevices(host), serial).Probe?
    requires host(ProbeArgv(Resolve(ListedDevices(host), serial).serial)).Exited?
    ensures var s := Resolve(ListedDevices(host), serial).serial;
      && (CheckOutcome(serial, host) == Resolved(AuthFailed(s)) <==>
            Contains(host(ProbeArgv(s)).stderr, Unauthorized))
      && (CheckOutcome(serial, host) == Resolved(Connected(s)) <==>
            !Contains(host(ProbeArgv(s)).stderr, Unauthorized))
  {
  }

  // ---------------------------------------------------------------- get_linux_interface_status

  function LinkArgv(): seq<string> { ["ip", "link", "show"] }

  function AddrArgv(name: string): seq<string> { ["ip", "-4", "addr", "show", "dev", name] }

  /** An exception of `ip`. */
  function IfaceFailure(r: PyRun): (c: PyIface)
    requires !r.Exited?
    ensures c.IpMissing? <==> r.FileMissing?
    ensures c.IfaceError? <==> r.Raised?
  {
    if r.FileMissing? then IpMissing else IfaceError(r.error)
  }

  /** The first tethering interface in the stripped `ip link show` output, then
      the first IPv4 address in the stripped `ip -4 addr show dev NAME` output;
      return codes are not consulted. */
  function IfaceOutcome(host: Host): (c: PyIface)
    ensures c.NotDetected? <==> host(LinkArgv()).Exited? && TetherInterface(Trim(host(LinkArgv()).stdout)).None?
    ensures (c.NoIp? || c.WithIp?) ==>
      && host(LinkArgv()).Exited? && TetherInterface(Trim(host(LinkArgv()).stdout)) == Some(c.name)
      && host(AddrArgv(c.name)).Exited?
    ensures c.WithIp? ==> IPv4Address(Trim(host(AddrArgv(c.name)).stdout)) == Some(c.ip)
    ensures c.NoIp? ==> IPv4Address(Trim(host(AddrArgv(c.name)).stdout)).None?
    ensures var link := host(LinkArgv());
      (c.IpMissing? || c.IfaceError?) <==>
        || !link.Exited?
        || (TetherInterface(Trim(link.stdout)).Some? && !host(AddrArgv(TetherInterface(Trim(link.stdout)).value)).Exited?)
    ensures var link := host(LinkArgv());
      c.IpMissing? <==>
        || link.FileMissing?
        || (link.Exited? && TetherInterface(Trim(link.stdout)).Some?
            && host(AddrArgv(TetherInterface(Trim(link.stdout)).value)).FileMissing?)
  {
    var link := host(LinkArgv());
    if !link.Exited? then IfaceFailure(link)
    else
      match TetherInterface(Trim(link.stdout))
      case None => NotDetected
      case Some(name) =>
        var addr := host(AddrArgv(name));
        if !addr.Exited? then IfaceFailure(addr)
        else
          match IPv4Address(Trim(addr.stdout))
          case Some(ip) => WithIp(name, ip)
          case None => NoIp(name)
  }

  function IfaceCommands(host: Host): seq<seq<string>> {
    var link := host(LinkArgv());
    if link.Exited? && TetherInterface(Trim(link.stdout)).Some? then
      [LinkArgv(), AddrArgv(TetherInterface(Trim(link.stdout)).value)]
    else [LinkArgv()]
  }

  /** The app after `get_linux_interface_status`: one status, one log line. */
  function IfaceState(st: AppState, host: Host): AppState {
    var c := IfaceOutcome(host);
    st.(linuxIfaceStatus := ShownIface(c), log := st.log + [IfaceLine(c)], issued := st.issued + IfaceCommands(host))
  }

  // ---------------------------------------------------------------- refresh and buttons

  /** `action_refresh_status`. */
  function RefreshState(st: AppState, host: Host): AppState {
    var st1 := WithLines(st, [Refreshing]);
    var st2 := CheckAdbState(st1, host);
    WithLines(IfaceState(st2, host), [Refreshed])
  }

  /** A refresh starts the listing (and the probe for a chosen serial), then
      `ip link show` (and the address query for a detected interface). */
  lemma RefreshIssues(st: AppState, host: Host)
    ensures RefreshState(st, host).issued == st.issued + CheckCommands(st.serial, host) + IfaceCommands(host)
    ensures RefreshState(st, host).adbReady <==>
      CheckOutcome(st.serial, host).Resolved? && CheckOutcome(st.serial, host).resolution.Connected?
  {
  }

  datatype Button = EnableButton | DisableButton | RefreshButton

  const EnableChain: seq<AdbStep> := [DunOff, RndisOn, OffloadOn]
  const DisableChain: seq<AdbStep> := [OffloadOff, DunOn, MtpAdbOn]

  /** A chain where each step runs only if the one before it succeeded. */
  function Chain(st: AppState, steps: seq<AdbStep>, host: Host): AppState
    decreases |steps|
  {
    if steps == [] then st
    else
      var st' := RunAdb(st, steps[0], host);
      if Succeeded(host(FullCommand(st.serial, Args(steps[0])))) then Chain(st', steps[1..], host) else st'
  }

  /** What each step of a chain would report if it ran. */
  function ChainOks(serial: string, steps: seq<AdbStep>, host: Host): (oks: seq<bool>)
    ensures |oks| == |steps|
  {
    if steps == [] then [] else [Succeeded(host(FullCommand(serial, Args(steps[0]))))] + ChainOks(serial, steps[1..], host)
  }

  function ChainCommands(serial: string, steps: seq<AdbStep>): (cmds: seq<seq<string>>)
    ensures |cmds| == |steps|
    ensures forall i :: 0 <= i < |steps| ==> cmds[i] == FullCommand(serial, Args(steps[i]))
  {
    if steps == [] then [] else [FullCommand(serial, Args(steps[0]))] + ChainCommands(serial, steps[1..])
  }

  /** Later steps never run: a chain starts its steps in order up to and
      including the first one that fails, exactly as many as the stop-on-failure
      policy runs. */
  lemma {:induction false} ChainRunsPrefix(st: AppState, steps: seq<AdbStep>, host: Host)
    ensures Chain(st, steps, host).issued
         == st.issued + ChainCommands(st.serial, steps)[..Steps.Ran(Steps.StopOnFailure, ChainOks(st.serial, steps, host))]
    decreases |steps|
  {
    if steps != [] {
      var st1 := RunAdb(st, steps[0], host);
      RunAdbEffect(st, steps[0], host);
      ChainStep(st, steps, host);
      var oks := ChainOks(st.serial, steps, host);
      var cmds := ChainCommands(st.serial, steps);
      if oks[0] {
        ChainRunsPrefix(st1, steps[1..], host);
        assert oks[1..] == ChainOks(st.serial, steps[1..], host);
        assert cmds[1..] == ChainCommands(st.serial, steps[1..]);
        var n := Steps.Ran(Steps.StopOnFailure, oks[1..]);
        assert Steps.Ran(Steps.StopOnFailure, oks) == 1 + n;
        assert cmds[..1 + n] == [cmds[0]] + cmds[1..][..n];
      } else {
        assert Steps.Ran(Steps.StopOnFailure, oks) == 1;
        assert cmds[..1] == [cmds[0]];
      }
    }
  }

  /** A chain changes nothing but the log and the trace of started commands. */
  lemma {:induction false} ChainFrame(st: AppState, steps: seq<AdbStep>, host: Host)
    ensures Chain(st, steps, host).(log := st.log, issued := st.issued) == st
    decreases |steps|
  {
    if steps != [] {
      RunAdbEffect(st, steps[0], host);
      ChainStep(st, steps, host);
      if Succeeded(host(FullCommand(st.serial, Args(steps[0])))) {
        ChainFrame(RunAdb(st, steps[0], host), steps[1..], host);
      }
    }
  }

  /** A chain whose first step fails stops after it; one whose first step
      succeeds goes on with the rest. */
  lemma ChainStep(st: AppState, steps: seq<AdbStep>, host: Host)
    requires steps != []
    ensures var st1 := RunAdb(st, steps[0], host);
      && st1.serial == st.serial
      && Chain(st, steps, host) == if Succeeded(host(FullCommand(st.serial, Args(steps[0])))) then Chain(st1, steps[1..], host) else st1
  {
  }

  /** A three-step chain unrolled: the source's `if success:` statements. */
  lemma ChainOfThree(st: AppState, first: AdbStep, second: AdbStep, third: AdbStep, host: Host)
    ensures var st1 := RunAdb(st, first, host);
      var st2 := RunAdb(st1, second, host);
      Chain(st, [first, second, third], host) ==
        if !Succeeded(host(FullCommand(st.serial, Args(first)))) then st1
        else if !Succeeded(host(FullCommand(st.serial, Args(second)))) then st2
        else RunAdb(st2, third, host)
  {
    var steps := [first, second, third];
    var st1 := RunAdb(st, first, host);
    var st2 := RunAdb(st1, second, host);
    var rest := steps[1..];
    var last := rest[1..];
    assert steps[0] == first && rest[0] == second && last[0] == third && last[1..] == [];
    ChainStep(st, steps, host);
    ChainStep(st1, rest, host);
    ChainStep(st2, last, host);
  }

  /** `on_button_pressed` as a function of the app. */
  function Press(st: AppState, button: Button, host: Host): AppState {
    if st.serial == "" || !st.adbReady then WithLines(st, [GateClosed])
    else
      match button
      case EnableButton =>
        var st1 := RunAdb(WithLines(st, [EnableStart]), Root, host);
        var st2 := Chain(st1, EnableChain, host);
        WithLines(RefreshState(WithLines(st2, [EnableSent]), host), [DhcpReminder])
      case DisableButton =>
        var st1 := Chain(WithLines(st, [DisableStart]), DisableChain, host);
        RefreshState(WithLines(st1, [DisableSent]), host)
      case RefreshButton => RefreshState(st, host)
  }

  /** Any button, Refresh included, on an app with no serial or not ready only
      logs one error line: no status changes and no command starts. */
  lemma GateRejects(st: AppState, button: Button, host: Host)
    requires st.serial == "" || !st.adbReady
    ensures Press(st, button, host) == st.(log := st.log + [GateClosed])
  {
  }

  /** Enable starts `root` whatever its result, then the chain's commands up to
      the first failure, then the refresh's commands. */
  lemma EnableIssues(st: AppState, host: Host)
    requires st.serial != "" && st.adbReady
    ensures var n := Steps.Ran(Steps.StopOnFailure, ChainOks(st.serial, EnableChain, host));
      Press(st, EnableButton, host).issued
        == st.issued + [FullCommand(st.serial, Args(Root))] + ChainCommands(st.serial, EnableChain)[..n]
           + CheckCommands(st.serial, host) + IfaceCommands(host)
  {
    var st1 := RunAdb(WithLines(st, [EnableStart]), Root, host);
    RunAdbEffect(WithLines(st, [EnableStart]), Root, host);
    ChainRunsPrefix(st1, EnableChain, host);
    ChainFrame(st1, EnableChain, host);
    var st2 := Chain(st1, EnableChain, host);
    var st3 := WithLines(st2, [EnableSent]);
    assert st3.serial == st.serial;
    RefreshIssues(st3, host);
    assert Press(st, EnableButton, host).issued == RefreshState(st3, host).issued;
  }

  /** Disable starts the chain's commands up to the first failure, then the
      refresh's commands. */
  lemma DisableIssues(st: AppState, host: Host)
    requires st.serial != "" && st.adbReady
    ensures var n := Steps.Ran(Steps.StopOnFailure, ChainOks(st.serial, DisableChain, host));
      Press(st, DisableButton, host).issued
        == st.issued + ChainCommands(st.serial, DisableChain)[..n] + CheckCommands(st.serial, host) + IfaceCommands(host)
  {
    var st1 := WithLines(st, [DisableStart]);
    ChainRunsPrefix(st1, DisableChain, host);
    ChainFrame(st1, DisableChain, host);
    var st2 := Chain(st1, DisableChain, host);
    var st3 := WithLines(st2, [DisableSent]);
    assert st3.serial == st.serial;
    RefreshIssues(st3, host);
    assert Press(st, DisableButton, host) == RefreshState(st3, host);
  }

  // ---------------------------------------------------------------- settings round trip

  /** The phone's settings after a chain whose steps report `oks`. */
  function ChainSettings(serial: string, steps: seq<AdbStep>, oks: seq<bool>, s: Steps.Settings): Steps.Settings
    requires |oks| == |steps|
  {
    Steps.Run(Steps.StopOnFailure, ChainCommands(serial, steps), oks, s)
  }

  /** A shell step's command line shows its words to the device's shell. */
  lemma ShellStepWords(serial: string, words: seq<string>)
    requires serial != "" && |words| >= 1
    requires forall i :: 0 <= i < |words| ==> ' ' !in words[i]
    ensures Steps.ShellWords(FullCommand(serial, ["shell"] + words)) == words
  {
    var argv := FullCommand(serial, ["shell"] + words);
    assert argv[3..] == ["shell"] + words;
    assert argv[3..][1..] == words;
    SplitJoin(words, ' ');
  }

  lemma PutGlobalWrites(serial: string, key: string, value: string)
    requires serial != ""
    requires key == Steps.DunKey || key == Steps.OffloadKey
    requires value == "0" || value == "1"
    ensures Steps.Writes(FullCommand(serial, PutGlobal(key, value))) == {Steps.Global(key)}
  {
    var words := ["settings", "put", "global", key, value];
    assert PutGlobal(key, value) == ["shell"] + words;
    assert forall i :: 0 <= i < |words| ==> ' ' !in words[i];
    ShellStepWords(serial, words);
  }

  lemma SetFunctionsWrites(serial: string, functions: string)
    requires serial != ""
    requires functions == Steps.Rndis || functions == Steps.MtpAdb
    ensures Steps.Writes(FullCommand(serial, SetFunctions(functions))) == {Steps.UsbFunctions}
  {
    var words := ["svc", "usb", "setFunctions", functions];
    assert SetFunctions(functions) == ["shell"] + words;
    assert forall i :: 0 <= i < |words| ==> ' ' !in words[i];
    ShellStepWords(serial, words);
  }

  /** `adb root` writes no setting. */
  lemma RootWritesNothing(serial: string)
    requires serial != ""
    ensures Steps.Writes(FullCommand(serial, Args(Root))) == {}
  {
    assert FullCommand(serial, Args(Root))[3..] == ["root"];
  }


  lemma EnableChainTouches(serial: string)
    requires serial != ""
    ensures Steps.Touched(ChainCommands(serial, EnableChain)) == {Steps.DunRequired, Steps.UsbFunctions, Steps.OffloadDisabled}
  {
    Steps.TouchedOfThree(ChainCommands(serial, EnableChain));
    PutGlobalWrites(serial, Steps.DunKey, "0");
    SetFunctionsWrites(serial, Steps.Rndis);
    PutGlobalWrites(serial, Steps.OffloadKey, "1");
  }

  lemma DisableChainTouches(serial: string)
    requires serial != ""
    ensures Steps.Touched(ChainCommands(serial, DisableChain)) == {Steps.DunRequired, Steps.UsbFunctions, Steps.OffloadDisabled}
  {
    Steps.TouchedOfThree(ChainCommands(serial, DisableChain));
    PutGlobalWrites(serial, Steps.OffloadKey, "0");
    PutGlobalWrites(serial, Steps.DunKey, "1");
    SetFunctionsWrites(serial, Steps.MtpAdb);
  }

  /** Round trip: however far the enable chain got (and whatever `root` did),
      a disable chain whose steps all succeed leaves the phone's settings as
      disabling alone would. */
  lemma EnableDisableRoundTrip(serial: string, rootOk: bool, oks: seq<bool>, s: Steps.Settings)
    requires serial != "" && |oks| == |EnableChain|
    ensures var afterRoot := Steps.Apply([FullCommand(serial, Args(Root))], [rootOk], s);
      ChainSettings(serial, DisableChain, Steps.AllOk(3), ChainSettings(serial, EnableChain, oks, afterRoot))
      == ChainSettings(serial, DisableChain, Steps.AllOk(3), s)
  {
    var root := [FullCommand(serial, Args(Root))];
    RootWritesNothing(serial);
    assert Steps.Apply(root[1..], [rootOk][1..], s) == s;
    EnableChainTouches(serial);
    DisableChainTouches(serial);
    Steps.RoundTrip(Steps.StopOnFailure, ChainCommands(serial, EnableChain), oks,
                    Steps.StopOnFailure, ChainCommands(serial, DisableChain), s);
  }

  // ---------------------------------------------------------------- the app

  class App {
    var adbStatus: AdbStatus
    var deviceInfo: Info
    var linuxIfaceStatus: IfaceStatus
    var adbReady: bool
    /** The module-wide `DEVICE_SERIAL`; only this app writes it. */
    var deviceSerial: string
    var log: seq<LogLine>
    var issued: seq<seq<string>>

    function Snapshot(): AppState
      reads this
    {
      AppState(adbStatus, deviceInfo, linuxIfaceStatus, adbReady, deviceSerial, log, issued)
    }

    /** The reactive fields' initial values. */
    constructor ()
      ensures Snapshot() == AppState(UnknownStatus, NoInfo, UnknownIface, false, InitialSerial, [], [])
    {
      adbStatus, deviceInfo, linuxIfaceStatus := UnknownStatus, NoInfo, UnknownIface;
      adbReady := false;
      deviceSerial := InitialSerial;
      log, issued := [], [];
    }

    method Write(line: LogLine)
      modifies this`log
      ensures log == old(log) + [line]
    {
      log := log + [line];
    }

    /** `run_adb_command` for one step: the lines it writes are gathered and
        written in order once the command has answered. */
    method RunAdbCommand(step: AdbStep, host: Host) returns (success: bool)
      modifies this
      ensures success == Succeeded(host(FullCommand(old(deviceSerial), Args(step))))
      ensures issued == old(issued) + [FullCommand(old(deviceSerial), Args(step))]
      ensures log == old(log) + RunLines(step, FullCommand(old(deviceSerial), Args(step)), host(FullCommand(old(deviceSerial), Args(step))))
      ensures adbStatus == old(adbStatus) && deviceInfo == old(deviceInfo) && linuxIfaceStatus == old(linuxIfaceStatus)
      ensures adbReady == old(adbReady) && deviceSerial == old(deviceSerial)
      ensures Snapshot() == RunAdb(old(Snapshot()), step, host)
    {
      var fullCommand := FullCommand(deviceSerial, Args(step));
      var lines := [Executing(step), CommandLine(fullCommand)];
      issued := issued + [fullCommand];
      var r := host(fullCommand);
      match r {
        case Exited(code, out, err) =>
          if code == 0 {
            lines := lines + [Success(step)];
            if out != "" { lines := lines + [OutputLine(out)]; }
            success := true;
          } else {
            lines := lines + [Failed(step)];
            if out != "" { lines := lines + [StdoutLine(out)]; }
            if err != "" { lines := lines + [StderrLine(err)]; }
            success := false;
          }
        case FileMissing =>
          lines := lines + [AdbNotOnPath];
          success := false;
        case Raised(e) =>
          lines := lines + [ExecutionError(e)];
          success := false;
      }
      log := log + lines;
    }

    /** Shows a check's outcome: the three status fields and the log line. */
    method Show(c: PyCheck, devices: seq<string>)
      modifies this
      ensures Snapshot() == old(Snapshot()).(adbStatus := Shown(c), deviceInfo := InfoOf(c),
        adbReady := c.Resolved? && c.resolution.Connected?, log := old(log) + CheckLines(c, devices))
    {
      adbStatus := Shown(c);
      deviceInfo := InfoOf(c);
      adbReady := c.Resolved? && c.resolution.Connected?;
      if !adbReady {
        Write(CheckLine(c, devices));
      }
    }

    /** `check_adb_connection`: the outcome is settled first (choosing the
        only device as `DEVICE_SERIAL` when none was set), then shown. */
    method CheckAdbConnection(host: Host)
      modifies this
      ensures Snapshot() == CheckAdbState(old(Snapshot()), host)
    {
      var outcome, devices, started := Settle(host);
      issued := issued + started;
      Show(outcome, devices);
    }

    /** The branches of `check_adb_connection` up to the outcome: the devices
        listed, the commands started and `DEVICE_SERIAL` afterwards. */
    method Settle(host: Host) returns (outcome: PyCheck, devices: seq<string>, started: seq<seq<string>>)
      modifies this`deviceSerial
      ensures outcome == CheckOutcome(old(deviceSerial), host)
      ensures devices == ListedDevices(host)
      ensures started == CheckCommands(old(deviceSerial), host)
      ensures deviceSerial == CheckSerial(old(deviceSerial), host)
    {
      devices := [];
      started := [DevicesArgv()];
      var listing := host(DevicesArgv());
      if !listing.Exited? {
        outcome := Failure(listing);
        return;
      }
      devices := PyDevices(listing.stdout);
      ghost var target := Resolve(devices, deviceSerial);
      if |devices| == 0 {
        outcome := Resolved(Disconnected);
      } else if |devices| > 1 && deviceSerial == "" {
        outcome := Resolved(MultipleDevices(devices));
      } else if deviceSerial != "" && deviceSerial !in devices {
        outcome := Resolved(NotFound(deviceSerial));
      } else {
        if deviceSerial == "" {
          deviceSerial := devices[0];
        }
        assert target == Probe(deviceSerial);
        started := [DevicesArgv(), ProbeArgv(deviceSerial)];
        var probe := host(ProbeArgv(deviceSerial));
        if !probe.Exited? {
          outcome := Failure(probe);
        } else if Contains(probe.stderr, Unauthorized) {
          outcome := Resolved(AuthFailed(deviceSerial));
        } else {
          outcome := Resolved(Connected(deviceSerial));
        }
      }
    }

    /** Shows an interface check's outcome. */
    method ShowIface(c: PyIface)
      modifies this
      ensures Snapshot() == old(Snapshot()).(linuxIfaceStatus := ShownIface(c), log := old(log) + [IfaceLine(c)])
    {
      Write(IfaceLine(c));
      linuxIfaceStatus := ShownIface(c);
    }

    /** `get_linux_interface_status`: the outcome is settled first, then
        shown with its log line. */
    method GetLinuxInterfaceStatus(host: Host)
      modifies this
      ensures Snapshot() == IfaceState(old(Snapshot()), host)
    {
      var outcome: PyIface;
      var started := [LinkArgv()];
      var link := host(LinkArgv());
      if !link.Exited? {
        outcome := IfaceFailure(link);
      } else {
        var found := TetherInterface(Trim(link.stdout));
        if found.None? {
          outcome := NotDetected;
        } else {
          var name := found.value;
          started := [LinkArgv(), AddrArgv(name)];
          var addr := host(AddrArgv(name));
          if !addr.Exited? {
            outcome := IfaceFailure(addr);
          } else {
            var ip := IPv4Address(Trim(addr.stdout));
            if ip.Some? {
              outcome := WithIp(name, ip.value);
            } else {
              outcome := NoIp(name);
            }
          }
        }
      }
      assert outcome == IfaceOutcome(host);
      assert started == IfaceCommands(host);
      issued := issued + started;
      ShowIface(outcome);
    }

    /** `action_refresh_status`. */
    method RefreshStatus(host: Host)
      modifies this
      ensures Snapshot() == RefreshState(old(Snapshot()), host)
    {
      Write(Refreshing);
      CheckAdbConnection(host);
      GetLinuxInterfaceStatus(host);
      Write(Refreshed);
    }

    /** Three steps, each run only when the one before it succeeded: the
        `if success:` statements both tethering buttons use. */
    method RunChain(first: AdbStep, second: AdbStep, third: AdbStep, host: Host)
      modifies this
      ensures Snapshot() == Chain(old(Snapshot()), [first, second, third], host)
    {
      ghost var before := Snapshot();
      var success := RunAdbCommand(first, host);
      if success {
        success := RunAdbCommand(second, host);
      }
      if success {
        var _ := RunAdbCommand(third, host);
      }
      ChainOfThree(before, first, second, third, host);
    }

    /** `on_button_pressed`: the readiness gate, then the enable chain (after a
        `root` whose result is ignored), the disable chain or a refresh. */
    method OnButtonPressed(button: Button, host: Host)
      modifies this
      ensures Snapshot() == Press(old(Snapshot()), button, host)
    {
      if deviceSerial == "" || !adbReady {
        Write(GateClosed);
        return;
      }
      match button {
        case EnableButton =>
          Write(EnableStart);
          var _ := RunAdbCommand(Root, host);
          RunChain(DunOff, RndisOn, OffloadOn, host);
          Write(EnableSent);
          RefreshStatus(host);
          Write(DhcpReminder);
        case DisableButton =>
          Write(DisableStart);
          RunChain(OffloadOff, DunOn, MtpAdbOn, host);
          Write(DisableSent);
          RefreshStatus(host);
        case RefreshButton =>
          RefreshStatus(host);
      }
    }
  }

  // ---------------------------------------------------------------- texts

  /** The text of `adb_status`. */
  function StatusText(s: AdbStatus): string {
    match s
    case UnknownStatus => "Unknown"
    case Shown(AdbMissing) => "ERROR: ADB command not found"
    case Shown(CheckError(_)) => "Connection Error"
    case Shown(Resolved(Disconnected)) => "Disconnected"
    case Shown(Resolved(MultipleDevices(_))) => "Multiple Devices"
    case Shown(Resolved(NotFound(_))) => "Specified Device Not Found"
    case Shown(Resolved(AuthFailed(_))) => "Auth Failed"
    case Shown(Resolved(Connected(_))) => "Connected"
  }

  /** The text of `device_info`. */
  function InfoText(i: Info): string {
    match i
    case NoInfo => "N/A"
    case PleaseSpecify(ds) => "Please specify serial (found: " + JoinWith(ds, ", ") + ")"
    case SerialInfo(s) => s
  }

  /** The text of `linux_iface_status`. */
  function IfaceText(s: IfaceStatus): string {
    match s
    case UnknownIface => "Unknown"
    case ShownIface(IpMissing) => "ERROR: 'ip' missing"
    case ShownIface(IfaceError(_)) => "Error Checking"
    case ShownIface(NotDetected) => "Not Detected"
    case ShownIface(NoIp(n)) => n + " (No IP)"
    case ShownIface(WithIp(n, ip)) => n + " (IP: " + ip + ")"
  }

  /** The text written to the message log for each line. */
  function LineText(l: LogLine): string {
    match l
    case Executing(step) => "Executing: " + Description(step) + "..."
    case CommandLine(argv) => "  `" + JoinWith(argv, " ") + "`"
    case Success(step) => "SUCCESS: " + Description(step)
    case OutputLine(t) => "Output: " + Trim(t)
    case Failed(step) => "FAILED: " + Description(step)
    case StdoutLine(t) => "Stdout: " + Trim(t)
    case StderrLine(t) => "Stderr: " + Trim(t)
    case AdbNotOnPath => "ERROR: ADB command not found. Is '" + AdbPath + "' in your PATH?"
    case ExecutionError(e) => "ERROR executing command: " + e
    case CheckLine(AdbMissing, _) => "ERROR: '" + AdbPath + "' command not found. Please install `android-tools` package."
    case CheckLine(CheckError(e), _) => "An error occurred during ADB check: " + e
    case CheckLine(Resolved(Disconnected), _) => "No Android device detected. Connect phone & enable USB debugging."
    case CheckLine(Resolved(MultipleDevices(ds)), _) =>
      "Multiple devices found. Please set `DEVICE_SERIAL` in the script to select one: " + JoinWith(ds, ", ")
    case CheckLine(Resolved(NotFound(s)), ds) =>
      "Specified device (" + s + ") not found among connected devices. Detected: " + JoinWith(ds, ", ") + "."
    case CheckLine(Resolved(AuthFailed(s)), _) => "Failed to communicate with " + s + ". Ensure authorization (prompt on phone)."
    case CheckLine(Resolved(Connected(_)), _) => ""
    case IfaceLine(IpMissing) => "ERROR: 'ip' command not found. Is 'iproute2' installed?"
    case IfaceLine(IfaceError(e)) => "An error occurred during Linux interface check: " + e
    case IfaceLine(NotDetected) => "No active USB-related network interface found on Linux."
    case IfaceLine(NoIp(n)) => "Linux interface '" + n + "' detected, but no IP. Needs DHCP config."
    case IfaceLine(WithIp(n, ip)) => "Linux interface '" + n + "' detected with IP: " + ip + "."
    case Refreshing => "Refreshing status..."
    case Refreshed => "Status refreshed."
    case GateClosed => "ADB not connected, authorized, or device not selected. Cannot perform action."
    case EnableStart => "Attempting to ENABLE tethering..."
    case EnableSent => "Tethering commands sent. Refreshing status."
    case DhcpReminder => "Reminder: You might need to manually configure DHCP on the new Linux interface."
    case DisableStart => "Attempting to DISABLE tethering..."
    case DisableSent => "Tethering deactivation commands sent. Refreshing status."
  }
}
