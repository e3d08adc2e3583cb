/** The Bubble Tea controller of go/main.go ("Go Tether"): the command runner,
    the status check that fills the status record step by step, the
    enable/disable command chains that stop at the first error, and the
    model's `Update`. Every external command, the `adb` lookup in PATH and the
    host's network interfaces are inputs. */
module GoTether {
  import opened Text
  import opened Wrappers
  import opened Exec
  import opened Tea
  import Devices
  import Patterns
  import Steps

  /** What `exec.LookPath("adb")` returned: the path, or the error's text. */
  datatype Lookup = Found(path: string) | NotInPath(error: string)

  /** The result of running one command line `[program, args...]`. */
  type Host = seq<string> -> Completed

  // ---- runCmd ----

  /** What `runCmd` returns: the output and the error (nil as `None`). */
  datatype CmdResult = CmdResult(out: string, err: Option<string>)

  const FailedHead := "failed to run '"
  const FailedMid := "': "
  const OutputMid := ". Output: "

  /** The error `runCmd` wraps a failure in: the command line, the cause and the output. */
  function RunError(name: string, args: seq<string>, cause: string, output: string): string {
    FailedHead + name + " " + JoinWith(args, " ") + FailedMid + cause + OutputMid + output
  }

  /** `runCmd(name, args...)`, given what running the command gave: on success
      the output with surrounding white space removed and no error; on failure
      the output as it is and an error that names the command and quotes the
      output. */
  function RunCmd(name: string, args: seq<string>, c: Completed): (r: CmdResult)
    ensures r.err.None? <==> c.Ok()
    ensures c.Ok() ==> r.out == Trim(c.output)
    ensures !c.Ok() ==> r.out == c.output
    ensures !c.Ok() ==> HasPrefix(r.err.value, FailedHead + name)
    ensures !c.Ok() ==> |c.output| <= |r.err.value| && r.err.value[|r.err.value| - |c.output|..] == c.output
  {
    match c.err
    case None => CmdResult(Trim(c.output), None)
    case Some(cause) =>
      var e := RunError(name, args, cause, c.output);
      assert e == (FailedHead + name) + (" " + JoinWith(args, " ") + FailedMid + cause + OutputMid) + c.output;
      CmdResult(c.output, Some(e))
  }

  /** The output `runCmd(path, args...)` gives, its error ignored (`out, _ := runCmd(...)`). */
  function Query(path: string, args: seq<string>, host: Host): string {
    RunCmd(path, args, host([path] + args)).out
  }

  // ---- checkStatus ----

  const Shell := "shell"
  const DevicesArgs := ["devices"]
  const ModelArgs := [Shell, "getprop", "ro.product.model"]
  const GetFunctionsArgs := [Shell, "svc", "usb", "getFunctions"]
  const DunGetArgs := [Shell, "settings", "get", "global", Steps.DunKey]
  const OffloadGetArgs := [Shell, "settings", "get", "global", Steps.OffloadKey]

  /** `defaultUSBFunction` and `tetherUSBFunction`. */
  const DefaultFunction := "mtp"
  const TetherFunction := Steps.Rndis

  const AdbNotInPath := "adb not found in PATH"
  const NoDeviceName := "No device found"
  const NotFoundName := "Not found"
  const NoIp := "N/A"

  /** The status record (`appStatus`). */
  datatype AppStatus = AppStatus(
    adbPath: string,
    deviceConnected: bool,
    deviceName: string,
    isTethering: bool,
    currentUSBFunction: string,
    tetherDunRequired: string,
    tetherOffloadDisabled: string,
    networkInterfaceName: string,
    networkIP: string)

  /** Go's zero value of `appStatus`. */
  const ZeroStatus := AppStatus("", false, "", false, "", "", "", "", "")

  /** `statusUpdateMsg`: the status found, or the error that stopped the check. */
  datatype StatusUpdate = StatusUpdate(status: AppStatus, err: Option<string>)

  type Byte = x: nat | x < 256

  /** An IP address as `net.IP` holds it: one with a 4-byte form (`To4() != nil`)
      or one without. */
  datatype IP = IPv4(a: Byte, b: Byte, c: Byte, d: Byte) | IPv6

  /** An interface address: `*net.IPNet`, `*net.IPAddr`, or another kind. */
  datatype Addr = IPNet(ip: IP) | IPAddr(ip: IP) | OtherAddr

  /** A host interface: its name and what `Addrs()` returned (`None` on error). */
  datatype NetInterface = NetInterface(name: string, addrs: Option<seq<Addr>>)

  /** The type switch on an address: the IP it carries, nil for other kinds. */
  function AddrIP(a: Addr): Option<IP> {
    match a
    case IPNet(ip) => Some(ip)
    case IPAddr(ip) => Some(ip)
    case OtherAddr => None
  }

  predicate HasIPv4(a: Addr) {
    AddrIP(a).Some? && AddrIP(a).value.IPv4?
  }

  /** `ip.String()` of an address with a 4-byte form: dotted decimal. */
  function IpText(ip: IP): (r: string)
    requires ip.IPv4?
    ensures |r| >= 7 && r != NoIp
  {
    Decimal(ip.a) + "." + Decimal(ip.b) + "." + Decimal(ip.c) + "." + Decimal(ip.d)
  }

  /** The text of the first address with a 4-byte form. */
  function FirstV4(addrs: seq<Addr>): Option<string> {
    if addrs == [] then None
    else if HasIPv4(addrs[0]) then Some(IpText(AddrIP(addrs[0]).value))
    else FirstV4(addrs[1..])
  }

  /** The address found is that of the first address with a 4-byte form, and
      none is found exactly when no address has one. */
  lemma {:induction false} FirstV4First(addrs: seq<Addr>)
    ensures FirstV4(addrs).None? <==> forall j :: 0 <= j < |addrs| ==> !HasIPv4(addrs[j])
    ensures FirstV4(addrs).Some? ==>
      exists j :: 0 <= j < |addrs| && HasIPv4(addrs[j])
        && (forall m :: 0 <= m < j ==> !HasIPv4(addrs[m])) && FirstV4(addrs).value == IpText(AddrIP(addrs[j]).value)
  {
    if addrs == [] {
    } else if HasIPv4(addrs[0]) {
      assert FirstV4(addrs).value == IpText(AddrIP(addrs[0]).value);
    } else {
      FirstV4First(addrs[1..]);
      forall j | 1 <= j < |addrs| ensures addrs[j] == addrs[1..][j - 1] { }
      if FirstV4(addrs).Some? {
        var j :| 0 <= j < |addrs[1..]| && HasIPv4(addrs[1..][j])
          && (forall m :: 0 <= m < j ==> !HasIPv4(addrs[1..][m])) && FirstV4(addrs).value == IpText(AddrIP(addrs[1..][j]).value);
        forall m | 0 <= m < j + 1 ensures !HasIPv4(addrs[m]) {
          if m > 0 {
            assert addrs[m] == addrs[1..][m - 1];
          }
        }
        assert HasIPv4(addrs[j + 1]) && FirstV4(addrs).value == IpText(AddrIP(addrs[j + 1]).value);
      }
    }
  }

  /** An interface the scan takes: named "usb…" or "rndis…", its addresses
      readable, and one of them with a 4-byte form. */
  predicate Qualifies(i: NetInterface) {
    (HasPrefix(i.name, Patterns.UsbPrefix) || HasPrefix(i.name, Patterns.RndisPrefix))
    && i.addrs.Some? && FirstV4(i.addrs.value).Some?
  }

  /** The interface name and address the scan reports. */
  function Scan(interfaces: seq<NetInterface>): Option<(string, string)> {
    if interfaces == [] then None
    else if Qualifies(interfaces[0]) then Some((interfaces[0].name, FirstV4(interfaces[0].addrs.value).value))
    else Scan(interfaces[1..])
  }

  /** The scan reports the first qualifying interface, with its first 4-byte
      address, and nothing exactly when no interface qualifies. */
  lemma {:induction false} ScanFirst(interfaces: seq<NetInterface>)
    ensures Scan(interfaces).None? <==> forall k :: 0 <= k < |interfaces| ==> !Qualifies(interfaces[k])
    ensures Scan(interfaces).Some? ==>
      exists k :: 0 <= k < |interfaces| && Qualifies(interfaces[k])
        && (forall m :: 0 <= m < k ==> !Qualifies(interfaces[m]))
        && Scan(interfaces).value == (interfaces[k].name, FirstV4(interfaces[k].addrs.value).value)
  {
    if interfaces != [] && !Qualifies(interfaces[0]) {
      var rest := interfaces[1..];
      ScanFirst(rest);
      forall k | 1 <= k < |interfaces| ensures interfaces[k] == rest[k - 1] { }
      if Scan(rest).Some? {
        var k :| 0 <= k < |rest| && Qualifies(rest[k]) && (forall m :: 0 <= m < k ==> !Qualifies(rest[m]))
          && Scan(rest).value == (rest[k].name, FirstV4(rest[k].addrs.value).value);
        assert Qualifies(interfaces[k + 1]);
      }
    }
  }

  /** The name and address fields after the scan: "Not found" and "N/A" when
      nothing qualifies. */
  function ScanFields(interfaces: seq<NetInterface>): (string, string) {
    match Scan(interfaces)
    case None => (NotFoundName, NoIp)
    case Some(p) => p
  }

  /** The device listing names a device: its second line contains "device". */
  predicate ListsDevice(out: string) {
    var lines := Split(out, '\n');
    |lines| > 1 && Contains(lines[1], Devices.DeviceWord)
  }

  /** The status of a connected device: its model, USB functions and tethering
      settings, and the tethering interface when the USB function is "rndis". */
  function ConnectedStatus(path: string, host: Host, interfaces: Option<seq<NetInterface>>): AppStatus {
    var usb := Query(path, GetFunctionsArgs, host);
    var tethering := usb == TetherFunction;
    var iface := if tethering && interfaces.Some? then ScanFields(interfaces.value) else (NotFoundName, NoIp);
    AppStatus(path, true, Query(path, ModelArgs, host), tethering, usb,
              Query(path, DunGetArgs, host), Query(path, OffloadGetArgs, host), iface.0, iface.1)
  }

  /** The message `checkStatus` produces. */
  function Status(lookPath: Lookup, host: Host, interfaces: Option<seq<NetInterface>>): StatusUpdate {
    match lookPath
    case NotInPath(_) => StatusUpdate(ZeroStatus, Some(AdbNotInPath))
    case Found(path) =>
      var listing := RunCmd(path, DevicesArgs, host([path] + DevicesArgs));
      if listing.err.Some? then StatusUpdate(ZeroStatus, listing.err)
      else if !ListsDevice(listing.out) then
        StatusUpdate(ZeroStatus.(adbPath := path, deviceName := NoDeviceName), None)
      else StatusUpdate(ConnectedStatus(path, host, interfaces), None)
  }

  function Argv(path: string, args: seq<string>): seq<string> { [path] + args }

  /** The command lines `checkStatus` runs, in order. */
  function StatusQueries(lookPath: Lookup, host: Host): seq<seq<string>> {
    match lookPath
    case NotInPath(_) => []
    case Found(path) =>
      var listing := RunCmd(path, DevicesArgs, host(Argv(path, DevicesArgs)));
      if listing.err.Some? || !ListsDevice(listing.out) then [Argv(path, DevicesArgs)]
      else [Argv(path, DevicesArgs), Argv(path, ModelArgs), Argv(path, GetFunctionsArgs),
            Argv(path, DunGetArgs), Argv(path, OffloadGetArgs)]
  }

  /** The interface scan of `checkStatus`: interfaces in order, each "usb…" or
      "rndis…" one's addresses in order; the first 4-byte address ends both loops. */
  method ScanInterfaces(interfaces: seq<NetInterface>) returns (name: string, ip: string)
    ensures (name, ip) == ScanFields(interfaces)
  {
    name, ip := NotFoundName, NoIp;
    var k := 0;
    while k < |interfaces|
      invariant 0 <= k <= |interfaces|
      invariant Scan(interfaces) == Scan(interfaces[k..])
      invariant name == NotFoundName && ip == NoIp
    {
      var i := interfaces[k];
      assert interfaces[k..] == [i] + interfaces[k + 1..];
      if HasPrefix(i.name, Patterns.UsbPrefix) || HasPrefix(i.name, Patterns.RndisPrefix) {
        if i.addrs.Some? {
          var addrs := i.addrs.value;
          var j := 0;
          while j < |addrs|
            invariant 0 <= j <= |addrs|
            invariant FirstV4(addrs) == FirstV4(addrs[j..])
            invariant name == NotFoundName && ip == NoIp
          {
            assert addrs[j..] == [addrs[j]] + addrs[j + 1..];
            var v := AddrIP(addrs[j]);
            if v.Some? && v.value.IPv4? {
              name, ip := i.name, IpText(v.value);
              assert FirstV4(addrs) == Some(ip);
              break;
            }
            j := j + 1;
          }
        }
      }
      if ip != NoIp {
        break;
      }
      k := k + 1;
    }
  }

  /** `checkStatus`: look up adb, list the devices, and for a connected device
      query it and, when it tethers, scan the host's interfaces. */
  method CheckStatus(lookPath: Lookup, host: Host, interfaces: Option<seq<NetInterface>>)
    returns (msg: StatusUpdate, issued: seq<seq<string>>)
    ensures msg == Status(lookPath, host, interfaces)
    ensures issued == StatusQueries(lookPath, host)
  {
    var status := ZeroStatus;
    if lookPath.NotInPath? {
      return StatusUpdate(ZeroStatus, Some(AdbNotInPath)), [];
    }
    var path := lookPath.path;
    status := status.(adbPath := path);
    var listing := RunCmd(path, DevicesArgs, host(Argv(path, DevicesArgs)));
    if listing.err.Some? {
      return StatusUpdate(ZeroStatus, listing.err), [Argv(path, DevicesArgs)];
    }
    var lines := Split(listing.out, '\n');
    if |lines| > 1 && Contains(lines[1], Devices.DeviceWord) {
      status := status.(deviceConnected := true);
      var model := RunCmd(path, ModelArgs, host(Argv(path, ModelArgs))).out;
      status := status.(deviceName := model);
    } else {
      status := status.(deviceConnected := false, deviceName := NoDeviceName);
      return StatusUpdate(status, None), [Argv(path, DevicesArgs)];
    }
    var usb := RunCmd(path, GetFunctionsArgs, host(Argv(path, GetFunctionsArgs))).out;
    status := status.(currentUSBFunction := usb);
    status := status.(isTethering := status.currentUSBFunction == TetherFunction);
    var dun := RunCmd(path, DunGetArgs, host(Argv(path, DunGetArgs))).out;
    status := status.(tetherDunRequired := dun);
    var offload := RunCmd(path, OffloadGetArgs, host(Argv(path, OffloadGetArgs))).out;
    status := status.(tetherOffloadDisabled := offload);
    status := status.(networkInterfaceName := NotFoundName, networkIP := NoIp);
    if status.isTethering && interfaces.Some? {
      var name, ip := ScanInterfaces(interfaces.value);
      status := status.(networkInterfaceName := name, networkIP := ip);
    }
    msg := StatusUpdate(status, None);
    issued := [Argv(path, DevicesArgs), Argv(path, ModelArgs), Argv(path, GetFunctionsArgs),
               Argv(path, DunGetArgs), Argv(path, OffloadGetArgs)];
  }

  /** The check fails only when adb is not in PATH or the device listing
      fails, and then reports the lookup's own message or the listing's error. */
  lemma StatusErrors(lookPath: Lookup, host: Host, interfaces: Option<seq<NetInterface>>)
    ensures var u := Status(lookPath, host, interfaces);
      && (lookPath.NotInPath? ==> u.err == Some(AdbNotInPath) && StatusQueries(lookPath, host) == [])
      && (lookPath.Found? ==>
            var listing := RunCmd(lookPath.path, DevicesArgs, host(Argv(lookPath.path, DevicesArgs)));
            && (u.err.Some? <==> !host(Argv(lookPath.path, DevicesArgs)).Ok())
            && (u.err.Some? ==> u.err == listing.err && HasPrefix(u.err.value, FailedHead + lookPath.path)))
  {
  }

  /** A device counts as connected exactly when the trimmed listing's second
      line contains "device"; without one the check names no device and
      queries nothing further. */
  lemma ConnectedIff(path: string, host: Host, interfaces: Option<seq<NetInterface>>)
    requires host(Argv(path, DevicesArgs)).Ok()
    ensures var u := Status(Found(path), host, interfaces);
      var out := Trim(host(Argv(path, DevicesArgs)).output);
      && u.err.None?
      && (u.status.deviceConnected <==> ListsDevice(out))
      && (!ListsDevice(out) ==>
            && u.status.deviceName == NoDeviceName && u.status.adbPath == path
            && !u.status.isTethering && StatusQueries(Found(path), host) == [Argv(path, DevicesArgs)])
      && (ListsDevice(out) ==> |StatusQueries(Found(path), host)| == 5)
  {
  }

  /** For a connected device, tethering is reported exactly when the USB
      functions read back as "rndis", and an interface is reported only then,
      when one qualifies; its name and address are reported together. */
  lemma TetheringIff(path: string, host: Host, interfaces: Option<seq<NetInterface>>)
    requires host(Argv(path, DevicesArgs)).Ok()
    requires ListsDevice(Trim(host(Argv(path, DevicesArgs)).output))
    ensures var s := Status(Found(path), host, interfaces).status;
      && (s.isTethering <==> s.currentUSBFunction == TetherFunction)
      && (s.networkIP != NoIp <==>
            s.isTethering && interfaces.Some? && exists k :: 0 <= k < |interfaces.value| && Qualifies(interfaces.value[k]))
      && (s.networkIP == NoIp <==> s.networkInterfaceName == NotFoundName)
  {
    var s := Status(Found(path), host, interfaces).status;
    if s.isTethering && interfaces.Some? {
      ScanFirst(interfaces.value);
      if Scan(interfaces.value).Some? {
        FoundInterface(interfaces.value);
      }
    }
  }

  /** A reported interface has a real address and a name other than "Not found". */
  lemma {:induction false} FoundInterface(interfaces: seq<NetInterface>)
    requires Scan(interfaces).Some?
    ensures Scan(interfaces).value.1 != NoIp && Scan(interfaces).value.0 != NotFoundName
  {
    if Qualifies(interfaces[0]) {
      FirstV4Text(interfaces[0].addrs.value);
      var name := interfaces[0].name;
      if HasPrefix(name, Patterns.UsbPrefix) {
        assert name[0] == Patterns.UsbPrefix[0];
      } else {
        assert name[0] == Patterns.RndisPrefix[0];
      }
    } else {
      FoundInterface(interfaces[1..]);
    }
  }

  /** The address found is never "N/A". */
  lemma {:induction false} FirstV4Text(addrs: seq<Addr>)
    requires FirstV4(addrs).Some?
    ensures FirstV4(addrs).value != NoIp
  {
    if !HasIPv4(addrs[0]) {
      FirstV4Text(addrs[1..]);
    }
  }

  // ---- toggleTethering ----

  const DunOffArgs := [Shell, "settings", "put", "global", Steps.DunKey, "0"]
  const RndisOnArgs := [Shell, "svc", "usb", "setFunctions", TetherFunction]
  const OffloadOnArgs := [Shell, "settings", "put", "global", Steps.OffloadKey, "1"]
  const MtpOnArgs := [Shell, "svc", "usb", "setFunctions", DefaultFunction]

  /** The commands enabling runs, in order, and the one disabling runs. */
  const EnableSteps := [DunOffArgs, RndisOnArgs, OffloadOnArgs]
  const DisableSteps := [MtpOnArgs]

  /** `tetheringDoneMsg`'s error, with the command lines that were run. */
  datatype Outcome = Outcome(err: Option<string>, issued: seq<seq<string>>)

  /** Commands run one after the other; the first error is returned at once. */
  function Chain(path: string, steps: seq<seq<string>>, host: Host): (o: Outcome)
    ensures |o.issued| <= |steps|
  {
    if steps == [] then Outcome(None, [])
    else
      var r := RunCmd(path, steps[0], host(Argv(path, steps[0])));
      if r.err.Some? then Outcome(r.err, [Argv(path, steps[0])])
      else
        var rest := Chain(path, steps[1..], host);
        Outcome(rest.err, [Argv(path, steps[0])] + rest.issued)
  }

  /** `toggleTethering(enable)`: the lookup's error, or the chain's outcome. */
  function Toggle(enable: bool, lookPath: Lookup, host: Host): Outcome {
    match lookPath
    case NotInPath(e) => Outcome(Some(e), [])
    case Found(path) => Chain(path, if enable then EnableSteps else DisableSteps, host)
  }

  /** The command lines of steps run by adb at `path`. */
  function Argvs(path: string, steps: seq<seq<string>>): (r: seq<seq<string>>)
    ensures |r| == |steps|
  {
    seq(|steps|, i requires 0 <= i < |steps| => Argv(path, steps[i]))
  }

  /** Whether each step would succeed if run. */
  function Oks(path: string, steps: seq<seq<string>>, host: Host): (r: seq<bool>)
    ensures |r| == |steps|
  {
    seq(|steps|, i requires 0 <= i < |steps| => StepOk(path, steps[i], host))
  }

  /** Step `step` succeeds when run by adb at `path`. */
  predicate StepOk(path: string, step: seq<string>, host: Host) {
    host(Argv(path, step)).Ok()
  }

  /** The chain after a first step that succeeds. */
  lemma ChainCons(path: string, steps: seq<seq<string>>, host: Host)
    requires steps != [] && StepOk(path, steps[0], host)
    ensures Chain(path, steps, host).err == Chain(path, steps[1..], host).err
    ensures Chain(path, steps, host).issued == [Argv(path, steps[0])] + Chain(path, steps[1..], host).issued
    ensures Oks(path, steps, host)[1..] == Oks(path, steps[1..], host)
    ensures Argvs(path, steps)[1..] == Argvs(path, steps[1..])
  {
    Tails(path, steps, host);
  }

  /** The per-step lists of the steps after the first. */
  lemma Tails(path: string, steps: seq<seq<string>>, host: Host)
    requires steps != []
    ensures Oks(path, steps, host)[1..] == Oks(path, steps[1..], host)
    ensures Argvs(path, steps)[1..] == Argvs(path, steps[1..])
  {
    assert forall i :: 0 <= i < |steps| - 1 ==> Oks(path, steps, host)[1..][i] == Oks(path, steps[1..], host)[i];
    assert forall i :: 0 <= i < |steps| - 1 ==> Argvs(path, steps)[1..][i] == Argvs(path, steps[1..])[i];
  }

  /** The chain runs steps up to and including the first that fails, and no
      further. */
  lemma {:induction false} ChainRuns(path: string, steps: seq<seq<string>>, host: Host)
    ensures Chain(path, steps, host).issued
         == Argvs(path, steps)[..Steps.Ran(Steps.StopOnFailure, Oks(path, steps, host))]
  {
    if steps != [] {
      var oks := Oks(path, steps, host);
      var cmds := Argvs(path, steps);
      Steps.RanFirst(Steps.StopOnFailure, oks);
      if oks[0] {
        ChainCons(path, steps, host);
        ChainRuns(path, steps[1..], host);
        TakeCons(cmds, Steps.Ran(Steps.StopOnFailure, oks[1..]));
      } else {
        TakeCons(cmds, 0);
      }
    }
  }

  /** The first `1 + m` elements are the first one followed by the next `m`. */
  lemma TakeCons<T>(xs: seq<T>, m: nat)
    requires 1 + m <= |xs|
    ensures xs[..1 + m] == [xs[0]] + xs[1..][..m]
  {
  }

  /** The chain reports an error exactly when some step fails. */
  lemma {:induction false} ChainErrorIff(path: string, steps: seq<seq<string>>, host: Host)
    ensures Chain(path, steps, host).err.None? <==> forall i :: 0 <= i < |steps| ==> StepOk(path, steps[i], host)
  {
    if steps != [] && StepOk(path, steps[0], host) {
      ChainCons(path, steps, host);
      ChainErrorIff(path, steps[1..], host);
      forall i | 1 <= i < |steps| ensures steps[i] == steps[1..][i - 1] { }
    }
  }

  /** A reported error is the own error of the last step run, which is the
      first that fails. */
  lemma {:induction false} ChainErrorLast(path: string, steps: seq<seq<string>>, host: Host)
    requires Chain(path, steps, host).err.Some?
    ensures var n := Steps.Ran(Steps.StopOnFailure, Oks(path, steps, host));
      && 0 < n <= |steps| && !StepOk(path, steps[n - 1], host)
      && Chain(path, steps, host).err == RunCmd(path, steps[n - 1], host(Argv(path, steps[n - 1]))).err
  {
    var oks := Oks(path, steps, host);
    if StepOk(path, steps[0], host) {
      ChainCons(path, steps, host);
      ChainErrorLast(path, steps[1..], host);
      var m := Steps.Ran(Steps.StopOnFailure, oks[1..]);
      assert Steps.Ran(Steps.StopOnFailure, oks) == 1 + m;
      assert steps[1..][m - 1] == steps[m];
    } else {
      assert Steps.Ran(Steps.StopOnFailure, oks) == 1;
    }
  }

  /** The first-error chains of enabling and disabling. */
  lemma ToggleStops(enable: bool, path: string, host: Host)
    ensures var steps := if enable then EnableSteps else DisableSteps;
      var o := Toggle(enable, Found(path), host);
      && o.issued == Argvs(path, steps)[..Steps.Ran(Steps.StopOnFailure, Oks(path, steps, host))]
      && (o.err.None? <==> forall i :: 0 <= i < |steps| ==> StepOk(path, steps[i], host))
  {
    ChainRuns(path, if enable then EnableSteps else DisableSteps, host);
    ChainErrorIff(path, if enable then EnableSteps else DisableSteps, host);
  }

  /** The words the device's shell sees for `adb shell words...`. */
  lemma ShellWordsOf(path: string, words: seq<string>)
    requires |words| >= 1 && forall i :: 0 <= i < |words| ==> ' ' !in words[i]
    ensures Steps.ShellWords(Argv(path, [Shell] + words)) == words
  {
    var argv := Argv(path, [Shell] + words);
    assert argv[1..] == [Shell] + words;
    assert argv[1..][1..] == words;
    SplitJoin(words, ' ');
  }

  /** `settings put global KEY VALUE` writes that global setting. */
  lemma PutGlobalWrites(path: string, key: string, value: string)
    requires ' ' !in key && ' ' !in value
    ensures Steps.WriteOf(Argv(path, [Shell, "settings", "put", "global", key, value])) == Some((Steps.Global(key), value))
  {
    ShellWordsOf(path, ["settings", "put", "global", key, value]);
  }

  /** `svc usb setFunctions F` writes the USB functions. */
  lemma SetFunctionsWrites(path: string, functions: string)
    requires ' ' !in functions
    ensures Steps.WriteOf(Argv(path, [Shell, "svc", "usb", "setFunctions", functions])) == Some((Steps.UsbFunctions, functions))
  {
    ShellWordsOf(path, ["svc", "usb", "setFunctions", functions]);
  }

  /** What each tethering command writes on the device. */
  lemma ToggleWrites(path: string)
    ensures Steps.WriteOf(Argv(path, DunOffArgs)) == Some((Steps.DunRequired, "0"))
    ensures Steps.WriteOf(Argv(path, RndisOnArgs)) == Some((Steps.UsbFunctions, TetherFunction))
    ensures Steps.WriteOf(Argv(path, OffloadOnArgs)) == Some((Steps.OffloadDisabled, "1"))
    ensures Steps.WriteOf(Argv(path, MtpOnArgs)) == Some((Steps.UsbFunctions, DefaultFunction))
  {
    PutGlobalWrites(path, Steps.DunKey, "0");
    SetFunctionsWrites(path, TetherFunction);
    PutGlobalWrites(path, Steps.OffloadKey, "1");
    SetFunctionsWrites(path, DefaultFunction);
  }

  /** Disabling only switches the USB functions back to "mtp": after a full
      enable and a disable, tether_dun_required stays "0" and
      tether_offload_disabled stays "1", so disabling does not undo enabling
      whenever the phone started with tether_dun_required other than "0". */
  lemma DisableKeepsSettings(path: string, s: Steps.Settings)
    ensures var enabled := Steps.Apply(Argvs(path, EnableSteps), Steps.AllOk(3), s);
      var after := Steps.Apply(Argvs(path, DisableSteps), [true], enabled);
      && after == s[Steps.DunRequired := "0"][Steps.OffloadDisabled := "1"][Steps.UsbFunctions := DefaultFunction]
      && (Steps.DunRequired in s && s[Steps.DunRequired] != "0" ==>
            after != Steps.Apply(Argvs(path, DisableSteps), [true], s))
  {
    var dun, usb, off := Steps.DunRequired, Steps.UsbFunctions, Steps.OffloadDisabled;
    var enabled := s[dun := "0"][usb := TetherFunction][off := "1"];
    EnableSettings(path, s);
    DisableSettings(path, enabled);
    DisableSettings(path, s);
    assert enabled[usb := DefaultFunction] == s[dun := "0"][off := "1"][usb := DefaultFunction];
    assert enabled[usb := DefaultFunction][dun] == "0";
  }

  /** A full enable writes its three settings. */
  lemma EnableSettings(path: string, s: Steps.Settings)
    ensures Steps.Apply(Argvs(path, EnableSteps), Steps.AllOk(3), s)
         == s[Steps.DunRequired := "0"][Steps.UsbFunctions := TetherFunction][Steps.OffloadDisabled := "1"]
  {
    ToggleWrites(path);
    var e := Argvs(path, EnableSteps);
    var oks := Steps.AllOk(3);
    var s1 := s[Steps.DunRequired := "0"];
    var s2 := s1[Steps.UsbFunctions := TetherFunction];
    ApplyWrite(e, oks, s);
    ApplyWrite(e[1..], oks[1..], s1);
    ApplyWrite(e[1..][1..], oks[1..][1..], s2);
    assert e[1..][1..][1..] == [];
  }

  /** A successful disable writes the USB functions alone. */
  lemma DisableSettings(path: string, s: Steps.Settings)
    ensures Steps.Apply(Argvs(path, DisableSteps), [true], s) == s[Steps.UsbFunctions := DefaultFunction]
  {
    ToggleWrites(path);
    var d := Argvs(path, DisableSteps);
    ApplyWrite(d, [true], s);
    assert d[1..] == [];
  }

  /** A successful first command that writes a setting stores its value. */
  lemma ApplyWrite(cmds: seq<seq<string>>, oks: seq<bool>, s: Steps.Settings)
    requires |oks| == |cmds| && cmds != [] && oks[0] && Steps.WriteOf(cmds[0]).Some?
    ensures var w := Steps.WriteOf(cmds[0]).value;
      Steps.Apply(cmds, oks, s) == Steps.Apply(cmds[1..], oks[1..], s[w.0 := w.1])
  {
  }

  // ---- the model ----

  /** The four log levels (`logLevelInfo`, …, `logLevelCmd`). */
  datatype Level = Info | Warn | Error | CmdLevel

  /** A log entry; its timestamp is not modelled. */
  datatype LogEntry = LogEntry(level: Level, message: string)

  /** The commands `Update` returns, by what they do: deliver a log entry
      (`addLog`), run `checkStatus` or `toggleTethering`, or quit. */
  datatype Cmd = AddLog(entry: LogEntry) | CheckStatusCmd | ToggleCmd(enable: bool) | Quit

  /** The messages `Update` reacts to, apart from window and spinner events. */
  datatype Msg =
    | Key(key: KeyName)
    | LogMsg(entry: LogEntry)
    | StatusUpdateMsg(update: StatusUpdate)
    | TetheringDoneMsg(err: Option<string>)

  /** Everything a command can observe when it runs. */
  datatype Env = Env(lookPath: Lookup, host: Host, interfaces: Option<seq<NetInterface>>)

  /** The message a command delivers when run (none for quitting). */
  function Perform(c: Cmd, env: Env): Option<Msg> {
    match c
    case AddLog(e) => Some(LogMsg(e))
    case CheckStatusCmd => Some(StatusUpdateMsg(Status(env.lookPath, env.host, env.interfaces)))
    case ToggleCmd(enable) => Some(TetheringDoneMsg(Toggle(enable, env.lookPath, env.host).err))
    case Quit => None
  }

  const MenuChoices := ["Enable Tethering", "Disable Tethering", "Refresh & Flush Log", "Daemonize (placeholder)", "Exit"]

  const InitLog := "Go Tether TUI Initializing..."
  const CheckingLog := "Checking for ADB..."
  const EnablingLog := "Enabling tethering..."
  const DisablingLog := "Disabling tethering..."
  const CannotEnableLog := "Cannot enable: No device connected."
  const CannotDisableLog := "Cannot disable: No device connected."
  const RefreshingLog := "Refreshing status..."
  const FlushedLog := "Log flushed and status refreshed."
  const DaemonizeLog := "Daemonize feature is not yet implemented."
  const UpdatedLog := "Status updated successfully."
  const TetherFailedHead := "Tethering command failed: "
  const TetherDoneLog := "Tethering action successful. Refreshing..."

  /** The model's fields that the core reads and writes. */
  datatype State = State(
    menuCursor: int,
    isLoading: bool,
    lastLog: string,
    logs: seq<LogEntry>,
    status: AppStatus,
    error: Option<string>)

  /** `initialModel()`: loading, one log entry, the first menu item selected. */
  function Initial(): (st: State)
    ensures Invariant(st) && st.isLoading && |st.logs| == 1 && st.logs[0].level == Info
  {
    State(0, true, "", [LogEntry(Info, InitLog)], ZeroStatus, None)
  }

  /** `Init()`: log that adb is being checked, and check the status. */
  function InitCmds(): (cmds: seq<Cmd>)
    ensures CheckStatusCmd in cmds
  {
    [AddLog(LogEntry(Info, CheckingLog)), CheckStatusCmd]
  }

  /** The menu cursor is on a menu item. */
  predicate Invariant(st: State) {
    0 <= st.menuCursor < |MenuChoices|
  }

  /** A key press: quit, cursor moves clamped to the menu, or the selected item. */
  function KeyTransition(st: State, k: KeyName): (State, seq<Cmd>) {
    match k
    case KeyQ => (st, [Quit])
    case CtrlC => (st, [Quit])
    case KeyUp => (if st.menuCursor > 0 then st.(menuCursor := st.menuCursor - 1) else st, [])
    case KeyK => (if st.menuCursor > 0 then st.(menuCursor := st.menuCursor - 1) else st, [])
    case KeyDown => (if st.menuCursor < |MenuChoices| - 1 then st.(menuCursor := st.menuCursor + 1) else st, [])
    case KeyJ => (if st.menuCursor < |MenuChoices| - 1 then st.(menuCursor := st.menuCursor + 1) else st, [])
    case KeyEnter =>
      if st.menuCursor == 0 then
        if st.status.deviceConnected then
          (st.(isLoading := true, lastLog := EnablingLog), [AddLog(LogEntry(CmdLevel, EnablingLog)), ToggleCmd(true)])
        else (st, [AddLog(LogEntry(Warn, CannotEnableLog))])
      else if st.menuCursor == 1 then
        if st.status.deviceConnected then
          (st.(isLoading := true, lastLog := DisablingLog), [AddLog(LogEntry(CmdLevel, DisablingLog)), ToggleCmd(false)])
        else (st, [AddLog(LogEntry(Warn, CannotDisableLog))])
      else if st.menuCursor == 2 then
        (st.(isLoading := true, lastLog := RefreshingLog, logs := []), [AddLog(LogEntry(CmdLevel, FlushedLog)), CheckStatusCmd])
      else if st.menuCursor == 3 then (st, [AddLog(LogEntry(Warn, DaemonizeLog))])
      else if st.menuCursor == 4 then (st, [Quit])
      else (st, [])
    case KeyR => (st, [])
    case OtherKey => (st, [])
  }

  /** `Update`: the new model and the commands it returns. */
  function Transition(st: State, msg: Msg): (State, seq<Cmd>) {
    match msg
    case Key(k) => KeyTransition(st, k)
    case LogMsg(e) => (st.(logs := st.logs + [e]), [])
    case StatusUpdateMsg(u) =>
      if u.err.Some? then
        (st.(isLoading := false, lastLog := "", error := u.err), [AddLog(LogEntry(Error, u.err.value))])
      else
        (st.(isLoading := false, lastLog := "", status := u.status), [AddLog(LogEntry(Info, UpdatedLog))])
    case TetheringDoneMsg(err) =>
      if err.Some? then
        (st.(isLoading := false, error := err), [AddLog(LogEntry(Error, TetherFailedHead + err.value)), CheckStatusCmd])
      else
        (st.(isLoading := false, error := None), [AddLog(LogEntry(Info, TetherDoneLog)), CheckStatusCmd])
  }

  /** The cursor never leaves the menu. */
  lemma TransitionKeepsInvariant(st: State, msg: Msg)
    requires Invariant(st)
    ensures Invariant(Transition(st, msg).0)
  {
  }

  /** Tethering is toggled only from "Enter" on the first two menu items
      while a device is connected: item 0 enables, item 1 disables. */
  lemma ToggleOnlyWhenConnected(st: State, msg: Msg, enable: bool)
    requires ToggleCmd(enable) in Transition(st, msg).1
    ensures msg == Key(KeyEnter) && st.status.deviceConnected
    ensures st.menuCursor == (if enable then 0 else 1)
  {
  }

  /** Without a device, "Enter" on an enable/disable item changes nothing and
      only logs one warning. */
  lemma NotConnectedWarns(st: State)
    requires !st.status.deviceConnected && (st.menuCursor == 0 || st.menuCursor == 1)
    ensures var (next, cmds) := Transition(st, Key(KeyEnter));
      next == st && |cmds| == 1 && cmds[0].AddLog? && cmds[0].entry.level == Warn
  {
  }

  /** "Refresh & Flush" empties the log and refreshes the status; the entry
      it logs is delivered afterwards, so the log then holds that entry alone. */
  lemma FlushThenLog(st: State, env: Env)
    requires st.menuCursor == 2
    ensures var (next, cmds) := Transition(st, Key(KeyEnter));
      && next.logs == [] && next.isLoading && cmds[|cmds| - 1] == CheckStatusCmd
      && Perform(cmds[0], env).Some?
      && Transition(next, Perform(cmds[0], env).value).0.logs == [LogEntry(CmdLevel, FlushedLog)]
  {
  }

  /** Apart from the flush, the log only grows, by the entry a log message delivers. */
  lemma LogsOnlyAppend(st: State, msg: Msg)
    requires !(msg == Key(KeyEnter) && st.menuCursor == 2)
    ensures var next := Transition(st, msg).0;
      if msg.LogMsg? then next.logs == st.logs + [msg.entry] else next.logs == st.logs
  {
  }

  /** A failed status check keeps the last status and records the error; a
      successful one replaces the status and leaves an earlier error in place. */
  lemma StatusUpdateKeeps(st: State, u: StatusUpdate)
    ensures var (next, cmds) := Transition(st, StatusUpdateMsg(u));
      && !next.isLoading && next.lastLog == "" && next.logs == st.logs && next.menuCursor == st.menuCursor
      && (u.err.Some? ==> next.status == st.status && next.error == u.err && cmds == [AddLog(LogEntry(Error, u.err.value))])
      && (u.err.None? ==> next.status == u.status && next.error == st.error && cmds == [AddLog(LogEntry(Info, UpdatedLog))])
  {
  }

  /** Whatever the outcome of toggling, loading stops, the error is replaced
      by the outcome's, and the status is checked again. */
  lemma TetheringDoneRefreshes(st: State, err: Option<string>)
    ensures var (next, cmds) := Transition(st, TetheringDoneMsg(err));
      && !next.isLoading && next.error == err && next.status == st.status
      && |cmds| == 2 && cmds[1] == CheckStatusCmd && cmds[0].AddLog?
      && cmds[0].entry.level == (if err.Some? then Error else Info)
  {
  }

  /** The Go model's core fields, updated in place. */
  class Model {
    var menuCursor: int
    var isLoading: bool
    var lastLog: string
    var logs: seq<LogEntry>
    var status: AppStatus
    var error: Option<string>

    function Snapshot(): State
      reads this
    {
      State(menuCursor, isLoading, lastLog, logs, status, error)
    }

    predicate Valid()
      reads this
    {
      Invariant(Snapshot())
    }

    /** `initialModel()`. */
    constructor ()
      ensures Snapshot() == Initial() && Valid()
    {
      menuCursor := 0;
      isLoading := true;
      lastLog := "";
      logs := [LogEntry(Info, InitLog)];
      status := ZeroStatus;
      error := None;
    }

    /** `Update(msg)`. */
    method Update(msg: Msg) returns (cmds: seq<Cmd>)
      requires Valid()
      modifies this
      ensures Valid()
      ensures (Snapshot(), cmds) == Transition(old(Snapshot()), msg)
    {
      cmds := [];
      match msg {
        case Key(k) =>
          cmds := HandleKey(k);
        case LogMsg(e) =>
          logs := logs + [e];
        case StatusUpdateMsg(u) =>
          isLoading := false;
          lastLog := "";
          if u.err.Some? {
            error := u.err;
            cmds := [AddLog(LogEntry(Error, u.err.value))];
          } else {
            status := u.status;
            cmds := [AddLog(LogEntry(Info, UpdatedLog))];
          }
        case TetheringDoneMsg(err) =>
          isLoading := false;
          var entry;
          if err.Some? {
            error := err;
            entry := LogEntry(Error, TetherFailedHead + err.value);
          } else {
            error := None;
            entry := LogEntry(Info, TetherDoneLog);
          }
          cmds := [AddLog(entry), CheckStatusCmd];
      }
    }

    /** The key switch of `Update`. */
    method HandleKey(k: KeyName) returns (cmds: seq<Cmd>)
      requires Valid()
      modifies this
      ensures Valid()
      ensures (Snapshot(), cmds) == KeyTransition(old(Snapshot()), k)
    {
      cmds := [];
      match k {
        case KeyQ =>
          return [Quit];
        case CtrlC =>
          return [Quit];
        case KeyUp =>
          if menuCursor > 0 {
            menuCursor := menuCursor - 1;
          }
        case KeyK =>
          if menuCursor > 0 {
            menuCursor := menuCursor - 1;
          }
        case KeyDown =>
          if menuCursor < |MenuChoices| - 1 {
            menuCursor := menuCursor + 1;
          }
        case KeyJ =>
          if menuCursor < |MenuChoices| - 1 {
            menuCursor := menuCursor + 1;
          }
        case KeyEnter =>
          if menuCursor == 0 {
            if status.deviceConnected {
              isLoading := true;
              lastLog := EnablingLog;
              cmds := [AddLog(LogEntry(CmdLevel, lastLog)), ToggleCmd(true)];
            } else {
              cmds := [AddLog(LogEntry(Warn, CannotEnableLog))];
            }
          } else if menuCursor == 1 {
            if status.deviceConnected {
              isLoading := true;
              lastLog := DisablingLog;
              cmds := [AddLog(LogEntry(CmdLevel, lastLog)), ToggleCmd(false)];
            } else {
              cmds := [AddLog(LogEntry(Warn, CannotDisableLog))];
            }
          } else if menuCursor == 2 {
            isLoading := true;
            lastLog := RefreshingLog;
            logs := [];
            cmds := [AddLog(LogEntry(CmdLevel, FlushedLog)), CheckStatusCmd];
          } else if menuCursor == 3 {
            cmds := [AddLog(LogEntry(Warn, DaemonizeLog))];
          } else if menuCursor == 4 {
            return [Quit];
          }
        case KeyR =>
        case OtherKey =>
      }
    }
  }
}
