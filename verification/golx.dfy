/** The Bubble Tea controller of golxpanic/main.go: the device check, the
    interface detector, the adb command runner, the enable/disable sequences
    and the model's `Update`, with every external command's result an input. */
module Golx {
  import opened Text
  import opened Wrappers
  import opened Exec
  import opened Patterns
  import opened Devices
  import opened Tea
  import Steps

  const AdbPath := "adb"
  /** The configured serial; empty means "auto-select". */
  const DeviceSerial := ""
  const LogCapacity := 10
  const OutputLimit := 80
  /** What `adb devices` prints after a serial, for the listings of the scenario lemmas. */
  const DeviceSuffix := ['\t'] + DeviceWord
  const Choices := ["Enable Tethering", "Disable Tethering", "Refresh Status", "Exit"]

  // ---------------------------------------------------------------- texts

  const Unauthorized := "unauthorized"
  const AdbNotFoundStatus := "ERROR: ADB not found"
  const NotAvailable := "N/A"
  const AdbErrorLog := "ADB command not found or error: "
  const DisconnectedStatus := "Disconnected"
  const NoDeviceLog := "No Android device detected. Connect phone & enable USB debugging."
  const MultipleStatus := "Multiple Devices"
  const SpecifyInfo := "Specify serial (found: "
  const ListSeparator := ", "
  const CloseParen := ")"
  const MultipleLog := "Multiple devices found. Please set `deviceSerial` in the script, or specify the serial number: "
  const NotFoundStatus := "Specified Device Not Found"
  const NotFoundLogHead := "Specified device ("
  const NotFoundLogTail := ") not found among connected devices."
  const AuthFailedStatus := "Auth Failed"
  const AuthFailedLogHead := "Failed to communicate with "
  const AuthFailedLogTail := ". Ensure authorization (prompt on phone)."
  const ConnectedStatus := "Connected"
  const ConnectedLogHead := "ADB connection established with "
  const Period := "."
  const IpMissingStatus := "ERROR: 'ip' missing"
  const IpErrorLog := "'ip' command not found or error: "
  const NotDetectedStatus := "Not Detected"
  const NoIfaceLog := "No active USB-related network interface found on Linux."
  const NoIpSuffix := " (No IP)"
  const IfaceLogHead := "Linux interface '"
  const NoIpLogTail := "' detected, but no IP. Needs DHCP config."
  const IpInfix := " (IP: "
  const WithIpLogInfix := "' detected with IP: "
  const ShellPrefix := "shell "
  const NoSerialOutput := "Error: Device serial is not available."
  const SuccessHead := "SUCCESS: "
  const FailedHead := "FAILED: "
  const OutputHead := " (Output: "
  const Ellipsis := "..."
  const EnableRejected := "ADB not connected or authorized. Cannot enable tethering."
  const DisableRejected := "ADB not connected or authorized. Cannot disable tethering."
  const EnableStarting := "Attempting to ENABLE tethering..."
  const DisableStarting := "Attempting to DISABLE tethering..."
  const RefreshingLog := "Refreshing status..."
  const EnableSentLog := "Tethering commands sent. Refreshing status."
  const DisableSentLog := "Tethering deactivation commands sent. Refreshing status."
  const Unknown := "Unknown"

  // ---------------------------------------------------------------- log

  /** The log after `addLog`: the new line is appended and, past ten lines,
      only the last ten are kept. */
  function LogAppend(log: seq<string>, line: string): (r: seq<string>)
    ensures |r| == if |log| < LogCapacity then |log| + 1 else LogCapacity
    ensures r == (log + [line])[|log| + 1 - |r|..]
  {
    var grown := log + [line];
    if |grown| > LogCapacity then grown[|grown| - LogCapacity..] else grown
  }

  /** Below capacity nothing is dropped; at capacity exactly the oldest line is
      dropped; either way the others keep their order and the new line is last. */
  lemma LogAppendFifo(log: seq<string>, line: string)
    requires |log| <= LogCapacity
    ensures |log| < LogCapacity ==> LogAppend(log, line) == log + [line]
    ensures |log| == LogCapacity ==> LogAppend(log, line) == log[1..] + [line]
    ensures LogAppend(log, line)[|LogAppend(log, line)| - 1] == line
  {
    var r := LogAppend(log, line);
    if |log| == LogCapacity {
      assert r == (log + [line])[1..];
      assert (log + [line])[1..] == log[1..] + [line];
    }
  }

  // ---------------------------------------------------------------- device check

  /** The device parsing of `checkAdbConnectionCmd`: split the trimmed listing
      into lines and keep the first tab field of each device line. */
  method ParseDevices(output: string) returns (devices: seq<string>)
    ensures devices == ListedSerials(output)
  {
    var lines := Split(Trim(output), '\n');
    devices := DeviceSerials(lines);
  }

  /** The loop over the listing's lines. */
  method DeviceSerials(lines: seq<string>) returns (devices: seq<string>)
    ensures devices == Serials(lines)
  {
    devices := [];
    var i := 0;
    while i < |lines|
      invariant 0 <= i <= |lines|
      invariant devices == Serials(lines[..i])
    {
      assert lines[..i + 1] == lines[..i] + [lines[i]];
      SerialsAppend(lines[..i], [lines[i]]);
      if IsDeviceLine(lines[i]) {
        devices := devices + [FirstField(lines[i], '\t')];
      }
      i := i + 1;
    }
    assert lines[..i] == lines;
  }

  /** The serials `checkAdbConnectionCmd` reads from the output of `adb devices`. */
  function ListedSerials(output: string): seq<string> {
    Serials(Split(Trim(output), '\n'))
  }

  /** The found-flag search for the selected serial. */
  method IsListed(devices: seq<string>, serial: string) returns (found: bool)
    ensures found <==> serial in devices
  {
    found := false;
    var i := 0;
    while i < |devices|
      invariant 0 <= i <= |devices|
      invariant !found ==> serial !in devices[..i]
      invariant found ==> serial in devices
    {
      if devices[i] == serial {
        found := true;
        break;
      }
      assert devices[..i + 1] == devices[..i] + [devices[i]];
      i := i + 1;
    }
    assert devices[..i] == devices || found;
  }

  /** The serial the check starts from: the configured one overrides the model's. */
  function Selected(current: string): string {
    if DeviceSerial != "" then DeviceSerial else current
  }

  function DevicesArgv(): seq<string> { [AdbPath, "devices"] }

  function ProbeArgv(serial: string): seq<string> { [AdbPath, "-s", serial, "shell", "echo", "test"] }

  /** The authorization probe's verdict: it fails when the probe returned an
      error or its output mentions Unauthorized in any letter case. */
  function Authorize(serial: string, probe: Completed): (r: Resolution)
    ensures r == Connected(serial) <==> probe.Ok() && !Contains(Lower(probe.output), Unauthorized)
    ensures r == AuthFailed(serial) <==> !r.Connected?
  {
    if !probe.Ok() || Contains(Lower(probe.output), Unauthorized) then AuthFailed(serial) else Connected(serial)
  }

  datatype AdbCheck = ListingFailed(error: string) | Checked(resolution: Resolution)

  /** The outcome of `checkAdbConnectionCmd(current)` given the results of
      `adb devices` and of the probe (consulted only when a serial is probed). */
  function CheckAdb(current: string, listing: Completed, probe: Completed): AdbCheck {
    if !listing.Ok() then ListingFailed(listing.err.value)
    else
      match Resolve(ListedSerials(listing.output), Selected(current))
      case Settled(r) => Checked(r)
      case Probe(s) => Checked(Authorize(s, probe))
  }

  /** The commands the check runs: the listing, then the probe if a serial was selected. */
  function CheckAdbCommands(current: string, listing: Completed): seq<seq<string>> {
    if !listing.Ok() then [DevicesArgv()]
    else
      match Resolve(ListedSerials(listing.output), Selected(current))
      case Settled(_) => [DevicesArgv()]
      case Probe(s) => [DevicesArgv(), ProbeArgv(s)]
  }

  datatype AdbStatusMsg = AdbStatusMsg(status: string, info: string, ready: bool, serial: string, logMsg: string)

  /** The message `checkAdbConnectionCmd` delivers for an outcome. */
  function StatusMsg(c: AdbCheck): AdbStatusMsg {
    match c
    case ListingFailed(e) =>
      AdbStatusMsg(AdbNotFoundStatus, NotAvailable, false, "", AdbErrorLog + e)
    case Checked(Disconnected) =>
      AdbStatusMsg(DisconnectedStatus, NotAvailable, false, "",
        NoDeviceLog)
    case Checked(MultipleDevices(ds)) =>
      AdbStatusMsg(MultipleStatus, SpecifyInfo + JoinWith(ds, ListSeparator) + CloseParen, false, "",
        MultipleLog + JoinWith(ds, ListSeparator))
    case Checked(NotFound(s)) =>
      AdbStatusMsg(NotFoundStatus, s, false, "",
        NotFoundLogHead + s + NotFoundLogTail)
    case Checked(AuthFailed(s)) =>
      AdbStatusMsg(AuthFailedStatus, s, false, s,
        AuthFailedLogHead + s + AuthFailedLogTail)
    case Checked(Connected(s)) =>
      AdbStatusMsg(ConnectedStatus, s, true, s, ConnectedLogHead + s + Period)
  }

  /** `checkAdbConnectionCmd`: the message it returns and the commands it runs. */
  method CheckAdbConnection(current: string, listing: Completed, probe: Completed)
    returns (msg: AdbStatusMsg, issued: seq<seq<string>>)
    ensures msg == StatusMsg(CheckAdb(current, listing, probe))
    ensures issued == CheckAdbCommands(current, listing)
  {
    issued := [DevicesArgv()];
    if !listing.Ok() {
      msg := StatusMsg(ListingFailed(listing.err.value));
      return;
    }
    var devices := ParseDevices(listing.output);
    ghost var target := Resolve(devices, Selected(current));
    var selectedSerial := current;
    if DeviceSerial != "" {
      selectedSerial := DeviceSerial;
    }
    if |devices| == 0 {
      msg := StatusMsg(Checked(Disconnected));
    } else if |devices| > 1 && selectedSerial == "" {
      msg := StatusMsg(Checked(MultipleDevices(devices)));
    } else {
      if selectedSerial == "" && |devices| == 1 {
        selectedSerial := devices[0];
      } else {
        var found := IsListed(devices, selectedSerial);
        if !found {
          msg := StatusMsg(Checked(NotFound(selectedSerial)));
          return;
        }
      }
      assert target == Probe(selectedSerial);
      issued := issued + [ProbeArgv(selectedSerial)];
      msg := StatusMsg(Checked(Authorize(selectedSerial, probe)));
    }
  }

  /** Which outcomes the message marks ready, and which carry a serial. */
  lemma StatusMsgFields(c: AdbCheck)
    ensures StatusMsg(c).ready <==> c.Checked? && c.resolution.Connected?
    ensures StatusMsg(c).serial != "" ==>
      c.Checked? && (c.resolution.AuthFailed? || c.resolution.Connected?) && StatusMsg(c).serial == c.resolution.serial
    ensures StatusMsg(c).logMsg != ""
  {
    match c
    case ListingFailed(_) =>
    case Checked(r) =>
      match r
      case Disconnected =>
      case MultipleDevices(_) =>
      case NotFound(_) =>
      case AuthFailed(_) =>
      case Connected(_) =>
  }

  /** The branches of `checkAdbConnectionCmd`: a failed listing; no device; several
      devices with none selected; a selected serial that is not listed; and
      otherwise the probe of the selected serial (or of the only device), which
      ends Connected exactly when it succeeded and did not say unauthorized. */
  lemma CheckAdbOutcomes(current: string, listing: Completed, probe: Completed)
    ensures var c := CheckAdb(current, listing, probe);
      c.ListingFailed? <==> !listing.Ok()
    ensures var c, ds := CheckAdb(current, listing, probe), ListedSerials(listing.output);
      c == Checked(Disconnected) <==> listing.Ok() && |ds| == 0
    ensures var c, ds := CheckAdb(current, listing, probe), ListedSerials(listing.output);
      c == Checked(MultipleDevices(ds)) <==> listing.Ok() && |ds| > 1 && Selected(current) == ""
    ensures var c, ds, sel := CheckAdb(current, listing, probe), ListedSerials(listing.output), Selected(current);
      c == Checked(NotFound(sel)) <==> listing.Ok() && |ds| > 0 && sel != "" && sel !in ds
    ensures var c, ds, sel := CheckAdb(current, listing, probe), ListedSerials(listing.output), Selected(current);
      c.Checked? && (c.resolution.AuthFailed? || c.resolution.Connected?) <==>
        listing.Ok() && |ds| > 0 && (if sel == "" then |ds| == 1 else sel in ds)
    ensures var c, ds, sel := CheckAdb(current, listing, probe), ListedSerials(listing.output), Selected(current);
      c.Checked? && (c.resolution.AuthFailed? || c.resolution.Connected?) ==>
        c.resolution.serial == (if sel == "" then ds[0] else sel)
        && (c.resolution.Connected? <==> probe.Ok() && !Contains(Lower(probe.output), Unauthorized))
  {
  }

  /** Only a probed, authorized serial makes the check report ready, and only a
      check that ran the probe reports a serial: the probed one. Every outcome
      before the probe carries an empty serial. */
  lemma CheckAdbReadiness(current: string, listing: Completed, probe: Completed)
    ensures var c := CheckAdb(current, listing, probe);
      StatusMsg(c).ready <==> c.Checked? && c.resolution.Connected?
    ensures var c := CheckAdb(current, listing, probe);
      StatusMsg(c).ready ==> probe.Ok() && !Contains(Lower(probe.output), Unauthorized)
    ensures var m := StatusMsg(CheckAdb(current, listing, probe));
            var issued := CheckAdbCommands(current, listing);
      m.serial != "" ==> |issued| == 2 && m.serial == issued[1][2]
  {
    var c := CheckAdb(current, listing, probe);
    StatusMsgFields(c);
    if listing.Ok() {
      match Resolve(ListedSerials(listing.output), Selected(current))
      case Settled(r) =>
      case Probe(s) =>
        assert ProbeArgv(s)[2] == s;
    }
  }

  /** The serials of a listing with a header line and the given device lines,
      followed by a newline. */
  lemma ListingOf(out: string, body: string, lines: seq<string>)
    requires out == body + "\n" && body == Join(lines, '\n') && |lines| >= 1
    requires |body| > 0 && !IsSpace(body[0]) && !IsSpace(body[|body| - 1])
    requires forall i :: 0 <= i < |lines| ==> '\n' !in lines[i]
    ensures Split(Trim(out), '\n') == lines
  {
    TrimNewline(out, body);
    SplitJoin(lines, '\n');
  }

  /** Trimming a text with no white space at its ends, followed by a newline,
      gives the text back. */
  lemma TrimNewline(out: string, body: string)
    requires out == body + "\n"
    requires |body| > 0 && !IsSpace(body[0]) && !IsSpace(body[|body| - 1])
    ensures Trim(out) == body
  {
    assert TrimLeft(out) == out;
    assert out[|out| - 1] == '\n' && out[..|out| - 1] == body;
    assert TrimRight(out) == TrimRight(body);
  }

  lemma HeaderIsNotDevice()
    ensures !IsDeviceLine(Header)
  {
    assert OccursAt(Header, Header, 0);
  }

  lemma DeviceLine(serial: string)
    requires '\t' !in serial && !Contains(serial, Header)
    ensures IsDeviceLine(serial + DeviceSuffix) && FirstField(serial + DeviceSuffix, '\t') == serial
  {
    DeviceLineListed(serial);
    DeviceLineSerial(serial);
  }

  /** A serial followed by "\tdevice" is a device line unless the serial itself
      holds the header: the header has no tab, so it cannot reach past the serial. */
  lemma DeviceLineListed(serial: string)
    requires !Contains(serial, Header)
    ensures IsDeviceLine(serial + DeviceSuffix)
  {
    var line := serial + DeviceSuffix;
    forall i: nat | i + |Header| <= |line|
      ensures !OccursAt(line, Header, i)
    {
      if i + |Header| <= |serial| {
        assert !OccursAt(serial, Header, i);
        assert line[i..i + |Header|] == serial[i..i + |Header|];
      } else {
        assert line[i..i + |Header|][|serial| - i] == '\t';
        assert Header[|serial| - i] != '\t';
      }
    }
    assert line[|serial| + 1..] == DeviceWord;
    assert OccursAt(line, DeviceWord, |serial| + 1);
  }

  lemma DeviceLineSerial(serial: string)
    requires '\t' !in serial
    ensures FirstField(serial + DeviceSuffix, '\t') == serial
  {
    assert serial + DeviceSuffix == serial + ['\t'] + DeviceWord;
    FirstFieldBefore(serial, '\t', DeviceWord);
  }

  /** A serial as `adb devices` prints it: no tab, newline or leading white
      space, and not holding the listing's header. */
  predicate PlainSerial(serial: string) {
    0 < |serial| && '\t' !in serial && '\n' !in serial && !IsSpace(serial[0]) && !Contains(serial, Header)
  }

  /** The listing `adb devices` prints for the given serials. */
  function Listing(serials: seq<string>): string {
    Header + "\n" + DeviceLines(serials)
  }

  function DeviceLines(serials: seq<string>): string {
    if serials == [] then [] else serials[0] + DeviceSuffix + "\n" + DeviceLines(serials[1..])
  }

  lemma JoinThree(x: string, y: string, z: string, c: char)
    ensures Join([x, y, z], c) == x + [c] + y + [c] + z
  {
    assert [x, y, z][1..] == [y, z];
    assert [y, z][1..] == [z];
    assert Join([z], c) == z;
    assert Join([y, z], c) == y + [c] + z;
    assert Join([x, y, z], c) == x + [c] + (y + [c] + z);
  }

  /** The one device of a one-line listing, as the check reads it. */
  lemma ListingOne(a: string)
    requires PlainSerial(a)
    ensures ListedSerials(Listing([a])) == [a]
  {
    var la := a + DeviceSuffix;
    ListingOneLines(a);
    HeaderIsNotDevice();
    DeviceLine(a);
    SerialsOfTwo(Header, la);
  }

  lemma ListingOneLines(a: string)
    requires PlainSerial(a)
    ensures Split(Trim(Listing([a])), '\n') == [Header, a + DeviceSuffix]
  {
    var la := a + DeviceSuffix;
    assert [a][1..] == [];
    assert DeviceLines([a]) == la + "\n";
    assert [Header, la][1..] == [la];
    assert Join([Header, la], '\n') == Header + "\n" + la;
    assert '\n' !in Header;
    assert '\n' !in la;
    ListingOf(Listing([a]), Header + "\n" + la, [Header, la]);
  }

  /** The two devices of a two-line listing, in order. */
  lemma ListingTwo(a: string, b: string)
    requires PlainSerial(a) && PlainSerial(b)
    ensures ListedSerials(Listing([a, b])) == [a, b]
  {
    var la, lb := a + DeviceSuffix, b + DeviceSuffix;
    ListingTwoLines(a, b);
    HeaderIsNotDevice();
    DeviceLine(a);
    DeviceLine(b);
    SerialsOfThree(Header, la, lb);
  }

  lemma ListingTwoLines(a: string, b: string)
    requires PlainSerial(a) && PlainSerial(b)
    ensures Split(Trim(Listing([a, b])), '\n') == [Header, a + DeviceSuffix, b + DeviceSuffix]
  {
    var la, lb := a + DeviceSuffix, b + DeviceSuffix;
    var body := Header + "\n" + la + "\n" + lb;
    ListingTwoText(a, b);
    JoinThree(Header, la, lb, '\n');
    assert '\n' !in Header;
    assert '\n' !in la && '\n' !in lb;
    ListingOf(Listing([a, b]), body, [Header, la, lb]);
  }

  lemma ListingTwoText(a: string, b: string)
    ensures Listing([a, b]) == Header + "\n" + (a + DeviceSuffix) + "\n" + (b + DeviceSuffix) + "\n"
  {
    assert [a, b][1..] == [b];
    assert [b][1..] == [];
    assert DeviceLines([b]) == b + DeviceSuffix + "\n";
    assert DeviceLines([a, b]) == a + DeviceSuffix + "\n" + (b + DeviceSuffix + "\n");
  }

  /** A listing with one device and nothing selected: after a clean probe the
      device is connected under its serial. */
  lemma ScenarioSingleDevice(serial: string, probe: Completed)
    requires PlainSerial(serial)
    requires probe.Ok() && !Contains(Lower(probe.output), Unauthorized)
    ensures CheckAdb("", Completed(Listing([serial]), None), probe) == Checked(Connected(serial))
    ensures CheckAdbCommands("", Completed(Listing([serial]), None)) == [DevicesArgv(), ProbeArgv(serial)]
  {
    ListingOne(serial);
  }

  /** Two devices and nothing selected: the check stops at "Multiple Devices",
      listing both serials in input order, and runs no probe. */
  lemma ScenarioTwoDevices(a: string, b: string, probe: Completed)
    requires PlainSerial(a) && PlainSerial(b)
    ensures CheckAdb("", Completed(Listing([a, b]), None), probe) == Checked(MultipleDevices([a, b]))
    ensures CheckAdbCommands("", Completed(Listing([a, b]), None)) == [DevicesArgv()]
  {
    ListingTwo(a, b);
  }

  // ---------------------------------------------------------------- interface detector

  datatype IfaceCheck = IpFailed(error: string) | NotDetected | NoIp(name: string) | WithIp(name: string, ip: string)

  function LinkArgv(): seq<string> { ["ip", "link", "show"] }

  function AddrArgv(name: string): seq<string> { ["ip", "-4", "addr", "show", "dev", name] }

  /** `getLinuxInterfaceStatusCmd`: the first tethering interface that is up in
      `ip link show`, then the first IPv4 address `ip -4 addr show dev NAME`
      prints for it (consulted only when an interface was found). */
  function InterfaceCheck(link: Completed, addr: Completed): (r: IfaceCheck)
    ensures r.IpFailed? <==> !link.Ok()
    ensures r.NotDetected? <==> link.Ok() && TetherInterface(link.output).None?
    ensures (r.NoIp? || r.WithIp?) ==> TetherInterface(link.output) == Some(r.name)
    ensures r.WithIp? <==> link.Ok() && TetherInterface(link.output).Some? && addr.Ok() && IPv4Address(addr.output).Some?
    ensures r.WithIp? ==> IPv4Address(addr.output) == Some(r.ip)
  {
    if !link.Ok() then IpFailed(link.err.value)
    else
      match TetherInterface(link.output)
      case None => NotDetected
      case Some(name) =>
        if addr.Ok() && IPv4Address(addr.output).Some? then WithIp(name, IPv4Address(addr.output).value)
        else NoIp(name)
  }

  /** The detector on `ip` output like a phone's RNDIS link: "3: rndis0:
      <BROADCAST,MULTICAST,UP,LOWER_UP> ..." with the address line
      "inet 192.168.42.1/24 ..." shows "rndis0 (IP: 192.168.42.1)". */
  lemma DetectorScenario(link: string, addr: string)
    requires link == SampleLink && addr == SampleAddr
    ensures InterfaceCheck(Completed(link, None), Completed(addr, None)) == WithIp("rndis0", "192.168.42.1")
  {
    SampleLinkOutput(link);
    SampleAddrOutput(addr);
  }

  /** The commands the detector runs. */
  function InterfaceCommands(link: Completed): seq<seq<string>> {
    if !link.Ok() then [LinkArgv()]
    else
      match TetherInterface(link.output)
      case None => [LinkArgv()]
      case Some(name) => [LinkArgv(), AddrArgv(name)]
  }

  datatype IfaceMsg = IfaceMsg(status: string, logMsg: string)

  function IfaceStatusMsg(c: IfaceCheck): IfaceMsg {
    match c
    case IpFailed(e) => IfaceMsg(IpMissingStatus, IpErrorLog + e)
    case NotDetected => IfaceMsg(NotDetectedStatus, NoIfaceLog)
    case NoIp(n) => IfaceMsg(n + NoIpSuffix, IfaceLogHead + n + NoIpLogTail)
    case WithIp(n, ip) => IfaceMsg(n + IpInfix + ip + CloseParen, IfaceLogHead + n + WithIpLogInfix + ip + Period)
  }

  // ---------------------------------------------------------------- adb commands

  /** The command line `runAdbCommandCmd` starts: none without a serial;
      a "shell ..." command is split once into "shell" and the rest. */
  function CommandArgv(serial: string, command: string): (r: Option<seq<string>>)
    ensures r.None? <==> serial == ""
    ensures r.Some? && HasPrefix(command, ShellPrefix) ==>
      r.value == [AdbPath, "-s", serial, "shell", command[6..]] && command == ShellPrefix + command[6..]
    ensures r.Some? && !HasPrefix(command, ShellPrefix) ==> r.value == [AdbPath, "-s", serial, command]
  {
    if serial == "" then None
    else if HasPrefix(command, ShellPrefix) then
      ShellSplit(command);
      var parts := SplitOnce(command, ' ');
      Some([AdbPath, "-s", serial, parts[0], parts[1]])
    else Some([AdbPath, "-s", serial, command])
  }

  /** Splitting "shell REST" once at the first space gives "shell" and REST. */
  lemma ShellSplit(command: string)
    requires HasPrefix(command, ShellPrefix)
    ensures SplitOnce(command, ' ') == ["shell", command[6..]]
  {
    assert command == "shell" + [' '] + command[6..];
    FirstFieldBefore("shell", ' ', command[6..]);
  }

  datatype CommandResultMsg = CommandResultMsg(description: string, success: bool, output: string)

  /** `runAdbCommandCmd(serial, description, command)` given the result of the
      command it starts. Success means the command ran and returned no error. */
  function RunAdbCommand(serial: string, description: string, command: string, run: Completed): (m: CommandResultMsg)
    ensures m.description == description
    ensures m.success <==> serial != "" && run.Ok()
    ensures serial == "" ==> m.output == NoSerialOutput
    ensures serial != "" ==> m.output == run.output
  {
    match CommandArgv(serial, command)
    case None => CommandResultMsg(description, false, NoSerialOutput)
    case Some(_) => CommandResultMsg(description, run.Ok(), run.output)
  }

  /** A failed command's output as logged: trimmed, and cut to 77 bytes plus
      Ellipsis when longer than 80 bytes. */
  function DisplayedOutput(output: string): (r: string)
    ensures |r| <= OutputLimit
    ensures |Trim(output)| <= OutputLimit ==> r == Trim(output)
    ensures |Trim(output)| > OutputLimit ==> |r| == OutputLimit
    ensures |Trim(output)| > OutputLimit ==> HasPrefix(Trim(output), r[..77]) && r[77..] == Ellipsis
  {
    var t := Trim(output);
    if |t| > OutputLimit then t[..77] + Ellipsis else t
  }

  /** The log line for a command result: success lines never show the output;
      failure lines show it (trimmed, at most 80 bytes) when there was any. */
  function ResultLogLine(m: CommandResultMsg): (line: string)
    ensures m.success ==> line == SuccessHead + m.description
    ensures !m.success ==> HasPrefix(line, FailedHead + m.description)
    ensures !m.success ==> |line| <= |FailedHead + m.description| + |OutputHead| + |CloseParen| + OutputLimit
    ensures !m.success && m.output == "" ==> line == FailedHead + m.description
    ensures !m.success && m.output != "" ==>
      line == FailedHead + m.description + (OutputHead + DisplayedOutput(m.output) + CloseParen)
  {
    if m.success then SuccessHead + m.description
    else
      var head := FailedHead + m.description;
      if m.output != "" then
        var tail := OutputHead + DisplayedOutput(m.output) + CloseParen;
        assert (head + tail)[..|head|] == head;
        head + tail
      else head
  }

  // ---------------------------------------------------------------- sequences

  /** One adb step of a sequence: its description and its command. */
  datatype Step = Step(description: string, command: string)

  datatype Task =
    | RunAdb(serial: string, step: Step)
    | Announce(description: string)
    | CheckAdbTask(serial: string)
    | CheckIfaceTask

  /** What `Update` returns besides the new model: nothing, quitting, the
      refresh batch (`tea.Batch` of the two checks), or the enable or disable
      sequence (`tea.Sequence`), each for the serial it captured. */
  datatype Cmd = NoCmd | Quit | Refresh(serial: string) | Enable(serial: string) | Disable(serial: string)

  /** The command "shell W1 W2 ...": the word "shell", then the words separated by single spaces. */
  function Shell(words: seq<string>): string { ShellPrefix + Join(words, ' ') }

  function PutGlobal(key: string, value: string): seq<string> { ["settings", "put", "global", key, value] }

  function SetFunctions(functions: string): seq<string> { ["svc", "usb", "setFunctions", functions] }

  /** The adb steps of "Enable Tethering". */
  const EnableSteps: seq<Step> := [
    Step(RootDescription, RootCommand),
    Step(DunOffDescription, Shell(PutGlobal(Steps.DunKey, "0"))),
    Step(RndisDescription, Shell(SetFunctions(Steps.Rndis))),
    Step(OffloadOnDescription, Shell(PutGlobal(Steps.OffloadKey, "1")))]

  /** The adb steps of "Disable Tethering". */
  const DisableSteps: seq<Step> := [
    Step(OffloadOffDescription, Shell(PutGlobal(Steps.OffloadKey, "0"))),
    Step(DunOnDescription, Shell(PutGlobal(Steps.DunKey, "1"))),
    Step(MtpAdbDescription, Shell(SetFunctions(Steps.MtpAdb)))]

  const RootDescription := "Attempting ADB root"
  const DunOffDescription := "Set tether_dun_required to 0"
  const RndisDescription := "Set USB functions to RNDIS"
  const OffloadOnDescription := "Disable tether_offload"
  const OffloadOffDescription := "Restore tether_offload_disabled to 0"
  const DunOnDescription := "Restore tether_dun_required to 1"
  const MtpAdbDescription := "Restore default USB functions (MTP, ADB)"
  const RootCommand := "root"

  function RefreshTasks(serial: string): seq<Task> { [CheckAdbTask(serial), CheckIfaceTask] }

  /** The adb steps run against one serial. */
  function AdbTasks(serial: string, steps: seq<Step>): seq<Task> {
    seq(|steps|, i requires 0 <= i < |steps| => RunAdb(serial, steps[i]))
  }

  /** The sequence "Enable Tethering" starts: the adb steps, an announcement, a refresh. */
  function EnableTasks(serial: string): seq<Task> {
    AdbTasks(serial, EnableSteps) + [Announce(EnableSentLog)] + RefreshTasks(serial)
  }

  /** The sequence "Disable Tethering" starts. */
  function DisableTasks(serial: string): seq<Task> {
    AdbTasks(serial, DisableSteps) + [Announce(DisableSentLog)] + RefreshTasks(serial)
  }

  /** The tasks a command starts. The two refresh checks run concurrently; the
      tasks of a sequence run one after another. */
  function CmdTasks(c: Cmd): seq<Task> {
    match c
    case NoCmd => []
    case Quit => []
    case Refresh(s) => RefreshTasks(s)
    case Enable(s) => EnableTasks(s)
    case Disable(s) => DisableTasks(s)
  }

  /** The results a task's commands return: the first and, for the checks, the second command. */
  datatype TaskIO = TaskIO(first: Completed, second: Completed)

  /** The messages `Update` consumes. */
  datatype Msg =
    | Key(key: KeyName)
    | AdbStatus(adb: AdbStatusMsg)
    | IfaceStatus(iface: IfaceMsg)
    | CommandResult(result: CommandResultMsg)

  /** The message one task delivers. */
  function Perform(t: Task, io: TaskIO): Msg {
    match t
    case RunAdb(s, st) => CommandResult(RunAdbCommand(s, st.description, st.command, io.first))
    case Announce(d) => CommandResult(CommandResultMsg(d, true, ""))
    case CheckAdbTask(s) => AdbStatus(StatusMsg(CheckAdb(s, io.first, io.second)))
    case CheckIfaceTask => IfaceStatus(IfaceStatusMsg(InterfaceCheck(io.first, io.second)))
  }

  /** `tea.Sequence`: the tasks run one after another and each delivers its
      message, whatever the earlier ones reported. */
  function RunSequence(tasks: seq<Task>, ios: seq<TaskIO>): (msgs: seq<Msg>)
    requires |ios| == |tasks|
    ensures |msgs| == |tasks|
    ensures forall i :: 0 <= i < |tasks| ==> msgs[i] == Perform(tasks[i], ios[i])
  {
    seq(|tasks|, i requires 0 <= i < |tasks| => Perform(tasks[i], ios[i]))
  }

  /** The success flags a sequence's adb steps report. */
  function Reported(n: nat, msgs: seq<Msg>): seq<bool>
    requires n <= |msgs| && forall i :: 0 <= i < n ==> msgs[i].CommandResult?
  {
    seq(n, i requires 0 <= i < n => msgs[i].result.success)
  }

  /** Enabling reports on each of its four adb steps in order, each step's
      success being its own command's, even after an earlier step failed; then
      it announces completion and re-checks the device and the interface. */
  lemma EnableReportsEveryStep(serial: string, ios: seq<TaskIO>)
    requires |ios| == |EnableTasks(serial)|
    ensures var msgs := RunSequence(EnableTasks(serial), ios);
      && |msgs| == 7
      && (forall i :: 0 <= i < 4 ==> msgs[i] == CommandResult(
            RunAdbCommand(serial, EnableSteps[i].description, EnableSteps[i].command, ios[i].first)))
      && (forall i :: 0 <= i < 4 ==> msgs[i].result.success == (serial != "" && ios[i].first.Ok()))
      && msgs[4] == CommandResult(CommandResultMsg(EnableSentLog, true, ""))
      && msgs[5] == AdbStatus(StatusMsg(CheckAdb(serial, ios[5].first, ios[5].second)))
      && msgs[6] == IfaceStatus(IfaceStatusMsg(InterfaceCheck(ios[6].first, ios[6].second)))
  {
    var t := EnableTasks(serial);
    var msgs := RunSequence(t, ios);
    forall i | 0 <= i < 4
      ensures msgs[i] == CommandResult(RunAdbCommand(serial, EnableSteps[i].description, EnableSteps[i].command, ios[i].first))
    {
      assert t[i] == RunAdb(serial, EnableSteps[i]);
    }
    assert t[4] == Announce(EnableSentLog);
    assert t[5] == CheckAdbTask(serial) && t[6] == CheckIfaceTask;
  }

  /** The adb command line of a step run against a non-empty serial. */
  function StepArgv(serial: string, command: string): (argv: seq<string>)
    requires serial != ""
    ensures CommandArgv(serial, command) == Some(argv)
  {
    CommandArgv(serial, command).value
  }

  /** The device settings after the adb steps ran against `serial`, when
      `oks[i]` is whether step `i` succeeded. Every step runs; without a
      serial no command starts and nothing changes. */
  function SequenceSettings(serial: string, steps: seq<Step>, oks: seq<bool>, s: Steps.Settings): Steps.Settings
    requires |oks| == |steps|
  {
    if serial == "" then s
    else Steps.Run(Steps.ContinueOnFailure, StepArgvs(serial, steps), oks, s)
  }

  function ShellCmd(serial: string, line: string): seq<string> { [AdbPath, "-s", serial, "shell", line] }

  /** A shell command becomes `adb -s SERIAL shell "W1 W2 ..."`, and the device's
      shell sees the words again. */
  lemma ShellCommand(serial: string, words: seq<string>)
    requires serial != "" && |words| >= 1
    requires forall i :: 0 <= i < |words| ==> ' ' !in words[i]
    ensures StepArgv(serial, Shell(words)) == ShellCmd(serial, Join(words, ' '))
    ensures Steps.ShellWords(ShellCmd(serial, Join(words, ' '))) == words
  {
    ShellArgv(serial, Join(words, ' '));
    SplitJoin(words, ' ');
    assert ShellCmd(serial, Join(words, ' '))[3..][1..] == [Join(words, ' ')];
  }

  /** "shell LINE" is run as `adb -s SERIAL shell LINE`. */
  lemma ShellArgv(serial: string, line: string)
    requires serial != ""
    ensures StepArgv(serial, ShellPrefix + line) == ShellCmd(serial, line)
  {
    assert (ShellPrefix + line)[..6] == ShellPrefix;
    assert (ShellPrefix + line)[6..] == line;
  }

  lemma PutGlobalWrites(serial: string, key: string, value: string)
    requires serial != "" && ' ' !in key && ' ' !in value
    ensures Steps.WriteOf(StepArgv(serial, Shell(PutGlobal(key, value)))) == Some((Steps.Global(key), value))
  {
    ShellCommand(serial, PutGlobal(key, value));
  }

  lemma SetFunctionsWrites(serial: string, functions: string)
    requires serial != "" && ' ' !in functions
    ensures Steps.WriteOf(StepArgv(serial, Shell(SetFunctions(functions)))) == Some((Steps.UsbFunctions, functions))
  {
    ShellCommand(serial, SetFunctions(functions));
  }

  lemma RootWritesNothing(serial: string)
    requires serial != ""
    ensures Steps.WriteOf(StepArgv(serial, RootCommand)).None?
  {
    assert !HasPrefix(RootCommand, ShellPrefix);
    assert [AdbPath, "-s", serial, RootCommand][3..] == [RootCommand];
  }


  /** The command lines of adb steps run against `serial`. */
  function StepArgvs(serial: string, steps: seq<Step>): (cmds: seq<seq<string>>)
    requires serial != ""
    ensures |cmds| == |steps|
    ensures forall i :: 0 <= i < |steps| ==> CommandArgv(serial, steps[i].command) == Some(cmds[i])
  {
    seq(|steps|, i requires 0 <= i < |steps| => StepArgv(serial, steps[i].command))
  }

  lemma StepArgvsCons(serial: string, st: Step, rest: seq<Step>)
    requires serial != ""
    ensures StepArgvs(serial, [st] + rest) == [StepArgv(serial, st.command)] + StepArgvs(serial, rest)
  {
  }

  /** The settings one adb step writes when it succeeds. */
  function StepWrites(serial: string, st: Step): set<Steps.Setting>
    requires serial != ""
  {
    Steps.Writes(StepArgv(serial, st.command))
  }

  /** What three adb steps write, step by step. */
  lemma TouchedByThreeSteps(serial: string, steps: seq<Step>)
    requires serial != "" && |steps| == 3
    ensures Steps.Touched(StepArgvs(serial, steps))
         == StepWrites(serial, steps[0]) + StepWrites(serial, steps[1]) + StepWrites(serial, steps[2])
  {
    assert steps == [steps[0]] + ([steps[1]] + ([steps[2]] + []));
    TouchedSteps(serial, steps[2], []);
    TouchedSteps(serial, steps[1], [steps[2]] + []);
    TouchedSteps(serial, steps[0], [steps[1]] + ([steps[2]] + []));
  }

  /** What four adb steps write, step by step. */
  lemma TouchedByFourSteps(serial: string, steps: seq<Step>)
    requires serial != "" && |steps| == 4
    ensures Steps.Touched(StepArgvs(serial, steps))
         == StepWrites(serial, steps[0]) + StepWrites(serial, steps[1]) + StepWrites(serial, steps[2]) + StepWrites(serial, steps[3])
  {
    assert steps == [steps[0]] + steps[1..];
    TouchedByThreeSteps(serial, steps[1..]);
    TouchedSteps(serial, steps[0], steps[1..]);
  }

  /** Enabling writes tether_dun_required, the USB functions and tether_offload_disabled. */
  lemma EnableTouches(serial: string)
    requires serial != ""
    ensures Steps.Touched(StepArgvs(serial, EnableSteps)) == {Steps.DunRequired, Steps.UsbFunctions, Steps.OffloadDisabled}
  {
    TouchedByFourSteps(serial, EnableSteps);
    RootWritesNothing(serial);
    WritesGlobal(serial, EnableSteps[1], Steps.DunKey, "0");
    WritesFunctions(serial, EnableSteps[2], Steps.Rndis);
    WritesGlobal(serial, EnableSteps[3], Steps.OffloadKey, "1");
  }

  /** A step that sets the USB functions writes them. */
  lemma WritesFunctions(serial: string, st: Step, functions: string)
    requires serial != "" && st.command == Shell(SetFunctions(functions))
    requires functions == Steps.Rndis || functions == Steps.MtpAdb
    ensures StepWrites(serial, st) == {Steps.UsbFunctions}
  {
    KeysHaveNoSpace();
    SetFunctionsWrites(serial, functions);
  }

  /** A step that puts a global setting writes that setting. */
  lemma WritesGlobal(serial: string, st: Step, key: string, value: string)
    requires serial != "" && st.command == Shell(PutGlobal(key, value))
    requires key == Steps.DunKey || key == Steps.OffloadKey
    requires value == "0" || value == "1"
    ensures StepWrites(serial, st) == {Steps.Global(key)}
  {
    KeysHaveNoSpace();
    PutGlobalWrites(serial, key, value);
  }

  lemma KeysHaveNoSpace()
    ensures ' ' !in Steps.DunKey && ' ' !in Steps.OffloadKey && ' ' !in Steps.Rndis && ' ' !in Steps.MtpAdb
  {
  }

  /** What adb steps write, one step at a time. */
  lemma TouchedSteps(serial: string, st: Step, rest: seq<Step>)
    requires serial != ""
    ensures Steps.Touched(StepArgvs(serial, [st] + rest)) == StepWrites(serial, st) + Steps.Touched(StepArgvs(serial, rest))
  {
    StepArgvsCons(serial, st, rest);
    Steps.TouchedCons(StepArgv(serial, st.command), StepArgvs(serial, rest));
  }

  /** Disabling writes the same three settings. */
  lemma DisableTouches(serial: string)
    requires serial != ""
    ensures Steps.Touched(StepArgvs(serial, DisableSteps)) == {Steps.DunRequired, Steps.UsbFunctions, Steps.OffloadDisabled}
  {
    TouchedByThreeSteps(serial, DisableSteps);
    WritesGlobal(serial, DisableSteps[0], Steps.OffloadKey, "0");
    WritesGlobal(serial, DisableSteps[1], Steps.DunKey, "1");
    WritesFunctions(serial, DisableSteps[2], Steps.MtpAdb);
  }

  /** Round trip: whatever part of the enable steps succeeded, disable steps
      that all succeed leave the phone's settings exactly as disabling alone
      would: every setting enabling writes, disabling writes back. */
  lemma EnableDisableRoundTrip(serial: string, oks: seq<bool>, s: Steps.Settings)
    requires |oks| == |EnableSteps|
    ensures SequenceSettings(serial, DisableSteps, Steps.AllOk(|DisableSteps|), SequenceSettings(serial, EnableSteps, oks, s))
         == SequenceSettings(serial, DisableSteps, Steps.AllOk(|DisableSteps|), s)
  {
    if serial != "" {
      EnableTouches(serial);
      DisableTouches(serial);
      Steps.RoundTrip(Steps.ContinueOnFailure, StepArgvs(serial, EnableSteps), oks,
                      Steps.ContinueOnFailure, StepArgvs(serial, DisableSteps), s);
    }
  }

  // ---------------------------------------------------------------- the model

  /** The model's fields that `Update` reads or writes (styles and the unused
      scroll offset left out). */
  datatype State = State(
    adbStatus: string, deviceInfo: string, linuxIfaceStatus: string,
    adbReady: bool, currentSerial: string, log: seq<string>, cursor: int)

  predicate Invariant(st: State) {
    0 <= st.cursor < |Choices| && |st.log| <= LogCapacity
  }

  function WithLog(st: State, line: string): State {
    st.(log := LogAppend(st.log, line))
  }

  /** `Update(msg)` as a function: the new model and the command returned. */
  function Transition(st: State, msg: Msg): (State, Cmd) {
    match msg
    case Key(k) => KeyTransition(st, k)
    case AdbStatus(m) =>
      var st' := st.(adbStatus := m.status, deviceInfo := m.info, adbReady := m.ready, currentSerial := m.serial);
      (if m.logMsg != "" then WithLog(st', m.logMsg) else st', NoCmd)
    case IfaceStatus(m) =>
      var st' := st.(linuxIfaceStatus := m.status);
      (if m.logMsg != "" then WithLog(st', m.logMsg) else st', NoCmd)
    case CommandResult(m) => (WithLog(st, ResultLogLine(m)), NoCmd)
  }

  /** The key presses: quit, move the cursor within the menu, choose the item
      under the cursor, or refresh. */
  function KeyTransition(st: State, k: KeyName): (State, Cmd) {
    if k == CtrlC || k == KeyQ then (st, Quit)
    else if k == KeyUp || k == KeyK then (if st.cursor > 0 then st.(cursor := st.cursor - 1) else st, NoCmd)
    else if k == KeyDown || k == KeyJ then
      (if st.cursor < |Choices| - 1 then st.(cursor := st.cursor + 1) else st, NoCmd)
    else if k == KeyEnter then
      if st.cursor == 0 then
        if !st.adbReady then (WithLog(st, EnableRejected), NoCmd)
        else (WithLog(st, EnableStarting), Enable(st.currentSerial))
      else if st.cursor == 1 then
        if !st.adbReady then (WithLog(st, DisableRejected), NoCmd)
        else (WithLog(st, DisableStarting), Disable(st.currentSerial))
      else if st.cursor == 2 then (WithLog(st, RefreshingLog), Refresh(st.currentSerial))
      else if st.cursor == 3 then (st, Quit)
      else (st, NoCmd)
    else if k == KeyR then (WithLog(st, RefreshingLog), Refresh(st.currentSerial))
    else (st, NoCmd)
  }

  /** Every message keeps the cursor on the menu and the log within ten lines. */
  lemma TransitionKeepsInvariant(st: State, msg: Msg)
    requires Invariant(st)
    ensures Invariant(Transition(st, msg).0)
  {
    match msg
    case Key(k) => KeyKeepsInvariant(st, k);
    case AdbStatus(m) =>
    case IfaceStatus(m) =>
    case CommandResult(m) =>
  }

  lemma KeyKeepsInvariant(st: State, k: KeyName)
    requires Invariant(st)
    ensures Invariant(KeyTransition(st, k).0)
  {
  }

  /** Enable or Disable on a model that is not ready appends one error line,
      changes nothing else and starts no command. */
  lemma NotReadyRejects(st: State)
    requires !st.adbReady && (st.cursor == 0 || st.cursor == 1)
    ensures var (st', cmd) := Transition(st, Key(KeyEnter));
      && cmd == NoCmd
      && st' == st.(log := LogAppend(st.log, if st.cursor == 0
           then EnableRejected
           else DisableRejected))
  {
  }

  /** A status result sets readiness and the serial from the check: after a
      refresh the model is ready only for a probed, authorized serial, and any
      outcome before the probe clears the remembered serial. */
  lemma RefreshSetsSerial(st: State, listing: Completed, probe: Completed)
    ensures var st' := Transition(st, AdbStatus(StatusMsg(CheckAdb(st.currentSerial, listing, probe)))).0;
      && (st'.adbReady <==> CheckAdb(st.currentSerial, listing, probe).Checked?
                            && CheckAdb(st.currentSerial, listing, probe).resolution.Connected?)
      && (st'.currentSerial != "" ==> |CheckAdbCommands(st.currentSerial, listing)| == 2)
      && |st'.log| == (if |st.log| < LogCapacity then |st.log| + 1 else LogCapacity)
  {
    var c := CheckAdb(st.currentSerial, listing, probe);
    var m := StatusMsg(c);
    CheckAdbReadiness(st.currentSerial, listing, probe);
    StatusMsgFields(c);
    assert Transition(st, AdbStatus(m)).0
        == WithLog(st.(adbStatus := m.status, deviceInfo := m.info, adbReady := m.ready, currentSerial := m.serial), m.logMsg);
  }

  /** `initialModel()`: nothing checked yet, the configured serial remembered. */
  const Initial := State(Unknown, NotAvailable, Unknown, false, DeviceSerial, [], 0)

  /** Start-up: `Init` on the initial model starts the device check for the
      configured serial and the interface check; the device check's message
      then makes the model ready exactly for a probed, authorized serial, and
      it is the first line of the log. */
  lemma StartupCheck(io: TaskIO)
    ensures CmdTasks(Refresh(Initial.currentSerial)) == [CheckAdbTask(DeviceSerial), CheckIfaceTask]
    ensures var c := CheckAdb(DeviceSerial, io.first, io.second);
            var st := Transition(Initial, Perform(CheckAdbTask(DeviceSerial), io)).0;
      && Perform(CheckAdbTask(DeviceSerial), io) == AdbStatus(StatusMsg(c))
      && (st.adbReady <==> c.Checked? && c.resolution.Connected?)
      && (st.currentSerial != "" ==> |CheckAdbCommands(DeviceSerial, io.first)| == 2)
      && st.log == [StatusMsg(c).logMsg]
      && st.cursor == 0
  {
    var c := CheckAdb(DeviceSerial, io.first, io.second);
    var m := StatusMsg(c);
    RefreshSetsSerial(Initial, io.first, io.second);
    StatusMsgFields(c);
    assert Perform(CheckAdbTask(DeviceSerial), io) == AdbStatus(m);
    assert Transition(Initial, AdbStatus(m)).0
        == WithLog(Initial.(adbStatus := m.status, deviceInfo := m.info, adbReady := m.ready, currentSerial := m.serial), m.logMsg);
    assert LogAppend([], m.logMsg) == [m.logMsg];
  }

  /** The message each task delivers: an adb step reports its own command's
      success under its own description, the completion notice always reports
      success, the device check reports ready exactly when it ends Connected,
      and the interface check reports the interface status. */
  lemma PerformDelivers(t: Task, io: TaskIO)
    ensures t.RunAdb? ==>
      && Perform(t, io).CommandResult?
      && Perform(t, io).result.description == t.step.description
      && (Perform(t, io).result.success <==> t.serial != "" && io.first.Ok())
    ensures t.Announce? ==> Perform(t, io) == CommandResult(CommandResultMsg(t.description, true, ""))
    ensures t.CheckAdbTask? ==>
      && Perform(t, io).AdbStatus?
      && (Perform(t, io).adb.ready <==>
            CheckAdb(t.serial, io.first, io.second).Checked? && CheckAdb(t.serial, io.first, io.second).resolution.Connected?)
    ensures t.CheckIfaceTask? ==> Perform(t, io) == IfaceStatus(IfaceStatusMsg(InterfaceCheck(io.first, io.second)))
  {
    if t.CheckAdbTask? {
      StatusMsgFields(CheckAdb(t.serial, io.first, io.second));
    }
  }

  /** What each key press starts: quitting on ctrl+c, q or Enter on "Exit";
      enabling or disabling only on Enter over those items while ready; a
      refresh on r or Enter over "Refresh Status". Every started check or
      sequence targets the remembered serial, and the cursor moves one item at
      a time within the menu. */
  lemma KeyCommands(st: State, k: KeyName)
    ensures var (st', cmd) := KeyTransition(st, k);
      && (cmd == Quit <==> k == CtrlC || k == KeyQ || (k == KeyEnter && st.cursor == 3))
      && (cmd.Enable? <==> k == KeyEnter && st.cursor == 0 && st.adbReady)
      && (cmd.Disable? <==> k == KeyEnter && st.cursor == 1 && st.adbReady)
      && (cmd.Refresh? <==> k == KeyR || (k == KeyEnter && st.cursor == 2))
      && (cmd.Enable? || cmd.Disable? || cmd.Refresh? ==>
            cmd.serial == st.currentSerial && st' == WithLog(st, if cmd.Enable? then EnableStarting
                                                                else if cmd.Disable? then DisableStarting
                                                                else RefreshingLog))
      && ((k == KeyUp || k == KeyK) ==> st' == st.(cursor := if st.cursor > 0 then st.cursor - 1 else st.cursor))
      && ((k == KeyDown || k == KeyJ) ==>
            st' == st.(cursor := if st.cursor < |Choices| - 1 then st.cursor + 1 else st.cursor))
      && (k == OtherKey ==> (st', cmd) == (st, NoCmd))
  {
  }

  class Model {
    var adbStatus: string
    var deviceInfo: string
    var linuxIfaceStatus: string
    var adbReady: bool
    var currentSerial: string
    var log: seq<string>
    var cursor: int

    function Snapshot(): State
      reads this
    {
      State(adbStatus, deviceInfo, linuxIfaceStatus, adbReady, currentSerial, log, cursor)
    }

    ghost predicate Valid()
      reads this
    {
      Invariant(Snapshot())
    }

    /** `initialModel()`. */
    constructor ()
      ensures Valid()
      ensures Snapshot() == Initial
    {
      adbStatus, deviceInfo, linuxIfaceStatus := Unknown, NotAvailable, Unknown;
      adbReady := false;
      currentSerial := DeviceSerial;
      log := [];
      cursor := 0;
    }

    /** `Init`: check the device and the interface. */
    method Init() returns (cmd: Cmd)
      ensures cmd == Refresh(currentSerial)
    {
      cmd := Refresh(currentSerial);
    }

    /** `addLog`. */
    method AddLog(line: string)
      modifies this`log
      ensures log == LogAppend(old(log), line)
    {
      log := log + [line];
      if |log| > LogCapacity {
        log := log[|log| - LogCapacity..];
      }
    }

    /** `Update`. */
    method Update(msg: Msg) returns (cmd: Cmd)
      requires Valid()
      modifies this
      ensures Valid()
      ensures (Snapshot(), cmd) == Transition(old(Snapshot()), msg)
    {
      TransitionKeepsInvariant(Snapshot(), msg);
      match msg {
        case Key(k) =>
          cmd := HandleKey(k);
        case AdbStatus(m) =>
          HandleAdbStatus(m);
          cmd := NoCmd;
        case IfaceStatus(m) =>
          HandleIfaceStatus(m);
          cmd := NoCmd;
        case CommandResult(m) =>
          AddLog(ResultLogLine(m));
          cmd := NoCmd;
      }
    }

    /** The `adbStatusMsg` case of `Update`. */
    method HandleAdbStatus(m: AdbStatusMsg)
      modifies this
      ensures Snapshot() == Transition(old(Snapshot()), AdbStatus(m)).0
    {
      adbStatus := m.status;
      deviceInfo := m.info;
      adbReady := m.ready;
      currentSerial := m.serial;
      if m.logMsg != "" { AddLog(m.logMsg); }
    }

    /** The `linuxIfaceStatusMsg` case of `Update`. */
    method HandleIfaceStatus(m: IfaceMsg)
      modifies this
      ensures Snapshot() == Transition(old(Snapshot()), IfaceStatus(m)).0
    {
      linuxIfaceStatus := m.status;
      if m.logMsg != "" { AddLog(m.logMsg); }
    }

    /** The `tea.KeyMsg` case of `Update`. */
    method HandleKey(k: KeyName) returns (cmd: Cmd)
      modifies this
      ensures (Snapshot(), cmd) == KeyTransition(old(Snapshot()), k)
    {
      cmd := NoCmd;
      if k == CtrlC || k == KeyQ {
        return Quit;
      } else if k == KeyUp || k == KeyK {
        if cursor > 0 { cursor := cursor - 1; }
      } else if k == KeyDown || k == KeyJ {
        if cursor < |Choices| - 1 { cursor := cursor + 1; }
      } else if k == KeyEnter {
        if cursor == 0 {
          if !adbReady {
            AddLog(EnableRejected);
            return NoCmd;
          }
          AddLog(EnableStarting);
          return Enable(currentSerial);
        } else if cursor == 1 {
          if !adbReady {
            AddLog(DisableRejected);
            return NoCmd;
          }
          AddLog(DisableStarting);
          return Disable(currentSerial);
        } else if cursor == 2 {
          AddLog(RefreshingLog);
          return Refresh(currentSerial);
        } else if cursor == 3 {
          return Quit;
        }
      } else if k == KeyR {
        AddLog(RefreshingLog);
        return Refresh(currentSerial);
      }
    }
  }
}
