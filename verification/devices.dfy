/** The device resolver both `adb`-driving controllers share (golxpanic/main.go
    and lxpanic.py): which lines of `adb devices` name a device, and how the
    serial to use is chosen among them. */
module Devices {
  import opened Text

  const Header := "List of devices attached"
  /** The word that marks a device line. */
  const DeviceWord := "device"

  /** A line that contains "device" and is not the listing's header. */
  predicate IsDeviceLine(line: string) {
    Contains(line, DeviceWord) && !Contains(line, Header)
  }

  /** The serials of a listing: the first tab-separated field of every device
      line, in input order. */
  function Serials(lines: seq<string>): seq<string> {
    if lines == [] then []
    else (if IsDeviceLine(lines[0]) then [FirstField(lines[0], '\t')] else []) + Serials(lines[1..])
  }

  /** Serials are taken line by line: the serials of two consecutive blocks of
      lines are those of the first block followed by those of the second. */
  lemma {:induction false} SerialsAppend(a: seq<string>, b: seq<string>)
    ensures Serials(a + b) == Serials(a) + Serials(b)
    decreases |a|
  {
    if a == [] {
      assert a + b == b;
    } else {
      var head := if IsDeviceLine(a[0]) then [FirstField(a[0], '\t')] else [];
      assert (a + b)[0] == a[0];
      assert (a + b)[1..] == a[1..] + b;
      assert Serials(a + b) == head + Serials(a[1..] + b);
      SerialsAppend(a[1..], b);
      assert Serials(a) == head + Serials(a[1..]);
    }
  }

  /** A listing of a non-device line followed by a device line names the
      serial of the device line. */
  lemma SerialsOfTwo(h: string, la: string)
    requires !IsDeviceLine(h) && IsDeviceLine(la)
    ensures Serials([h, la]) == [FirstField(la, '\t')]
  {
    assert [h, la][1..] == [la];
    assert [la][1..] == [];
    assert Serials([la]) == [FirstField(la, '\t')] + Serials([]);
    assert Serials([h, la]) == Serials([la]);
  }

  /** A listing of a non-device line followed by two device lines names the
      serials of the two device lines, in order. */
  lemma SerialsOfThree(h: string, la: string, lb: string)
    requires !IsDeviceLine(h) && IsDeviceLine(la) && IsDeviceLine(lb)
    ensures Serials([h, la, lb]) == [FirstField(la, '\t'), FirstField(lb, '\t')]
  {
    assert [h, la, lb][1..] == [la, lb];
    assert [la, lb][1..] == [lb];
    assert [lb][1..] == [];
    assert Serials([lb]) == [FirstField(lb, '\t')] + Serials([]);
    assert Serials([la, lb]) == [FirstField(la, '\t')] + Serials([lb]);
    assert Serials([h, la, lb]) == Serials([la, lb]);
  }

  /** A serial is listed exactly when some device line starts with it. */
  lemma {:induction false} SerialsMembership(lines: seq<string>, s: string)
    ensures s in Serials(lines) <==>
      exists i :: 0 <= i < |lines| && IsDeviceLine(lines[i]) && FirstField(lines[i], '\t') == s
    ensures |Serials(lines)| <= |lines|
  {
    if lines != [] {
      SerialsMembership(lines[1..], s);
      if s in Serials(lines[1..]) {
        var i :| 0 <= i < |lines[1..]| && IsDeviceLine(lines[1..][i]) && FirstField(lines[1..][i], '\t') == s;
        assert lines[i + 1] == lines[1..][i];
      }
      if exists i :: 0 <= i < |lines| && IsDeviceLine(lines[i]) && FirstField(lines[i], '\t') == s {
        var i :| 0 <= i < |lines| && IsDeviceLine(lines[i]) && FirstField(lines[i], '\t') == s;
        if i > 0 {
          assert lines[1..][i - 1] == lines[i];
        }
      }
    }
  }

  /** How the controller left the device check. */
  datatype Resolution =
    | Disconnected
    | MultipleDevices(found: seq<string>)
    | NotFound(serial: string)
    | AuthFailed(serial: string)
    | Connected(serial: string)

  /** Either the check is over, or the serial to probe for authorization. */
  datatype Target = Settled(resolution: Resolution) | Probe(serial: string)

  /** The branching on the parsed serials and the serial already selected
      ("" when none): no device, several devices and nothing selected, the
      only device auto-selected, or a selected serial that must be listed. */
  function Resolve(devices: seq<string>, selected: string): (t: Target)
    ensures t == Settled(Disconnected) <==> |devices| == 0
    ensures t == Settled(MultipleDevices(devices)) <==> |devices| > 1 && selected == ""
    ensures t == Settled(NotFound(selected)) <==> |devices| > 0 && selected != "" && selected !in devices
    ensures t.Probe? <==> |devices| > 0 && (if selected == "" then |devices| == 1 else selected in devices)
    ensures t.Probe? ==> t.serial in devices && t.serial == (if selected == "" then devices[0] else selected)
    ensures t.Settled? ==> !t.resolution.AuthFailed? && !t.resolution.Connected?
  {
    if |devices| == 0 then Settled(Disconnected)
    else if |devices| > 1 && selected == "" then Settled(MultipleDevices(devices))
    else if selected == "" then Probe(devices[0])
    else if selected !in devices then Settled(NotFound(selected))
    else Probe(selected)
  }
}
