/** Ordered command steps, the two failure policies the controllers use, and
    what the steps do to the phone's settings, so that an enable/disable round
    trip can be stated. A step whose command fails is taken to change nothing. */
module Steps {
  import opened Text
  import opened Wrappers

  /** `ContinueOnFailure`: every step runs (golxpanic's `tea.Sequence`).
      `StopOnFailure`: a step runs only if the one before it succeeded
      (lxpanic.py's `if success:` chain, go/main.go's early returns). */
  datatype Policy = ContinueOnFailure | StopOnFailure

  /** The number of leading steps that run, when `oks[i]` is what step `i`
      reports if it runs. Under `StopOnFailure` the run ends with the first
      failing step; the steps after it never run. */
  function Ran(policy: Policy, oks: seq<bool>): (n: nat)
    ensures n <= |oks|
    ensures policy == ContinueOnFailure ==> n == |oks|
    ensures policy == StopOnFailure ==> forall i :: 0 <= i < n - 1 ==> oks[i]
    ensures policy == StopOnFailure && n < |oks| ==> n > 0 && !oks[n - 1]
    ensures policy == StopOnFailure && n == 0 ==> |oks| == 0
  {
    if oks == [] then 0
    else if policy == StopOnFailure && !oks[0] then 1
    else 1 + Ran(policy, oks[1..])
  }

  /** The number of steps that run, after the first. */
  lemma RanFirst(policy: Policy, oks: seq<bool>)
    requires oks != []
    ensures Ran(policy, oks) == if policy == StopOnFailure && !oks[0] then 1 else 1 + Ran(policy, oks[1..])
  {
  }

  /** A value the device keeps: a global setting, or the USB function list. */
  datatype Setting = Global(key: string) | UsbFunctions

  type Settings = map<Setting, string>

  /** The two global settings every controller changes, and the USB function
      lists it switches between. */
  const DunKey := "tether_dun_required"
  const OffloadKey := "tether_offload_disabled"
  const DunRequired := Global(DunKey)
  const OffloadDisabled := Global(OffloadKey)
  const Rndis := "rndis"
  const MtpAdb := "mtp,adb"

  /** The words the device's shell sees for an `adb` command line
      `[adb, (-s, serial,) shell, args...]`: adb joins the arguments with single
      spaces and the shell splits them again. Non-shell commands give none. */
  function ShellWords(argv: seq<string>): seq<string> {
    var args := if |argv| >= 3 && argv[1] == "-s" then argv[3..] else if |argv| >= 1 then argv[1..] else [];
    if |args| >= 1 && args[0] == "shell" then Split(Join(args[1..], ' '), ' ') else []
  }

  /** The setting a command line writes, if any:
      `settings put global KEY VALUE` or `svc usb setFunctions VALUE`. */
  function WriteOf(argv: seq<string>): Option<(Setting, string)> {
    var w := ShellWords(argv);
    if |w| == 5 && w[0] == "settings" && w[1] == "put" && w[2] == "global" then Some((Global(w[3]), w[4]))
    else if |w| == 4 && w[0] == "svc" && w[1] == "usb" && w[2] == "setFunctions" then Some((UsbFunctions, w[3]))
    else None
  }

  /** The setting (at most one) a command line writes. */
  function Writes(argv: seq<string>): set<Setting> {
    match WriteOf(argv) case Some(w) => {w.0} case None => {}
  }

  /** The settings a list of command lines may write. */
  function Touched(cmds: seq<seq<string>>): set<Setting> {
    if cmds == [] then {} else Writes(cmds[0]) + Touched(cmds[1..])
  }

  /** The settings a list of command lines writes, one command at a time. */
  lemma TouchedCons(c: seq<string>, rest: seq<seq<string>>)
    ensures Touched([c] + rest) == Writes(c) + Touched(rest)
  {
    assert ([c] + rest)[1..] == rest;
  }

  /** The settings three command lines may write, one command at a time. */
  lemma TouchedOfThree(cmds: seq<seq<string>>)
    requires |cmds| == 3
    ensures Touched(cmds) == Writes(cmds[0]) + Writes(cmds[1]) + Writes(cmds[2])
  {
    assert cmds == [cmds[0]] + ([cmds[1]] + ([cmds[2]] + []));
    TouchedCons(cmds[2], []);
    TouchedCons(cmds[1], [cmds[2]] + []);
    TouchedCons(cmds[0], [cmds[1]] + ([cmds[2]] + []));
  }

  /** The settings after running `cmds` in order, where `oks[i]` tells whether
      command `i` succeeded (a failed command writes nothing). */
  function Apply(cmds: seq<seq<string>>, oks: seq<bool>, s: Settings): Settings
    requires |oks| == |cmds|
  {
    if cmds == [] then s
    else
      var s' := match WriteOf(cmds[0]) case Some(w) => if oks[0] then s[w.0 := w.1] else s case None => s;
      Apply(cmds[1..], oks[1..], s')
  }

  /** The settings after a chain run under `policy`. */
  function Run(policy: Policy, cmds: seq<seq<string>>, oks: seq<bool>, s: Settings): Settings
    requires |oks| == |cmds|
  {
    var n := Ran(policy, oks);
    Apply(cmds[..n], oks[..n], s)
  }

  function AllOk(n: nat): (oks: seq<bool>)
    ensures |oks| == n && forall i :: 0 <= i < n ==> oks[i]
  {
    if n == 0 then [] else [true] + AllOk(n - 1)
  }

  /** `a` and `b` hold the same value (or none) for every setting outside `keys`. */
  ghost predicate AgreeOutside(a: Settings, b: Settings, keys: set<Setting>) {
    forall k :: k !in keys ==> (k in a <==> k in b) && (k in a ==> a[k] == b[k])
  }

  /** Commands leave alone every setting they do not write. */
  lemma {:induction false} ApplyFrame(cmds: seq<seq<string>>, oks: seq<bool>, s: Settings)
    requires |oks| == |cmds|
    ensures AgreeOutside(Apply(cmds, oks, s), s, Touched(cmds))
  {
    if cmds != [] {
      var s' := match WriteOf(cmds[0]) case Some(w) => if oks[0] then s[w.0 := w.1] else s case None => s;
      ApplyFrame(cmds[1..], oks[1..], s');
    }
  }

  /** When all commands succeed, the result depends on the starting settings
      only outside the settings the commands write. */
  lemma {:induction false} ApplyOverwrites(cmds: seq<seq<string>>, a: Settings, b: Settings)
    requires AgreeOutside(a, b, Touched(cmds))
    ensures Apply(cmds, AllOk(|cmds|), a) == Apply(cmds, AllOk(|cmds|), b)
  {
    if cmds == [] {
      assert a.Keys == b.Keys;
    } else {
      var oks := AllOk(|cmds|);
      assert oks[1..] == AllOk(|cmds| - 1);
      match WriteOf(cmds[0])
      case Some(w) =>
        ApplyOverwrites(cmds[1..], a[w.0 := w.1], b[w.0 := w.1]);
      case None =>
        ApplyOverwrites(cmds[1..], a, b);
    }
  }

  lemma {:induction false} TouchedPrefix(cmds: seq<seq<string>>, n: nat)
    requires n <= |cmds|
    ensures Touched(cmds[..n]) <= Touched(cmds)
  {
    if n > 0 {
      assert cmds[..n][1..] == cmds[1..][..n - 1];
      TouchedPrefix(cmds[1..], n - 1);
    }
  }

  /** Round trip: when disabling writes every setting enabling may write and
      all disable steps succeed, enabling (whatever part of it ran) and then
      disabling leaves the phone exactly as disabling alone would. */
  lemma RoundTrip(pe: Policy, enable: seq<seq<string>>, oks: seq<bool>,
                  pd: Policy, disable: seq<seq<string>>, s: Settings)
    requires |oks| == |enable|
    requires Touched(enable) <= Touched(disable)
    ensures Run(pd, disable, AllOk(|disable|), Run(pe, enable, oks, s)) == Run(pd, disable, AllOk(|disable|), s)
  {
    var n := Ran(pe, oks);
    var m := Ran(pd, AllOk(|disable|));
    assert m == |disable|;
    assert disable[..m] == disable;
    assert AllOk(|disable|)[..m] == AllOk(|disable|);
    ApplyFrame(enable[..n], oks[..n], s);
    TouchedPrefix(enable, n);
    ApplyOverwrites(disable, Run(pe, enable, oks, s), s);
  }
}
