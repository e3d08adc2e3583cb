/** The two regular expressions of the interface detector, written out as
    predicates on the text they are searched in (the Go and the Python
    controllers use the same two patterns and take the leftmost match).
    `\d` and `\s` are RE2's ASCII classes; Python's `re` on `str` also lets
    `\d` match non-ASCII digits and `\s` match \v and \x1c-\x1f, which the
    model does not.

      link:    \d+: (usb\d+|rndis\d+|enp\S+u\d+): <.*BROADCAST,MULTICAST,UP.*>
      address: inet (\d{1,3}\.\d{1,3}\.\d{1,3}\.\d{1,3})

    `.` and `\S` never match a newline, so a match lies within one line. */
module Patterns {
  import opened Text
  import opened Wrappers

  /** RE2's `\s`: [\t\n\f\r ]. */
  predicate IsRegexSpace(c: char) {
    c == ' ' || c == '\t' || c == '\n' || c == '\r' || c == '\U{C}'
  }

  predicate AllDigits(s: string) {
    forall i :: 0 <= i < |s| ==> IsDigit(s[i])
  }

  predicate NoRegexSpace(s: string) {
    forall i :: 0 <= i < |s| ==> !IsRegexSpace(s[i])
  }

  /** The longest prefix of `s` without `\s` characters. */
  function Token(s: string): (t: string)
    ensures HasPrefix(s, t) && NoRegexSpace(t)
    ensures |t| == |s| || IsRegexSpace(s[|t|])
  {
    if s == [] || IsRegexSpace(s[0]) then [] else [s[0]] + Token(s[1..])
  }

  /** The text up to (not including) the first newline. */
  function Line(s: string): (l: string)
    ensures HasPrefix(s, l) && '\n' !in l
    ensures |l| == |s| || s[|l|] == '\n'
  {
    if s == [] || s[0] == '\n' then [] else [s[0]] + Line(s[1..])
  }

  const UsbPrefix := "usb"
  const RndisPrefix := "rndis"
  const EnpPrefix := "enp"
  const Inet := "inet "

  /** The capture group `usb\d+|rndis\d+|enp\S+u\d+`, matched as a whole name. */
  predicate IsTetherName(name: string) {
    || (HasPrefix(name, UsbPrefix) && |name| > |UsbPrefix| && AllDigits(name[|UsbPrefix|..]))
    || (HasPrefix(name, RndisPrefix) && |name| > |RndisPrefix| && AllDigits(name[|RndisPrefix|..]))
    || (HasPrefix(name, EnpPrefix) && NoRegexSpace(name)
        && exists k | 4 <= k < |name| - 1 :: name[k] == 'u' && AllDigits(name[k + 1..]))
  }

  const UpFlags := "BROADCAST,MULTICAST,UP"

  /** `.*BROADCAST,MULTICAST,UP.*>` matches at the start of `line`. */
  predicate FlagsUp(line: string) {
    exists i | 0 <= i <= |line| :: OccursAt(line, UpFlags, i) && '>' in line[i + |UpFlags|..]
  }

  /** The link pattern matches with its capture group starting at index `n`:
      a digit and ": " before it, the name, ": <", then the flags on the same line.
      The name cannot hold white space and is followed by ':' and a space, so
      it is the white-space-free token at `n` without its final ':'. */
  predicate LinkMatchAt(s: string, n: nat) {
    && 3 <= n <= |s|
    && IsDigit(s[n - 3]) && s[n - 2] == ':' && s[n - 1] == ' '
    && NameAndFlags(s, n, Token(s[n..]))
  }

  /** The token `t` at `n` is a tethering name and ':', followed by " <" and the flags. */
  predicate NameAndFlags(s: string, n: nat, t: string) {
    && |t| >= 2 && t[|t| - 1] == ':' && IsTetherName(t[..|t| - 1])
    && n + |t| + 2 <= |s| && s[n + |t|] == ' ' && s[n + |t| + 1] == '<'
    && FlagsUp(Line(s[n + |t| + 2..]))
  }

  /** The interface name captured by a match at `n`. */
  function LinkNameAt(s: string, n: nat): (name: string)
    requires LinkMatchAt(s, n)
    ensures IsTetherName(name) && HasPrefix(s[n..], name + ":")
  {
    var t := Token(s[n..]);
    assert t == t[..|t| - 1] + ":";
    t[..|t| - 1]
  }

  /** The leftmost position in `from..last` where `p` holds: where a regex
      search that tries each start position in turn first succeeds. */
  function Leftmost(p: nat -> bool, from: nat, last: nat): (r: Option<nat>)
    ensures r.Some? ==> from <= r.value <= last && p(r.value)
    ensures r.Some? ==> forall m :: from <= m < r.value ==> !p(m)
    ensures r.None? ==> forall m :: from <= m <= last ==> !p(m)
    decreases last + 1 - from
  {
    if from > last then None
    else if p(from) then Some(from)
    else Leftmost(p, from + 1, last)
  }

  /** The link pattern's start positions in `s`. */
  function LinkStarts(s: string): nat -> bool {
    (n: nat) => LinkMatchAt(s, n)
  }

  /** `re.FindStringSubmatch(output)[1]` / `match.group(1)` for the link pattern.
      Matches starting at different digit runs are ordered like their names,
      so the leftmost match of the regex is the one whose name starts first. */
  function TetherInterface(s: string): (r: Option<string>)
    ensures r.None? <==> forall m: nat :: m <= |s| ==> !LinkMatchAt(s, m)
    ensures r.Some? ==>
      exists n :: LinkMatchAt(s, n) && r.value == LinkNameAt(s, n) && (forall m :: m < n ==> !LinkMatchAt(s, m))
  {
    match Leftmost(LinkStarts(s), 0, |s|)
    case None =>
      NoLinkMatch(s);
      None
    case Some(n) =>
      FirstLinkMatch(s, n);
      Some(LinkNameAt(s, n))
  }

  lemma NoLinkMatch(s: string)
    requires Leftmost(LinkStarts(s), 0, |s|).None?
    ensures forall m: nat :: m <= |s| ==> !LinkMatchAt(s, m)
  {
    forall m: nat | m <= |s| ensures !LinkMatchAt(s, m) {
      LinkStartsAt(s, m);
    }
  }

  lemma FirstLinkMatch(s: string, n: nat)
    requires Leftmost(LinkStarts(s), 0, |s|) == Some(n)
    ensures LinkMatchAt(s, n) && forall m: nat :: m < n ==> !LinkMatchAt(s, m)
  {
    LinkStartsAt(s, n);
    forall m: nat | m < n ensures !LinkMatchAt(s, m) {
      LinkStartsAt(s, m);
    }
  }

  /** A position is a start position exactly when the link pattern matches there. */
  lemma LinkStartsAt(s: string, m: nat)
    ensures LinkStarts(s)(m) == LinkMatchAt(s, m)
  {
  }

  /** Length of the run of digits at the start of `s`. */
  function DigitRun(s: string): (k: nat)
    ensures k <= |s| && AllDigits(s[..k])
    ensures k == |s| || !IsDigit(s[k])
  {
    if s == [] || !IsDigit(s[0]) then 0 else 1 + DigitRun(s[1..])
  }

  /** `\d{1,3}\.` repeated `dots` times and then `\d{1,3}`, matched at the start of `s`;
      the result is the matched text. `\d{1,3}` is greedy and must be followed by
      a '.', so each of the first octets is a whole run of one to three digits. */
  function Quad(s: string, dots: nat): (r: Option<string>)
    ensures r.Some? ==> HasPrefix(s, r.value) && 1 <= |r.value|
    decreases dots
  {
    var k := DigitRun(s);
    if k == 0 then None
    else if dots == 0 then Some(s[..if k < 3 then k else 3])
    else if k <= 3 && k < |s| && s[k] == '.' then
      match Quad(s[k + 1..], dots - 1)
      case None => None
      case Some(rest) => Some(s[..k + 1] + rest)
    else None
  }

  /** What `Quad` matches is `dots + 1` digit runs of one to three digits, joined by '.'. */
  lemma {:induction false} QuadOctets(s: string, dots: nat)
    requires Quad(s, dots).Some?
    ensures Octets(Quad(s, dots).value, dots)
    decreases dots
  {
    var k := DigitRun(s);
    var q := Quad(s, dots).value;
    if dots == 0 {
      assert q == s[..if k < 3 then k else 3];
      DigitRunAll(q);
    } else {
      var rest := Quad(s[k + 1..], dots - 1).value;
      QuadOctets(s[k + 1..], dots - 1);
      assert q == s[..k + 1] + rest;
      assert q[..k] == s[..k] && q[k] == '.' && q[k + 1..] == rest;
      DigitRunStops(q, k);
    }
  }

  /** `dots + 1` runs of one to three digits, joined by '.'. */
  predicate Octets(q: string, dots: nat)
    decreases dots
  {
    var k := DigitRun(q);
    && 1 <= k <= 3
    && if dots == 0 then k == |q| else k < |q| && q[k] == '.' && Octets(q[k + 1..], dots - 1)
  }

  /** A text of digits is one digit run. */
  lemma {:induction false} DigitRunAll(q: string)
    requires AllDigits(q)
    ensures DigitRun(q) == |q|
  {
    if q != [] {
      DigitRunAll(q[1..]);
    }
  }

  /** A digit run ends at the first non-digit. */
  lemma {:induction false} DigitRunStops(q: string, k: nat)
    requires k < |q| && AllDigits(q[..k]) && !IsDigit(q[k])
    ensures DigitRun(q) == k
  {
    if k > 0 {
      assert q[1..][..k - 1] == q[1..k];
      DigitRunStops(q[1..], k - 1);
    }
  }

  /** The address pattern matches at index `p`, capturing the returned text. */
  function InetAt(s: string, p: nat): (r: Option<string>)
    ensures r.Some? ==> p + 5 <= |s| && HasPrefix(s[p + 5..], r.value)
  {
    if p + 5 <= |s| && s[p..p + 5] == Inet then Quad(s[p + 5..], 3) else None
  }

  /** The address pattern's start positions in `s`. */
  function InetStarts(s: string): nat -> bool {
    (n: nat) => InetAt(s, n).Some?
  }

  /** The first IPv4 address in `ip -4 addr show` output (capture group 1):
      the capture of the leftmost match, four dot-separated runs of one to
      three digits. */
  function IPv4Address(s: string): (r: Option<string>)
    ensures r.None? <==> forall m :: InetAt(s, m).None?
    ensures r.Some? ==> exists p :: FirstInetAt(s, p) && InetAt(s, p) == r
    ensures r.Some? ==> Octets(r.value, 3)
  {
    match Leftmost(InetStarts(s), 0, |s|)
    case None =>
      NoInet(s);
      None
    case Some(p) =>
      FirstInet(s, p);
      InetOctets(s, p);
      InetAt(s, p)
  }

  /** What the address pattern captures is a dotted quad. */
  lemma InetOctets(s: string, p: nat)
    requires InetAt(s, p).Some?
    ensures Octets(InetAt(s, p).value, 3)
  {
    assert InetAt(s, p) == Quad(s[p + 5..], 3);
    QuadOctets(s[p + 5..], 3);
  }

  /** The address pattern matches at `p` and at no earlier position. */
  predicate FirstInetAt(s: string, p: nat) {
    InetAt(s, p).Some? && forall m: nat :: m < p ==> InetAt(s, m).None?
  }

  lemma FirstInet(s: string, p: nat)
    requires Leftmost(InetStarts(s), 0, |s|) == Some(p)
    ensures FirstInetAt(s, p)
  {
    assert InetStarts(s)(p);
    forall m: nat | m < p ensures InetAt(s, m).None? {
      assert !InetStarts(s)(m);
    }
  }

  lemma NoInet(s: string)
    requires Leftmost(InetStarts(s), 0, |s|).None?
    ensures forall m :: InetAt(s, m).None?
  {
    forall m: nat ensures InetAt(s, m).None? {
      if m <= |s| {
        assert !InetStarts(s)(m);
      }
    }
  }

  /** The token at the start of a text is fixed by where its first `\s` is. */
  lemma {:induction false} TokenIs(x: string, k: nat)
    requires k <= |x| && NoRegexSpace(x[..k]) && (k == |x| || IsRegexSpace(x[k]))
    ensures Token(x) == x[..k]
  {
    if k > 0 {
      assert !IsRegexSpace(x[..k][0]);
      assert x[1..][..k - 1] == x[1..k];
      TokenIs(x[1..], k - 1);
    }
  }

  /** The first line of a text is fixed by where its first newline is. */
  lemma {:induction false} LineIs(x: string, k: nat)
    requires k <= |x| && '\n' !in x[..k] && (k == |x| || x[k] == '\n')
    ensures Line(x) == x[..k]
  {
    if k > 0 {
      assert x[..k][0] == x[0];
      assert x[1..][..k - 1] == x[1..k];
      assert forall c :: c in x[1..k] ==> c in x[..k];
      LineIs(x[1..], k - 1);
    }
  }

  /** `\d{1,3}\.` followed by the rest of a quad. */
  lemma QuadDot(d: string, r: string, dots: nat, q: string)
    requires 1 <= |d| <= 3 && AllDigits(d) && dots > 0
    requires Quad(r, dots - 1) == Some(q)
    ensures Quad(d + "." + r, dots) == Some(d + "." + q)
  {
    var s := d + "." + r;
    assert s[..|d|] == d && s[|d|] == '.' && s[|d| + 1..] == r;
    DigitRunStops(s, |d|);
    assert s[..|d| + 1] == d + ".";
  }

  /** The last `\d{1,3}`, followed by a non-digit. */
  lemma QuadLast(d: string, r: string)
    requires 1 <= |d| <= 3 && AllDigits(d) && r != [] && !IsDigit(r[0])
    ensures Quad(d + r, 0) == Some(d)
  {
    var s := d + r;
    assert s[..|d|] == d && s[|d|] == r[0];
    DigitRunStops(s, |d|);
  }

  /** Three octets, dot-separated, in front of a quad's last octet. */
  lemma QuadTwo(c: string, d: string, t: string)
    requires 1 <= |c| <= 3 && AllDigits(c) && 1 <= |d| <= 3 && AllDigits(d)
    requires t != [] && !IsDigit(t[0])
    ensures Quad(c + "." + (d + t), 1) == Some(c + "." + d)
  {
    QuadLast(d, t);
    QuadDot(c, d + t, 1, d);
  }

  lemma QuadThree(b: string, c: string, d: string, t: string)
    requires 1 <= |b| <= 3 && AllDigits(b)
    requires 1 <= |c| <= 3 && AllDigits(c) && 1 <= |d| <= 3 && AllDigits(d)
    requires t != [] && !IsDigit(t[0])
    ensures Quad(b + "." + (c + "." + (d + t)), 2) == Some(b + "." + (c + "." + d))
  {
    QuadTwo(c, d, t);
    QuadDot(b, c + "." + (d + t), 2, c + "." + d);
  }

  lemma QuadFour(a: string, b: string, c: string, d: string, t: string)
    requires 1 <= |a| <= 3 && AllDigits(a) && 1 <= |b| <= 3 && AllDigits(b)
    requires 1 <= |c| <= 3 && AllDigits(c) && 1 <= |d| <= 3 && AllDigits(d)
    requires t != [] && !IsDigit(t[0])
    ensures Quad(a + "." + (b + "." + (c + "." + (d + t))), 3) == Some(a + "." + (b + "." + (c + "." + d)))
  {
    QuadThree(b, c, d, t);
    QuadDot(a, b + "." + (c + "." + (d + t)), 3, b + "." + (c + "." + d));
  }

  /** An `ip -4 addr show` text that starts "inet A.B.C.D" followed by a
      non-digit (the "/24" of the prefix length) gives the address A.B.C.D. */
  lemma InetLine(a: string, b: string, c: string, d: string, t: string)
    requires 1 <= |a| <= 3 && AllDigits(a) && 1 <= |b| <= 3 && AllDigits(b)
    requires 1 <= |c| <= 3 && AllDigits(c) && 1 <= |d| <= 3 && AllDigits(d)
    requires t != [] && !IsDigit(t[0])
    ensures IPv4Address(Inet + (a + "." + (b + "." + (c + "." + (d + t))))) == Some(a + "." + (b + "." + (c + "." + d)))
  {
    var s := Inet + (a + "." + (b + "." + (c + "." + (d + t))));
    InetLineAt(a, b, c, d, t);
    FirstAtZero(s);
  }

  lemma InetLineAt(a: string, b: string, c: string, d: string, t: string)
    requires 1 <= |a| <= 3 && AllDigits(a) && 1 <= |b| <= 3 && AllDigits(b)
    requires 1 <= |c| <= 3 && AllDigits(c) && 1 <= |d| <= 3 && AllDigits(d)
    requires t != [] && !IsDigit(t[0])
    ensures InetAt(Inet + (a + "." + (b + "." + (c + "." + (d + t)))), 0) == Some(a + "." + (b + "." + (c + "." + d)))
  {
    var q := a + "." + (b + "." + (c + "." + (d + t)));
    var s := Inet + q;
    QuadFour(a, b, c, d, t);
    assert s[..5] == Inet && s[5..] == q;
  }

  /** A match at the very start is the leftmost one. */
  lemma FirstAtZero(s: string)
    requires InetAt(s, 0).Some?
    ensures IPv4Address(s) == InetAt(s, 0)
  {
    assert IPv4Address(s).Some?;
    var p :| FirstInetAt(s, p) && InetAt(s, p) == IPv4Address(s);
    assert forall m: nat :: m < p ==> InetAt(s, m).None?;
    assert 0 < p ==> InetAt(s, 0).None?;
  }

  /** An `ip link show` line "N: NAME: <FLAGS" for a tethering name whose
      flags include BROADCAST,MULTICAST,UP gives NAME. */
  lemma LinkLine(num: string, name: string, flags: string)
    requires num != [] && AllDigits(num)
    requires IsTetherName(name) && NoRegexSpace(name)
    requires FlagsUp(Line(flags))
    ensures TetherInterface(num + (": " + (name + (": <" + flags)))) == Some(name)
  {
    var s := num + (": " + (name + (": <" + flags)));
    var n := |num| + 2;
    LinkLineAt(num, name, flags);
    NoEarlierLink(num, name + (": <" + flags));
    FirstLinkIs(s, n);
  }

  /** No match of the link pattern starts within the prefix "N: ". */
  lemma NoEarlierLink(num: string, x: string)
    requires num != [] && AllDigits(num)
    ensures forall m: nat :: m < |num| + 2 ==> !LinkMatchAt(num + (": " + x), m)
  {
    var s := num + (": " + x);
    forall m: nat | m < |num| + 2
      ensures !LinkMatchAt(s, m)
    {
      if 3 <= m {
        if m - 1 < |num| {
          assert s[m - 1] == num[m - 1];
        } else {
          assert s[m - 1] == ':';
        }
      }
    }
  }

  /** A match with none before it is the one `TetherInterface` reports. */
  lemma FirstLinkIs(s: string, n: nat)
    requires LinkMatchAt(s, n) && forall m: nat :: m < n ==> !LinkMatchAt(s, m)
    ensures TetherInterface(s) == Some(LinkNameAt(s, n))
  {
    var r := TetherInterface(s);
    assert r.Some?;
    var k :| LinkMatchAt(s, k) && r.value == LinkNameAt(s, k) && (forall m :: m < k ==> !LinkMatchAt(s, m));
    assert k == n;
  }

  lemma LinkLineAt(num: string, name: string, flags: string)
    requires num != [] && AllDigits(num)
    requires IsTetherName(name) && NoRegexSpace(name)
    requires FlagsUp(Line(flags))
    ensures LinkMatchAt(num + (": " + (name + (": <" + flags))), |num| + 2)
    ensures LinkNameAt(num + (": " + (name + (": <" + flags))), |num| + 2) == name
  {
    var s := num + (": " + (name + (": <" + flags)));
    var n := |num| + 2;
    LinkLineParts(num, name + (": <" + flags));
    NameAndFlagsAt(s, n, name, flags);
    assert (name + ":")[..|name|] == name;
  }

  /** A tethering name, ": <" and flags that are up, at index `n`. */
  lemma NameAndFlagsAt(s: string, n: nat, name: string, flags: string)
    requires n <= |s| && s[n..] == name + (": <" + flags)
    requires IsTetherName(name) && NoRegexSpace(name) && FlagsUp(Line(flags))
    ensures Token(s[n..]) == name + ":" && NameAndFlags(s, n, name + ":")
  {
    var x := name + (": <" + flags);
    var t := name + ":";
    LinkToken(name, flags);
    assert t[..|t| - 1] == name;
    assert s[n + |t|] == x[|t|] && s[n + |t| + 1] == x[|t| + 1];
    assert s[n + |t| + 2..] == x[|t| + 2..];
  }

  /** The prefix "N: " in front of the text at index |N| + 2. */
  lemma LinkLineParts(num: string, x: string)
    requires num != [] && AllDigits(num)
    ensures var s := num + (": " + x);
      s[|num| + 2..] == x && IsDigit(s[|num| - 1]) && s[|num|] == ':' && s[|num| + 1] == ' '
  {
    var s := num + (": " + x);
    assert s[|num| - 1] == num[|num| - 1];
  }

  /** After the name come ':', ' ' and '<', then the flags. */
  lemma LinkToken(name: string, flags: string)
    requires NoRegexSpace(name)
    ensures var x := name + (": <" + flags);
      && Token(x) == name + ":"
      && x[|name| + 1] == ' ' && x[|name| + 2] == '<' && x[|name| + 3..] == flags
  {
    var x := name + (": <" + flags);
    assert x[..|name| + 1] == name + ":";
    TokenIs(x, |name| + 1);
  }

  /** Flags "BROADCAST,MULTICAST,UP" followed, on the same line, by more text holding '>'. */
  lemma UpFlagsLine(rest: string)
    requires '>' in rest && '\n' !in rest
    ensures FlagsUp(Line(UpFlags + rest))
  {
    var x := UpFlags + rest;
    assert '\n' !in UpFlags;
    NoNewline(UpFlags, rest);
    LineIs(x, |x|);
    assert x[..|x|] == x;
    assert OccursAt(x, UpFlags, 0);
    assert x[|UpFlags|..] == rest;
  }

  lemma NoNewline(a: string, b: string)
    requires '\n' !in a && '\n' !in b
    ensures '\n' !in (a + b)[..|a + b|]
  {
    assert (a + b)[..|a + b|] == a + b;
  }

  /** A line of `ip link show` for an RNDIS interface that is up. */
  const SampleLink := "3" + (": " + ("rndis0" + (": <" + (UpFlags + ",LOWER_UP> mtu 1500"))))
  /** The address line of `ip -4 addr show dev rndis0`, once stripped. */
  const SampleAddr := Inet + ("192" + "." + ("168" + "." + ("42" + "." + ("1" + "/24 scope global rndis0"))))

  /** The link pattern on a real `ip link show` line gives the interface name. */
  lemma SampleLinkOutput(link: string)
    requires link == SampleLink
    ensures TetherInterface(link) == Some("rndis0")
  {
    SampleLinkParts();
    LinkLine("3", "rndis0", UpFlags + ",LOWER_UP> mtu 1500");
  }

  lemma SampleLinkParts()
    ensures AllDigits("3") && IsTetherName("rndis0") && NoRegexSpace("rndis0")
    ensures FlagsUp(Line(UpFlags + ",LOWER_UP> mtu 1500"))
  {
    UpFlagsLine(",LOWER_UP> mtu 1500");
    SampleName();
  }

  lemma SampleName()
    ensures IsTetherName("rndis0") && NoRegexSpace("rndis0")
  {
    assert HasPrefix("rndis0", RndisPrefix) && "rndis0"[|RndisPrefix|..] == "0";
  }

  /** The address pattern on a real `ip -4 addr show` line gives the address. */
  lemma SampleAddrOutput(addr: string)
    requires addr == SampleAddr
    ensures IPv4Address(addr) == Some("192.168.42.1")
  {
    SampleAddrParts();
    InetLine("192", "168", "42", "1", "/24 scope global rndis0");
  }

  lemma SampleAddrParts()
    ensures AllDigits("192") && AllDigits("168") && AllDigits("42") && AllDigits("1")
    ensures !IsDigit("/24 scope global rndis0"[0])
    ensures "192" + "." + ("168" + "." + ("42" + "." + "1")) == "192.168.42.1"
  {
  }
}
