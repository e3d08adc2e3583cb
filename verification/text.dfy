/** String helpers shared by the three controllers: the small part of Go's
    `strings` package and of Python's `str` methods that the core uses.
    A string stands for a byte string (one char per byte), which is what Go's
    `len` and slicing count. */
module Text {

  /** ASCII white space. `strings.TrimSpace` and `str.strip` remove these six
      characters and, beyond ASCII, further Unicode white space (Python's
      `str.strip` also \x1c-\x1f); the model trims the ASCII set only. */
  predicate IsSpace(c: char) {
    c == ' ' || c == '\t' || c == '\n' || c == '\r' || c == '\U{B}' || c == '\U{C}'
  }

  predicate IsDigit(c: char) {
    '0' <= c <= '9'
  }

  predicate HasPrefix(s: string, p: string) {
    |p| <= |s| && s[..|p|] == p
  }

  /** `sub` occurs in `s` starting at index `i`. */
  predicate OccursAt(s: string, sub: string, i: nat) {
    i + |sub| <= |s| && s[i..i + |sub|] == sub
  }

  /** Substring test (`strings.Contains`, Python's `in`). */
  function Contains(s: string, sub: string): (b: bool)
    ensures b <==> exists i: nat :: OccursAt(s, sub, i)
    decreases |s|
  {
    if HasPrefix(s, sub) then
      assert OccursAt(s, sub, 0);
      true
    else if |s| <= |sub| then
      false
    else
      var b := Contains(s[1..], sub);
      assert forall i: nat :: OccursAt(s[1..], sub, i) <==> OccursAt(s, sub, i + 1);
      assert forall i: nat :: OccursAt(s, sub, i) && i > 0 ==> OccursAt(s[1..], sub, i - 1);
      b
  }

  /** Leading white space removed. */
  function TrimLeft(s: string): (r: string)
    ensures |r| <= |s| && r == s[|s| - |r|..]
    ensures forall k :: 0 <= k < |s| - |r| ==> IsSpace(s[k])
    ensures r == [] || !IsSpace(r[0])
  {
    if s != [] && IsSpace(s[0]) then
      var r := TrimLeft(s[1..]);
      assert s[1..][|s| - 1 - |r|..] == s[|s| - |r|..];
      assert forall k :: 1 <= k < |s| - |r| ==> s[k] == s[1..][k - 1];
      r
    else s
  }

  /** Trailing white space removed. */
  function TrimRight(s: string): (r: string)
    ensures |r| <= |s| && r == s[..|r|]
    ensures forall k :: |r| <= k < |s| ==> IsSpace(s[k])
    ensures r == [] || !IsSpace(r[|r| - 1])
  {
    if s != [] && IsSpace(s[|s| - 1]) then TrimRight(s[..|s| - 1]) else s
  }

  /** `strings.TrimSpace` / `str.strip()`: the longest infix that neither
      starts nor ends with white space and is surrounded only by white space. */
  function Trim(s: string): (r: string)
    ensures |r| <= |s|
    ensures r == [] || (!IsSpace(r[0]) && !IsSpace(r[|r| - 1]))
    ensures exists i :: Surrounded(s, r, i)
  {
    TrimSurrounded(s);
    TrimRight(TrimLeft(s))
  }

  /** Trimming removes white space on the left, then on the right. */
  lemma TrimSurrounded(s: string)
    ensures Surrounded(s, TrimRight(TrimLeft(s)), |s| - |TrimLeft(s)|)
  {
    var l := TrimLeft(s);
    var r := TrimRight(l);
    var i := |s| - |l|;
    assert r == l[..|r|] && l == s[i..];
    forall k | i + |r| <= k < |s|
      ensures IsSpace(s[k])
    {
      assert s[k] == l[k - i];
    }
    assert r == s[i..i + |r|];
  }

  /** `r` is the infix of `s` at `i`, with only white space before and after it. */
  predicate Surrounded(s: string, r: string, i: nat) {
    && i + |r| <= |s| && r == s[i..i + |r|]
    && (forall k :: 0 <= k < i ==> IsSpace(s[k]))
    && (forall k :: i + |r| <= k < |s| ==> IsSpace(s[k]))
  }

  /** Trimming a string that has no white space at either end changes nothing. */
  lemma TrimIdentity(s: string)
    requires s == [] || (!IsSpace(s[0]) && !IsSpace(s[|s| - 1]))
    ensures Trim(s) == s
  {
  }

  /** `strings.Split(s, string(c))`: the fields between the separators,
      always at least one. */
  function Split(s: string, c: char): (r: seq<string>)
    ensures |r| >= 1
    ensures forall i :: 0 <= i < |r| ==> c !in r[i]
    ensures Join(r, c) == s
  {
    if s == [] then [[]]
    else
      var rest := Split(s[1..], c);
      if s[0] == c then [[]] + rest
      else [[s[0]] + rest[0]] + rest[1..]
  }

  /** The inverse of `Split`: the fields with one separator between neighbours. */
  function Join(parts: seq<string>, c: char): string {
    if parts == [] then []
    else if |parts| == 1 then parts[0]
    else parts[0] + [c] + Join(parts[1..], c)
  }

  /** Splitting the joined fields gives the fields back, when no field holds the separator. */
  lemma {:induction false} SplitJoin(parts: seq<string>, c: char)
    requires |parts| >= 1
    requires forall i :: 0 <= i < |parts| ==> c !in parts[i]
    ensures Split(Join(parts, c), c) == parts
    decreases |parts|, |parts[0]|
  {
    if parts[0] == [] {
      if |parts| > 1 {
        SplitJoin(parts[1..], c);
        assert Join(parts, c) == [c] + Join(parts[1..], c);
        assert Join(parts, c)[1..] == Join(parts[1..], c);
      }
    } else {
      var tail := [parts[0][1..]] + parts[1..];
      DropFirstChar(parts, c);
      SplitJoin(tail, c);
      assert parts[0][0] != c;
      assert [parts[0][0]] + tail[0] == parts[0];
    }
  }

  /** Moving the first character of the first field out of the fields keeps
      every field free of the separator and the join unchanged. */
  lemma DropFirstChar(parts: seq<string>, c: char)
    requires |parts| >= 1 && parts[0] != []
    requires forall i :: 0 <= i < |parts| ==> c !in parts[i]
    ensures var tail := [parts[0][1..]] + parts[1..];
      && |tail| == |parts| && |tail[0]| < |parts[0]|
      && (forall i :: 0 <= i < |tail| ==> c !in tail[i])
      && Join(parts, c) == [parts[0][0]] + Join(tail, c)
  {
    var tail := [parts[0][1..]] + parts[1..];
    forall i | 0 <= i < |tail| ensures c !in tail[i] {
      if i == 0 {
        assert forall x :: x in parts[0][1..] ==> x in parts[0];
      } else {
        assert tail[i] == parts[i];
      }
    }
    if |parts| == 1 {
      assert Join(parts, c) == parts[0];
      assert Join(tail, c) == parts[0][1..];
    } else {
      assert Join(parts, c) == parts[0] + [c] + Join(parts[1..], c);
      assert tail[1..] == parts[1..];
      assert Join(tail, c) == parts[0][1..] + [c] + Join(parts[1..], c);
    }
  }

  /** The first field of `strings.Split(line, string(c))` (`line.split(c)[0]`):
      everything before the first separator. */
  function FirstField(line: string, c: char): (f: string)
    ensures c !in f && HasPrefix(line, f)
    ensures |f| == |line| || line[|f|] == c
  {
    if line == [] || line[0] == c then [] else [line[0]] + FirstField(line[1..], c)
  }

  /** The first field ends at the first separator: what comes after it does not matter. */
  lemma {:induction false} FirstFieldBefore(a: string, c: char, b: string)
    requires c !in a
    ensures FirstField(a + [c] + b, c) == a
  {
    if a != [] {
      assert (a + [c] + b)[1..] == a[1..] + [c] + b;
      FirstFieldBefore(a[1..], c, b);
    }
  }

  /** The characters Python's `str.splitlines` breaks at (`\r\n` counts as one break). */
  predicate IsLineBreak(c: char) {
    || c == '\n' || c == '\r' || c == '\U{B}' || c == '\U{C}'
    || c == '\U{1C}' || c == '\U{1D}' || c == '\U{1E}' || c == '\U{85}'
    || c == '\U{2028}' || c == '\U{2029}'
  }

  predicate NoLineBreak(s: string) {
    forall k :: 0 <= k < |s| ==> !IsLineBreak(s[k])
  }

  /** The text before the first line break. */
  function LineBody(s: string): (f: string)
    ensures HasPrefix(s, f) && NoLineBreak(f)
    ensures |f| == |s| || IsLineBreak(s[|f|])
  {
    if s == [] || IsLineBreak(s[0]) then [] else [s[0]] + LineBody(s[1..])
  }

  /** The first line ends at the first line break: what comes after it does not matter. */
  lemma {:induction false} LineBodyBefore(a: string, c: char, b: string)
    requires NoLineBreak(a) && IsLineBreak(c)
    ensures LineBody(a + [c] + b) == a
  {
    if a != [] {
      assert (a + [c] + b)[1..] == a[1..] + [c] + b;
      LineBodyBefore(a[1..], c, b);
    }
  }

  /** Python's `str.splitlines()`: the lines without their breaks; no line for
      a final break, none at all for the empty string. */
  function SplitLines(s: string): (r: seq<string>)
    ensures forall i :: 0 <= i < |r| ==> NoLineBreak(r[i])
    ensures s == [] <==> r == []
    decreases |s|
  {
    if s == [] then []
    else
      var f := LineBody(s);
      if |f| == |s| then [s]
      else
        var n := if s[|f|] == '\r' && |f| + 1 < |s| && s[|f| + 1] == '\n' then 2 else 1;
        [f] + SplitLines(s[|f| + n..])
  }

  /** A text with no line break is one line. */
  lemma SplitLinesOne(a: string)
    requires a != [] && NoLineBreak(a)
    ensures SplitLines(a) == [a]
  {
    LineBodyAll(a);
  }

  /** The first line ends at the first break; a break other than "\r\n" is
      one character, and the lines after it are those of the rest. */
  lemma SplitLinesCons(a: string, c: char, b: string)
    requires NoLineBreak(a) && IsLineBreak(c)
    requires c != '\r' || b == [] || b[0] != '\n'
    ensures SplitLines(a + [c] + b) == [a] + SplitLines(b)
  {
    var s := a + [c] + b;
    LineBodyBefore(a, c, b);
    assert s[|a|] == c;
    assert s[|a| + 1..] == b;
  }

  /** "\r\n" is a single break. */
  lemma SplitLinesCrLf(a: string, b: string)
    requires NoLineBreak(a)
    ensures SplitLines(a + "\r\n" + b) == [a] + SplitLines(b)
  {
    var s := a + "\r\n" + b;
    assert s == a + ['\r'] + (['\n'] + b);
    LineBodyBefore(a, '\r', ['\n'] + b);
    assert s[|a|] == '\r' && s[|a| + 1] == '\n';
    assert s[|a| + 2..] == b;
  }

  /** Splitting lines joined with '\n' gives them back, when none holds a break
      and the last is not empty. */
  lemma {:induction false} SplitLinesJoin(lines: seq<string>)
    requires |lines| >= 1 && lines[|lines| - 1] != []
    requires forall i :: 0 <= i < |lines| ==> NoLineBreak(lines[i])
    ensures SplitLines(Join(lines, '\n')) == lines
  {
    if |lines| == 1 {
      assert Join(lines, '\n') == lines[0];
      assert LineBody(lines[0]) == lines[0] by {
        LineBodyAll(lines[0]);
      }
    } else {
      var rest := Join(lines[1..], '\n');
      assert Join(lines, '\n') == lines[0] + ['\n'] + rest;
      LineBodyBefore(lines[0], '\n', rest);
      assert (lines[0] + ['\n'] + rest)[|lines[0]| + 1..] == rest;
      assert lines[1..][|lines[1..]| - 1] == lines[|lines| - 1];
      SplitLinesJoin(lines[1..]);
      assert lines == [lines[0]] + lines[1..];
    }
  }

  lemma {:induction false} LineBodyAll(s: string)
    requires NoLineBreak(s)
    ensures LineBody(s) == s
  {
    if s != [] {
      LineBodyAll(s[1..]);
    }
  }

  /** `strings.SplitN(s, string(c), 2)`: the text before the first separator
      and the text after it, or `s` alone when it holds no separator. */
  function SplitOnce(s: string, c: char): (r: seq<string>)
    ensures 1 <= |r| <= 2 && r[0] == FirstField(s, c)
    ensures |r| == 1 <==> c !in s
    ensures |r| == 2 ==> s == r[0] + [c] + r[1]
  {
    var f := FirstField(s, c);
    if |f| == |s| then
      assert s == f;
      [s]
    else
      assert s == f + [c] + s[|f| + 1..];
      [f, s[|f| + 1..]]
  }

  /** `strings.Join(parts, sep)` / `sep.join(parts)`. */
  function JoinWith(parts: seq<string>, sep: string): string {
    if parts == [] then []
    else if |parts| == 1 then parts[0]
    else parts[0] + sep + JoinWith(parts[1..], sep)
  }

  /** ASCII lower-casing of one character. */
  function LowerChar(c: char): char {
    if 'A' <= c <= 'Z' then (c as int + 32) as char else c
  }

  /** `strings.ToLower` on ASCII letters; the non-ASCII capitals Go also maps
      (U+212A KELVIN SIGN to 'k', for one) are left as they are. */
  function Lower(s: string): (r: string)
    ensures |r| == |s|
    ensures forall i :: 0 <= i < |s| ==> r[i] == LowerChar(s[i])
  {
    if s == [] then [] else [LowerChar(s[0])] + Lower(s[1..])
  }

  /** Decimal rendering of a natural number, without leading zeros. */
  function Decimal(n: nat): (r: string)
    ensures |r| >= 1 && forall i :: 0 <= i < |r| ==> IsDigit(r[i])
    ensures |r| > 1 ==> r[0] != '0'
  {
    if n < 10 then [(48 + n) as char] else Decimal(n / 10) + [(48 + n % 10) as char]
  }
}
