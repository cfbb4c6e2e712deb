/** Python string built-ins the modelled code relies on: str.strip, str.lower,
    str.replace, str.find / str.rfind of one character, slicing with Python's
    index normalisation, str() of an integer and posixpath.join. */
module PyText {

  /** str.isspace() for one character: the characters Python's argument-less
      str.strip() removes. */
  predicate IsSpace(c: char) {
    var n := c as int;
    n == 0x20 || 0x09 <= n <= 0x0D || 0x1C <= n <= 0x1F || n == 0x85 || n == 0xA0
    || n == 0x1680 || 0x2000 <= n <= 0x200A || n == 0x2028 || n == 0x2029
    || n == 0x202F || n == 0x205F || n == 0x3000
  }

  predicate AllSpace(s: string) {
    forall i :: 0 <= i < |s| ==> IsSpace(s[i])
  }

  /** str.lstrip() */
  function StripLeft(s: string): (r: string)
    ensures |r| <= |s| && r == s[|s| - |r|..]
    ensures AllSpace(s[..|s| - |r|])
    ensures r != [] ==> !IsSpace(r[0])
  {
    if s != [] && IsSpace(s[0]) then
      var r := StripLeft(s[1..]);
      assert s[..|s| - |r|] == [s[0]] + s[1..][..|s| - 1 - |r|];
      r
    else s
  }

  /** str.rstrip() */
  function StripRight(s: string): (r: string)
    ensures |r| <= |s| && r == s[..|r|]
    ensures AllSpace(s[|r|..])
    ensures r != [] ==> !IsSpace(r[|r| - 1])
  {
    if s != [] && IsSpace(s[|s| - 1]) then
      var r := StripRight(s[..|s| - 1]);
      assert s[|r|..] == s[..|s| - 1][|r|..] + [s[|s| - 1]];
      r
    else s
  }

  /** str.strip() */
  function Strip(s: string): string {
    StripRight(StripLeft(s))
  }

  /** `not s.strip()`: the text is empty once surrounding whitespace is removed
      exactly when every character of it is whitespace. */
  lemma StripEmptyIffAllSpace(s: string)
    ensures Strip(s) == [] <==> AllSpace(s)
  {
    var l := StripLeft(s);
    if Strip(s) == [] {
      if l != [] {
        assert false;
      }
      assert s[..|s|] == s;
    }
  }

  /** ASCII case mapping, standing in for str.lower(). */
  function LowerChar(c: char): char {
    if 'A' <= c <= 'Z' then (c as int + 32) as char else c
  }

  /** str.lower(), character by character. */
  function Lower(s: string): string {
    seq(|s|, i requires 0 <= i < |s| => LowerChar(s[i]))
  }

  /** Lower-casing neither removes a `/` nor makes one. */
  lemma LowerKeepsSlash(s: string, i: nat)
    requires i < |s|
    ensures Lower(s)[i] == '/' <==> s[i] == '/'
  {
  }

  /** s.replace(from, to) for single characters. */
  function ReplaceChar(s: string, from: char, to: char): (r: string)
    ensures |r| == |s|
    ensures forall i :: 0 <= i < |s| && s[i] == from ==> r[i] == to
    ensures forall i :: 0 <= i < |s| && s[i] != from ==> r[i] == s[i]
    ensures from != to ==> from !in r
  {
    seq(|s|, i requires 0 <= i < |s| => if s[i] == from then to else s[i])
  }

  /** s.find(c): the first index of c, or -1 when c does not occur. */
  function Find(s: string, c: char): (r: int)
    ensures -1 <= r < |s|
    ensures r == -1 <==> c !in s
    ensures r >= 0 ==> s[r] == c && c !in s[..r]
  {
    if s == [] then -1
    else if s[0] == c then 0
    else
      var k := Find(s[1..], c);
      assert forall j :: 0 <= j < |s| - 1 ==> s[1..][j] == s[j + 1];
      if k == -1 then -1
      else
        assert s[..k + 1] == [s[0]] + s[1..][..k];
        k + 1
  }

  /** s.rfind(c): the last index of c, or -1 when c does not occur. */
  function RFind(s: string, c: char): (r: int)
    ensures -1 <= r < |s|
    ensures r == -1 <==> c !in s
    ensures r >= 0 ==> s[r] == c && c !in s[r + 1..]
  {
    if s == [] then -1
    else if s[|s| - 1] == c then |s| - 1
    else
      var k := RFind(s[..|s| - 1], c);
      assert s == s[..|s| - 1] + [s[|s| - 1]];
      if k >= 0 then assert s[k + 1..] == s[..|s| - 1][k + 1..] + [s[|s| - 1]]; k
      else k
  }

  /** The index a Python slice bound i denotes in a string of length n:
      negative bounds count from the end, and both ends are clamped. */
  function SliceBound(i: int, n: nat): (k: nat)
    ensures k <= n
    ensures 0 <= i <= n ==> k == i
    ensures i < 0 && -i <= n ==> k == n + i
    ensures i > n ==> k == n
    ensures i + n < 0 ==> k == 0
  {
    if i < 0 then (if i + n < 0 then 0 else i + n)
    else if i > n then n
    else i
  }

  /** s[start:stop]: the characters from the normalised start up to the
      normalised stop, none when the stop does not lie after the start. */
  function Slice(s: string, start: int, stop: int): (r: string)
    ensures r <= s[SliceBound(start, |s|)..]
    ensures |r| == if SliceBound(start, |s|) < SliceBound(stop, |s|) then SliceBound(stop, |s|) - SliceBound(start, |s|) else 0
    ensures 0 <= start <= stop <= |s| ==> r == s[start..stop]
  {
    var a := SliceBound(start, |s|);
    var b := SliceBound(stop, |s|);
    if a < b then s[a..b] else ""
  }

  /** A slice whose stop is in range ends at that stop. */
  lemma SliceToStop(s: string, start: int, stop: int)
    requires 0 <= stop <= |s|
    ensures var r := Slice(s, start, stop); |r| <= stop && r == s[stop - |r|..stop]
  {
  }

  function Digit(d: nat): char
    requires d < 10
  {
    "0123456789"[d]
  }

  /** str(n) for a natural number. */
  function Decimal(n: nat): (r: string)
    ensures |r| >= 1
    ensures forall i :: 0 <= i < |r| ==> '0' <= r[i] <= '9'
  {
    if n < 10 then [Digit(n)] else Decimal(n / 10) + [Digit(n % 10)]
  }

  /** str(i) for an integer. */
  function IntToString(i: int): string {
    if i < 0 then "-" + Decimal(-i) else Decimal(i)
  }

  /** posixpath.join(a, b): an absolute second component replaces the first;
      otherwise one separator is inserted unless a is empty or already ends
      with one. */
  function Join(a: string, b: string): string {
    if |b| > 0 && b[0] == '/' then b
    else if a == "" || a[|a| - 1] == '/' then a + b
    else a + "/" + b
  }

  /** A join ends with its second component; an absolute one is the whole
      result, and a relative one follows the first component with exactly
      one separator between them, never two. */
  lemma JoinShape(a: string, b: string)
    ensures var r := Join(a, b); |b| <= |r| && r[|r| - |b|..] == b
    ensures |b| > 0 && b[0] == '/' ==> Join(a, b) == b
    ensures var r := Join(a, b);
      !(|b| > 0 && b[0] == '/') ==> |a| + |b| <= |r| <= |a| + |b| + 1 && r[..|a|] == a
    ensures var r := Join(a, b);
      !(|b| > 0 && b[0] == '/') && a != "" ==> r[|r| - |b| - 1] == '/' && (|r| - |b| - 1 == |a| <==> a[|a| - 1] != '/')
  {
  }

  // Regrouping facts about concatenation, stated over arbitrary strings so
  // that proofs about long literals never need sequence extensionality.

  lemma Append2(a: string, b: string, c: string)
    ensures a + b + c == a + (b + c)
  {
  }

  lemma Append3(a: string, b: string, c: string, d: string)
    ensures a + b + c + d == a + (b + c + d)
  {
  }

  lemma Split(y: string, x: string)
    requires x <= y
    ensures y == x + y[|x|..]
  {
  }

  lemma Regroup(h: string, a: string, b: string, t: string, c: string)
    ensures h + (a + b + t) + c == (h + a) + b + (t + c)
  {
  }

  /** Concatenation and slicing: the middle part of x + y + z sits at
      offset |x|. */
  lemma Window(x: string, y: string, z: string)
    ensures |x| + |y| <= |x + y + z|
    ensures (x + y + z)[|x|..|x| + |y|] == y
    ensures (x + y + z)[..|x|] == x
    ensures (x + y + z)[|x| + |y|..] == z
  {
  }

  lemma AppendEmpty(a: string, b: string)
    ensures a + "" + b == a + b
  {
  }

  /** The slice t[i..j + 1] runs from t[i] to t[j]. */
  lemma SliceEnds(t: string, i: nat, j: nat)
    requires i < j < |t|
    ensures var w := t[i..j + 1]; |w| == j + 1 - i && w[0] == t[i] && w[|w| - 1] == t[j]
  {
  }
}
