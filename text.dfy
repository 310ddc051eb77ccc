/**
 * String helpers with the semantics of the ECMAScript built-ins the automation relies on:
 * the `\s` class and `String.prototype.trim`, `startsWith`, `indexOf`, `lastIndexOf`,
 * `replace` with a string pattern, `split` with a one-character separator, and the
 * decimal rendering of a non-negative integer in a template literal.
 */
module Text {

  import opened Wrappers

  /** WhiteSpace and LineTerminator code points of ECMA-262, the set matched by `\s` and removed by `trim`. */
  predicate IsWhitespace(c: char) {
    var n := c as int;
    n == 0x09 || n == 0x0A || n == 0x0B || n == 0x0C || n == 0x0D || n == 0x20 || n == 0xA0
    || n == 0x1680 || (0x2000 <= n <= 0x200A) || n == 0x2028 || n == 0x2029 || n == 0x202F
    || n == 0x205F || n == 0x3000 || n == 0xFEFF
  }

  /** The regular-expression class `\d`: ASCII digits only. */
  predicate IsAsciiDigit(c: char) {
    '0' <= c <= '9'
  }

  /** The first index at or after `i` that is not whitespace, or `|s|`. */
  function SkipWhitespace(s: string, i: nat): (r: nat)
    requires i <= |s|
    ensures i <= r <= |s|
    ensures forall k :: i <= k < r ==> IsWhitespace(s[k])
    ensures r == |s| || !IsWhitespace(s[r])
    decreases |s| - i
  {
    if i == |s| || !IsWhitespace(s[i]) then i else SkipWhitespace(s, i + 1)
  }

  /** The last index at or before `j` that does not follow whitespace, or 0. */
  function SkipWhitespaceBack(s: string, j: nat): (r: nat)
    requires j <= |s|
    ensures r <= j
    ensures forall k :: r <= k < j ==> IsWhitespace(s[k])
    ensures r == 0 || !IsWhitespace(s[r - 1])
  {
    if j == 0 || !IsWhitespace(s[j - 1]) then j else SkipWhitespaceBack(s, j - 1)
  }

  /** A string with no whitespace at either end. */
  predicate IsTrimmed(r: string) {
    r == [] || (!IsWhitespace(r[0]) && !IsWhitespace(r[|r| - 1]))
  }

  /** `r` sits in `s` at offset `a` with only whitespace before and after it. */
  predicate SitsAt(s: string, r: string, a: nat) {
    a + |r| <= |s| && r == s[a..a + |r|]
    && (forall k :: 0 <= k < a ==> IsWhitespace(s[k]))
    && (forall k :: a + |r| <= k < |s| ==> IsWhitespace(s[k]))
  }

  /** `r` is `s` with some whitespace removed at the front and some at the back. */
  ghost predicate IsTrimOf(s: string, r: string) {
    exists a: nat :: SitsAt(s, r, a)
  }

  /** `String.prototype.trim`. */
  function Trim(s: string): (r: string)
    ensures IsTrimmed(r) && IsTrimOf(s, r)
  {
    var a := SkipWhitespace(s, 0);
    if a == |s| then
      assert SitsAt(s, [], 0);
      []
    else
      var b := SkipWhitespaceBack(s, |s|);
      assert !IsWhitespace(s[a]);
      assert a < b;
      var r := s[a..b];
      assert SitsAt(s, r, a);
      r
  }

  /** Trimming is the unique decomposition: a trimmed string surrounded by whitespace trims to itself. */
  lemma {:induction false} TrimOfPadded(x: string, front: string, back: string)
    requires IsTrimmed(x) && x != []
    requires forall k :: 0 <= k < |front| ==> IsWhitespace(front[k])
    requires forall k :: 0 <= k < |back| ==> IsWhitespace(back[k])
    ensures Trim(front + x + back) == x
  {
    var s := front + x + back;
    var a := SkipWhitespace(s, 0);
    assert s[|front|] == x[0];
    assert a == |front|;
    var b := SkipWhitespaceBack(s, |s|);
    assert s[|front| + |x| - 1] == x[|x| - 1];
    assert b == |front| + |x|;
    assert s[a..b] == x;
  }

  /** Trimming twice is trimming once. */
  lemma TrimIdempotent(s: string)
    ensures Trim(Trim(s)) == Trim(s)
  {
    var r := Trim(s);
    if r != [] {
      TrimOfPadded(r, [], []);
      assert [] + r + [] == r;
    }
  }

  predicate StartsWith(s: string, prefix: string) {
    |prefix| <= |s| && s[..|prefix|] == prefix
  }

  predicate OccursAt(s: string, pat: string, i: nat) {
    i + |pat| <= |s| && s[i..i + |pat|] == pat
  }

  /** `s.indexOf(pat, from)`, with `None` for -1. */
  function IndexOf(s: string, pat: string, from: nat): (r: Option<nat>)
    requires from <= |s|
    ensures r.Some? ==> from <= r.value && OccursAt(s, pat, r.value)
    ensures r.Some? ==> forall i :: from <= i < r.value ==> !OccursAt(s, pat, i)
    ensures r.None? ==> forall i :: from <= i ==> !OccursAt(s, pat, i)
    decreases |s| - from
  {
    if OccursAt(s, pat, from) then Some(from)
    else if from == |s| then None
    else IndexOf(s, pat, from + 1)
  }

  /** `s.includes(pat)`. */
  predicate Contains(s: string, pat: string) {
    IndexOf(s, pat, 0).Some?
  }

  /** `i` is where `pat` first occurs in `s`. */
  predicate IsFirstOccurrence(s: string, pat: string, i: nat) {
    OccursAt(s, pat, i) && forall j: nat :: j < i ==> !OccursAt(s, pat, j)
  }

  /** `s.replace(pat, rep)` with a string pattern: only the leftmost occurrence is replaced. */
  function ReplaceFirst(s: string, pat: string, rep: string): (r: string)
    ensures (forall i: nat :: !OccursAt(s, pat, i)) ==> r == s
    ensures forall i: nat :: IsFirstOccurrence(s, pat, i) ==> r == s[..i] + rep + s[i + |pat|..]
  {
    match IndexOf(s, pat, 0)
    case None => s
    case Some(i) =>
      assert IsFirstOccurrence(s, pat, i);
      assert forall k: nat :: IsFirstOccurrence(s, pat, k) ==> k == i;
      s[..i] + rep + s[i + |pat|..]
  }

  /** `s.lastIndexOf(c)`: the index of the last `c`, or -1. */
  function LastIndexOf(s: string, c: char): (r: int)
    ensures -1 <= r < |s|
    ensures r >= 0 ==> s[r] == c
    ensures forall k :: r < k < |s| ==> s[k] != c
  {
    if s == [] then -1
    else if s[|s| - 1] == c then |s| - 1
    else LastIndexOf(s[..|s| - 1], c)
  }

  /** `s.substring(i)`: a negative start is clamped to 0. */
  function SubstringFrom(s: string, i: int): (r: string)
    requires i < |s|
    ensures i <= 0 ==> r == s
    ensures 0 <= i ==> |r| == |s| - i && r == s[i..]
  {
    if i <= 0 then s else s[i..]
  }

  /** The parts `s.split(c)` returns when scanning from `start`, positions `start..i` already known free of `c`. */
  function SplitOnFrom(s: string, c: char, start: nat, i: nat): (r: seq<string>)
    requires start <= i <= |s|
    requires forall k :: start <= k < i ==> s[k] != c
    ensures |r| >= 1
    ensures forall p, k :: p in r && 0 <= k < |p| ==> p[k] != c
    ensures Join(r, c) == s[start..]
    decreases |s| - i
  {
    if i == |s| then
      [s[start..]]
    else if s[i] == c then
      var rest := SplitOnFrom(s, c, i + 1, i + 1);
      assert s[start..] == s[start..i] + [c] + s[i + 1..];
      [s[start..i]] + rest
    else
      SplitOnFrom(s, c, start, i + 1)
  }

  /** `s.split(c)` for a one-character separator: the pieces never contain `c` and joining them with `c` gives `s` back. */
  function SplitOn(s: string, c: char): (r: seq<string>)
    ensures |r| >= 1
    ensures forall p, k :: p in r && 0 <= k < |p| ==> p[k] != c
    ensures Join(r, c) == s
  {
    assert s[0..] == s;
    SplitOnFrom(s, c, 0, 0)
  }

  /** `parts.join(sep)`. */
  function Join(parts: seq<string>, sep: char): string {
    if parts == [] then []
    else if |parts| == 1 then parts[0]
    else parts[0] + [sep] + Join(parts[1..], sep)
  }

  function DigitChar(d: nat): char
    requires d < 10
  {
    ('0' as int + d) as char
  }

  /** The number a string of decimal digits denotes. */
  function DigitsValue(s: string): nat
    requires forall k :: 0 <= k < |s| ==> IsAsciiDigit(s[k])
  {
    if s == [] then 0
    else
      assert IsAsciiDigit(s[|s| - 1]);
      DigitsValue(s[..|s| - 1]) * 10 + (s[|s| - 1] as int - '0' as int)
  }

  /** The decimal rendering of `n` in a template literal: digits only, no leading zero, denoting `n`. */
  function NatToString(n: nat): (r: string)
    ensures |r| >= 1 && forall k :: 0 <= k < |r| ==> IsAsciiDigit(r[k])
    ensures r[0] == '0' ==> r == "0"
    ensures DigitsValue(r) == n
  {
    if n < 10 then
      [DigitChar(n)]
    else
      var front := NatToString(n / 10);
      var r := front + [DigitChar(n % 10)];
      assert r[..|r| - 1] == front;
      r
  }

  /** The decimal rendering of any integer in a template literal, with a leading '-' when negative. */
  function IntToString(n: int): (r: string)
    ensures |r| >= 1
    ensures n >= 0 ==> r == NatToString(n)
    ensures n < 0 ==> r[0] == '-' && r[1..] == NatToString(-n)
  {
    if n < 0 then "-" + NatToString(-n) else NatToString(n)
  }
}
