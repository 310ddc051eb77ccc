/**
 * Partitioning of a document into slides, as `extractFirstSlide` (background.js:139-147) and
 * `extractRemainingSlides` (background.js:447-458) do with the case-insensitive regular
 * expressions `/Slide\s*1[\s\S]*?(?=\nSlide\s*\d+|$)/i`, `/Slide\s*2[\s\S]*\/i` and
 * `/\n(?=Slide\s*\d+)/i`, under ECMA-262 RegExp semantics (section 22.2): no `m` flag, so `$`
 * matches only at the end of the input, and in non-Unicode mode the `i` flag folds only ASCII
 * letters for the word "Slide".
 */
module Slides {

  import opened Wrappers
  import opened Text

  /** The lower-case spelling of the marker word. */
  const Word: string := "slide"

  /** `c` matches the lower-case ASCII letter `lower` case-insensitively. */
  predicate SameLetter(c: char, lower: char)
    requires 'a' <= lower <= 'z'
  {
    c == lower || c as int == lower as int - 32
  }

  /** The word "Slide", in any letter case, starts at `p`. */
  predicate WordAt(s: string, p: nat) {
    p + 5 <= |s| && forall k :: 0 <= k < 5 ==> SameLetter(s[p + k], Word[k])
  }

  /** `Slide\s*d` matches at `p`, for the digit `d`. */
  predicate HeaderAt(s: string, p: nat, d: char) {
    WordAt(s, p) && var j := SkipWhitespace(s, p + 5); j < |s| && s[j] == d
  }

  /** `Slide\s*\d+` matches at `p` (a lookahead needs only the first digit). */
  predicate AnyHeaderAt(s: string, p: nat) {
    WordAt(s, p) && var j := SkipWhitespace(s, p + 5); j < |s| && IsAsciiDigit(s[j])
  }

  /** The backtracking reading of `Slide\s*d`: some run of whitespace after the word, then `d`. */
  ghost predicate RegexHeaderAt(s: string, p: nat, d: char) {
    WordAt(s, p) && exists j: nat :: p + 5 <= j < |s| && AllWhitespace(s, p + 5, j) && s[j] == d
  }

  predicate AllWhitespace(s: string, i: nat, j: nat)
    requires i <= j <= |s|
  {
    forall k :: i <= k < j ==> IsWhitespace(s[k])
  }

  /** Scanning the longest whitespace run decides the pattern exactly as backtracking does, since a digit is not whitespace. */
  lemma HeaderAgreesWithRegex(s: string, p: nat, d: char)
    requires IsAsciiDigit(d)
    ensures HeaderAt(s, p, d) <==> RegexHeaderAt(s, p, d)
  {
    if WordAt(s, p) {
      var r := SkipWhitespace(s, p + 5);
      if HeaderAt(s, p, d) {
        assert AllWhitespace(s, p + 5, r);
      }
      if RegexHeaderAt(s, p, d) {
        var j: nat :| p + 5 <= j < |s| && AllWhitespace(s, p + 5, j) && s[j] == d;
        assert !IsWhitespace(s[j]);
      }
    }
  }

  /** The marker the split removes: a newline followed by `Slide\s*\d`. */
  predicate IsSeparatorAt(s: string, i: nat) {
    i < |s| && s[i] == '\n' && AnyHeaderAt(s, i + 1)
  }

  /** Where `(?=\nSlide\s*\d+|$)` first succeeds at or after `q`. */
  function BoundaryFrom(s: string, q: nat): (r: nat)
    requires q <= |s|
    ensures q <= r <= |s|
    ensures r == |s| || IsSeparatorAt(s, r)
    ensures forall k :: q <= k < r ==> !IsSeparatorAt(s, k)
    decreases |s| - q
  {
    if q == |s| || IsSeparatorAt(s, q) then q else BoundaryFrom(s, q + 1)
  }

  /** The leftmost position at or after `from` where `Slide\s*d` matches. */
  function FindHeader(s: string, from: nat, d: char): (r: Option<nat>)
    requires from <= |s|
    ensures r.Some? ==> from <= r.value < |s| && HeaderAt(s, r.value, d)
    ensures r.Some? ==> forall p :: from <= p < r.value ==> !HeaderAt(s, p, d)
    ensures r.None? ==> forall p :: from <= p ==> !HeaderAt(s, p, d)
    decreases |s| - from
  {
    if from == |s| then None
    else if HeaderAt(s, from, d) then Some(from)
    else FindHeader(s, from + 1, d)
  }

  /** Position just after the digit of the header at `p`. */
  function HeaderEnd(s: string, p: nat, d: char): (e: nat)
    requires HeaderAt(s, p, d)
    ensures p + 6 <= e <= |s|
  {
    SkipWhitespace(s, p + 5) + 1
  }

  /**
   * The span `[p, q)` that the first-slide pattern matches: `p` is the leftmost header `Slide\s*1`,
   * and the lazy `[\s\S]*?` stops at the first `q` after that header where the lookahead succeeds.
   */
  ghost predicate IsFirstSlideSpan(s: string, p: nat, q: nat) {
    HeaderAt(s, p, '1') && (forall p' :: 0 <= p' < p ==> !HeaderAt(s, p', '1'))
    && HeaderEnd(s, p, '1') <= q <= |s| && (q == |s| || IsSeparatorAt(s, q))
    && forall k :: HeaderEnd(s, p, '1') <= k < q ==> !IsSeparatorAt(s, k)
  }

  /**
   * `extractFirstSlide`: the trimmed text of the first-slide span, or the whole content,
   * untouched, when no `Slide\s*1` occurs.
   */
  function ExtractFirstSlide(content: string): (r: string)
    ensures (forall p: nat :: !HeaderAt(content, p, '1')) ==> r == content
    ensures forall p: nat, q: nat :: IsFirstSlideSpan(content, p, q) ==> r == Trim(content[p..q])
    ensures (exists p: nat :: HeaderAt(content, p, '1')) ==> exists p: nat, q: nat :: IsFirstSlideSpan(content, p, q)
  {
    match FindHeader(content, 0, '1')
    case None => content
    case Some(p) =>
      var q := BoundaryFrom(content, HeaderEnd(content, p, '1'));
      assert IsFirstSlideSpan(content, p, q);
      assert forall p': nat, q': nat :: IsFirstSlideSpan(content, p', q') ==> p' == p && q' == q by {
        forall p': nat, q': nat | IsFirstSlideSpan(content, p', q') ensures p' == p && q' == q {
          assert HeaderAt(content, p', '1') && HeaderAt(content, p, '1');
          assert p' == p;
          assert q' == |content| || IsSeparatorAt(content, q');
        }
      }
      Trim(content[p..q])
  }

  /** No newline in `p` is followed by a slide header: `p` holds at most one slide. */
  predicate NoSeparatorIn(p: string) {
    forall j :: 0 <= j < |p| ==> !IsSeparatorAt(p, j)
  }

  /** A whitespace run that ends inside a slice ends at the same place in the whole string. */
  lemma {:induction false} SkipWhitespaceInSlice(t: string, a: nat, b: nat, x: nat)
    requires a <= b <= |t| && x <= b - a
    requires SkipWhitespace(t[a..b], x) < b - a
    ensures SkipWhitespace(t, a + x) == a + SkipWhitespace(t[a..b], x)
    decreases b - a - x
  {
    var u := t[a..b];
    assert u[x] == t[a + x];
    if IsWhitespace(u[x]) {
      SkipWhitespaceInSlice(t, a, b, x + 1);
    }
  }

  /** A separator found in a slice is a separator of the whole string. */
  lemma SeparatorInSlice(t: string, a: nat, b: nat, j: nat)
    requires a <= b <= |t| && IsSeparatorAt(t[a..b], j)
    ensures IsSeparatorAt(t, a + j)
  {
    var u := t[a..b];
    assert WordAt(t, a + j + 1) by {
      forall k | 0 <= k < 5 ensures SameLetter(t[a + j + 1 + k], Word[k]) {
        assert u[j + 1 + k] == t[a + j + 1 + k];
      }
    }
    SkipWhitespaceInSlice(t, a, b, j + 1 + 5);
    var e := SkipWhitespace(u, j + 1 + 5);
    assert u[e] == t[a + e];
  }

  /** A slice of `t` that contains no separator of `t` contains none of its own. */
  lemma NoSeparatorInSlice(t: string, a: nat, b: nat)
    requires a <= b <= |t|
    requires forall k :: a <= k < b ==> !IsSeparatorAt(t, k)
    ensures NoSeparatorIn(t[a..b])
  {
    forall j | 0 <= j < b - a ensures !IsSeparatorAt(t[a..b], j) {
      if IsSeparatorAt(t[a..b], j) {
        SeparatorInSlice(t, a, b, j);
        assert false;
      }
    }
  }

  /** The positions of `t` where a newline starts a slide header. */
  function Separators(t: string): set<nat> {
    set k: nat | k < |t| && IsSeparatorAt(t, k)
  }

  predicate NoneBetween(cuts: set<nat>, a: nat, b: nat) {
    forall k :: a <= k < b ==> k !in cuts
  }

  /**
   * The pieces `r`, laid out from `start` with one dropped character between neighbours, are cut
   * at `cuts` and nowhere else: no position of a piece is a cut, and each piece but the last ends
   * right at one.
   */
  predicate CutsAt(cuts: set<nat>, start: nat, r: seq<string>)
    decreases |r|
  {
    |r| >= 1 && NoneBetween(cuts, start, start + |r[0]|)
    && (|r| == 1 || (start + |r[0]| in cuts && CutsAt(cuts, start + |r[0]| + 1, r[1..])))
  }

  /** The cuts of `r` in `t[start..]` are exactly the separators of `t`. */
  predicate CutsAtSeparators(t: string, start: nat, r: seq<string>) {
    CutsAt(Separators(t), start, r)
  }

  /** A span of `t` where no separator starts holds no position of `Separators(t)`. */
  lemma NoSeparatorsBetween(t: string, a: nat, b: nat)
    requires forall k :: a <= k < b ==> !IsSeparatorAt(t, k)
    ensures NoneBetween(Separators(t), a, b)
  {
  }

  /** Cutting `t[start..]` at the separator `i`: the piece before it, joined to the rest, gives the text back. */
  lemma JoinAtSeparator(t: string, start: nat, i: nat, rest: seq<string>)
    requires start <= i < |t| && IsSeparatorAt(t, i)
    requires |rest| >= 1 && Join(rest, '\n') == t[i + 1..]
    ensures var r := [t[start..i]] + rest;
            Join(r, '\n') == t[start..] && StartsWith(t[start..], r[0])
            && (!IsSeparatorAt(t, start) ==> |r[0]| >= 1)
  {
    var r := [t[start..i]] + rest;
    assert t[start..] == t[start..i] + ['\n'] + t[i + 1..];
    assert t[start..][..i - start] == t[start..i];
    assert r[0] == t[start..i] && r[1..] == rest;
  }

  /** Cutting `t[start..]` at the first separator `i`: the cuts stay exactly at the separators. */
  lemma CutsAtSeparator(t: string, start: nat, i: nat, rest: seq<string>)
    requires start <= i < |t| && IsSeparatorAt(t, i)
    requires forall k :: start <= k < i ==> !IsSeparatorAt(t, k)
    requires |rest| >= 1 && CutsAtSeparators(t, i + 1, rest)
    requires forall p :: p in rest ==> NoSeparatorIn(p)
    ensures var r := [t[start..i]] + rest;
            CutsAtSeparators(t, start, r) && forall p :: p in r ==> NoSeparatorIn(p)
  {
    var r := [t[start..i]] + rest;
    NoSeparatorInSlice(t, start, i);
    NoSeparatorsBetween(t, start, i);
    assert i in Separators(t);
    assert r[0] == t[start..i] && r[1..] == rest;
  }

  /**
   * The pieces `t.split(/\n(?=Slide\s*\d+)/i)` returns for `t[start..]`, scanning from `i`:
   * the separating newlines are dropped, joining the pieces with newlines gives the text back,
   * and the text is cut at its separators and nowhere else.
   */
  function SplitFrom(t: string, start: nat, i: nat): (r: seq<string>)
    requires start <= i <= |t|
    requires forall k :: start <= k < i ==> !IsSeparatorAt(t, k)
    ensures |r| >= 1
    ensures Join(r, '\n') == t[start..]
    ensures CutsAtSeparators(t, start, r)
    ensures forall p :: p in r ==> NoSeparatorIn(p)
    ensures StartsWith(t[start..], r[0])
    ensures start < |t| && !IsSeparatorAt(t, start) ==> |r[0]| >= 1
    decreases |t| - i
  {
    if i == |t| then
      NoSeparatorInSlice(t, start, |t|);
      NoSeparatorsBetween(t, start, |t|);
      assert t[start..|t|] == t[start..];
      [t[start..]]
    else if IsSeparatorAt(t, i) then
      var rest := SplitFrom(t, i + 1, i + 1);
      JoinAtSeparator(t, start, i, rest);
      CutsAtSeparator(t, start, i, rest);
      [t[start..i]] + rest
    else
      SplitFrom(t, start, i + 1)
  }

  /** `t.split(/\n(?=Slide\s*\d+)/i)`: the text cut at each newline that starts a slide header. */
  function SplitSlides(t: string): (r: seq<string>)
    ensures |r| >= 1 && Join(r, '\n') == t
    ensures CutsAtSeparators(t, 0, r)
    ensures forall p :: p in r ==> NoSeparatorIn(p)
    ensures StartsWith(t, r[0])
    ensures t != [] && !IsSeparatorAt(t, 0) ==> |r[0]| >= 1
  {
    assert t[0..] == t;
    SplitFrom(t, 0, 0)
  }

  /** Two ways of cutting the same text at the same positions are the same. */
  lemma {:induction false} CutsDetermineSplit(t: string, cuts: set<nat>, start: nat, r1: seq<string>, r2: seq<string>)
    requires start <= |t|
    requires Join(r1, '\n') == t[start..] && CutsAt(cuts, start, r1)
    requires Join(r2, '\n') == t[start..] && CutsAt(cuts, start, r2)
    ensures r1 == r2
    decreases |r1|
  {
    var u := t[start..];
    assert StartsWith(u, r1[0]) && (|r1| == 1 ==> r1[0] == u) by { JoinStartsWithFirst(r1); }
    assert StartsWith(u, r2[0]) && (|r2| == 1 ==> r2[0] == u) by { JoinStartsWithFirst(r2); }
    if |r1[0]| < |r2[0]| {
      assert false;
    } else if |r2[0]| < |r1[0]| {
      assert false;
    }
    assert r1[0] == u[..|r1[0]|] == r2[0];
    if |r1| > 1 && |r2| > 1 {
      var next := start + |r1[0]| + 1;
      assert Join(r1[1..], '\n') == t[next..] by { JoinRest(t, start, r1); }
      assert Join(r2[1..], '\n') == t[next..] by { JoinRest(t, start, r2); }
      CutsDetermineSplit(t, cuts, next, r1[1..], r2[1..]);
      assert r1 == [r1[0]] + r1[1..] && r2 == [r2[0]] + r2[1..];
    } else if |r1| > 1 {
      JoinLongerThanFirst(r1);
      assert false;
    } else if |r2| > 1 {
      JoinLongerThanFirst(r2);
      assert false;
    }
  }

  lemma JoinStartsWithFirst(r: seq<string>)
    requires |r| >= 1
    ensures StartsWith(Join(r, '\n'), r[0])
    ensures |r| == 1 ==> Join(r, '\n') == r[0]
  {
    if |r| > 1 {
      assert Join(r, '\n') == r[0] + (['\n'] + Join(r[1..], '\n'));
    }
  }

  lemma JoinLongerThanFirst(r: seq<string>)
    requires |r| > 1
    ensures |Join(r, '\n')| > |r[0]|
  {
  }

  lemma JoinRest(t: string, start: nat, r: seq<string>)
    requires |r| > 1 && start <= |t| && Join(r, '\n') == t[start..]
    ensures start + |r[0]| + 1 <= |t| && Join(r[1..], '\n') == t[start + |r[0]| + 1..]
  {
    var u := t[start..];
    assert u == r[0] + ['\n'] + Join(r[1..], '\n');
    assert u[|r[0]| + 1..] == Join(r[1..], '\n');
    assert u[|r[0]| + 1..] == t[start + |r[0]| + 1..];
  }

  /** `SplitSlides` is the only way to cut a text at exactly its separators. */
  lemma SplitSlidesIsTheSplit(t: string, r: seq<string>)
    requires Join(r, '\n') == t && CutsAtSeparators(t, 0, r)
    ensures r == SplitSlides(t)
  {
    assert t[0..] == t;
    CutsDetermineSplit(t, Separators(t), 0, r, SplitSlides(t));
  }

  /** `pieces.map(s => s.trim())`. */
  function TrimAll(pieces: seq<string>): (r: seq<string>)
    ensures |r| == |pieces| && forall i :: 0 <= i < |pieces| ==> r[i] == Trim(pieces[i])
  {
    if pieces == [] then [] else [Trim(pieces[0])] + TrimAll(pieces[1..])
  }

  /** `xs.filter(s => s.length > 0)`. */
  function NonEmpty(xs: seq<string>): (r: seq<string>)
    ensures forall j :: 0 <= j < |r| ==> r[j] != [] && r[j] in xs
    ensures forall i :: 0 <= i < |xs| && xs[i] != [] ==> xs[i] in r
    ensures |r| <= |xs|
  {
    if xs == [] then []
    else
      var rest := NonEmpty(xs[1..]);
      assert forall i :: 1 <= i < |xs| ==> xs[i] == xs[1..][i - 1];
      (if xs[0] == [] then [] else [xs[0]]) + rest
  }

  /** Filtering keeps the order: filtering a concatenation concatenates the filtered parts. */
  lemma {:induction false} NonEmptyInOrder(a: seq<string>, b: seq<string>)
    ensures NonEmpty(a + b) == NonEmpty(a) + NonEmpty(b)
    decreases |a|
  {
    if a == [] {
      assert a + b == b;
    } else {
      assert (a + b)[0] == a[0] && (a + b)[1..] == a[1..] + b;
      NonEmptyInOrder(a[1..], b);
    }
  }

  lemma TrimAllInOrder(a: seq<string>, b: seq<string>)
    ensures TrimAll(a + b) == TrimAll(a) + TrimAll(b)
  {
    assert forall i :: |a| <= i < |a + b| ==> (a + b)[i] == b[i - |a|];
  }

  /** `pieces.map(s => s.trim()).filter(s => s.length > 0)`. */
  function CleanSlides(pieces: seq<string>): (r: seq<string>)
    ensures forall j :: 0 <= j < |r| ==> r[j] != [] && IsTrimmed(r[j])
    ensures forall i :: 0 <= i < |pieces| && Trim(pieces[i]) != [] ==> Trim(pieces[i]) in r
    ensures |r| <= |pieces|
  {
    var r := NonEmpty(TrimAll(pieces));
    assert forall j :: 0 <= j < |r| ==> IsTrimmed(r[j]) by {
      forall j | 0 <= j < |r| {
        TrimmedMember(pieces, r[j]);
      }
    }
    r
  }

  lemma TrimmedMember(pieces: seq<string>, x: string)
    requires x in TrimAll(pieces)
    ensures IsTrimmed(x)
  {
    var i :| 0 <= i < |pieces| && TrimAll(pieces)[i] == x;
  }

  /**
   * Cleaning works piece by piece and keeps the order of the pieces: a single piece gives its
   * trim, or nothing when that is empty, and cleaning a concatenation concatenates the cleaned parts.
   */
  lemma CleanSlidesInOrder(a: seq<string>, b: seq<string>)
    ensures CleanSlides(a + b) == CleanSlides(a) + CleanSlides(b)
    ensures |a| == 1 ==> CleanSlides(a) == (if Trim(a[0]) == [] then [] else [Trim(a[0])])
  {
    TrimAllInOrder(a, b);
    NonEmptyInOrder(TrimAll(a), TrimAll(b));
    if |a| == 1 {
      assert TrimAll(a) == [Trim(a[0])];
    }
  }

  /** A string whose first character is not whitespace does not trim to nothing. */
  lemma TrimKeepsVisibleStart(x: string)
    requires x != [] && !IsWhitespace(x[0])
    ensures Trim(x) != []
  {
    var a: nat :| SitsAt(x, Trim(x), a);
  }

  /** `p` is the leftmost position where `Slide\s*d` matches. */
  predicate IsFirstHeader(s: string, p: nat, d: char) {
    HeaderAt(s, p, d) && forall p' :: 0 <= p' < p ==> !HeaderAt(s, p', d)
  }

  /**
   * `extractRemainingSlides`: the text from the leftmost `Slide\s*2` on, split before every
   * newline that starts a slide header, each piece trimmed, empty pieces dropped. The result is
   * empty exactly when no `Slide\s*2` occurs.
   */
  function ExtractRemainingSlides(content: string): (r: seq<string>)
    ensures r == [] <==> forall p: nat :: !HeaderAt(content, p, '2')
    ensures forall x :: x in r ==> x != [] && IsTrimmed(x)
    ensures forall p: nat :: IsFirstHeader(content, p, '2') ==> r == CleanSlides(SplitSlides(content[p..]))
  {
    match FindHeader(content, 0, '2')
    case None => []
    case Some(p) =>
      assert IsFirstHeader(content, p, '2');
      assert forall p': nat :: IsFirstHeader(content, p', '2') ==> p' == p;
      var tail := content[p..];
      var pieces := SplitSlides(tail);
      assert Word[0] == 's' && SameLetter(content[p + 0], Word[0]);
      assert tail[0] == content[p] && !IsWhitespace(tail[0]);
      assert !IsSeparatorAt(tail, 0);
      assert pieces[0][0] == tail[0];
      TrimKeepsVisibleStart(pieces[0]);
      assert Trim(pieces[0]) in CleanSlides(pieces);
      CleanSlides(pieces)
  }
}
