/**
 * How the automation names things: the key a file's result is stored under
 * (background.js:178), the base name the download listener renames exports to
 * (background.js:242-243), the second, stricter derivation used when renaming the
 * presentation (background.js:735-736), and the listener's renaming decision
 * (background.js:46-64).
 */
module Names {

  import opened Wrappers
  import opened Text

  /** A queued input file as it arrives with the start request; an absent `webkitRelativePath` is "". */
  datatype FileItem = FileItem(name: string, relativePath: string, content: string)

  const InputDir: string := "input/"

  /**
   * The name a file's result is recorded under: its relative path with the first "input/" removed
   * when the path is non-empty, its plain name otherwise.
   */
  function FileName(f: FileItem): (r: string)
    ensures f.relativePath == [] ==> r == f.name
    ensures f.relativePath != [] && !Contains(f.relativePath, InputDir) ==> r == f.relativePath
    ensures f.relativePath != [] && Contains(f.relativePath, InputDir) ==> |r| == |f.relativePath| - |InputDir|
  {
    if f.relativePath != [] then
      var p := f.relativePath;
      var found := IndexOf(p, InputDir, 0);
      assert found.Some? ==> IsFirstOccurrence(p, InputDir, found.value);
      ReplaceFirst(p, InputDir, "")
    else f.name
  }

  /** Removing the first "input/" is undone by putting it back at the same place. */
  lemma FileNameRestoresPath(f: FileItem, i: nat)
    requires f.relativePath != [] && IsFirstOccurrence(f.relativePath, InputDir, i)
    ensures |FileName(f)| == |f.relativePath| - |InputDir|
    ensures FileName(f)[..i] + InputDir + FileName(f)[i..] == f.relativePath
  {
    var p := f.relativePath;
    var r := FileName(f);
    assert r == p[..i] + p[i + |InputDir|..];
    assert r[..i] == p[..i];
    assert r[i..] == p[i + |InputDir|..];
    assert p == p[..i] + p[i..i + |InputDir|] + p[i + |InputDir|..];
  }

  predicate Lacks(s: string, c: char) {
    forall k :: 0 <= k < |s| ==> s[k] != c
  }

  function Last(parts: seq<string>): string
    requires parts != []
  {
    parts[|parts| - 1]
  }

  /** Joining ends with the last part, preceded by the separator when there is more than one part. */
  lemma {:induction false} JoinEndsWithLast(parts: seq<string>, c: char)
    requires |parts| >= 2
    ensures Join(parts, c) == Join(parts[..|parts| - 1], c) + [c] + Last(parts)
    decreases |parts|
  {
    if |parts| > 2 {
      JoinEndsWithLast(parts[1..], c);
      assert parts[1..][..|parts| - 2] == parts[1..|parts| - 1];
      assert parts[..|parts| - 1][1..] == parts[1..|parts| - 1];
    }
  }

  /** `s.split(c).pop()`: the text after the last `c`, the whole string when there is none. */
  function LastPiece(s: string, c: char): (r: string)
    ensures Lacks(r, c) && |r| <= |s| && r == s[|s| - |r|..]
    ensures |r| < |s| ==> s[|s| - |r| - 1] == c
  {
    var parts := SplitOn(s, c);
    assert Last(parts) in parts;
    if |parts| >= 2 then
      JoinEndsWithLast(parts, c);
      Last(parts)
    else
      Last(parts)
  }

  /** `s.split(c)[0]`: the text before the first `c`, the whole string when there is none. */
  function FirstPiece(s: string, c: char): (r: string)
    ensures Lacks(r, c) && |r| <= |s| && r == s[..|r|]
    ensures |r| < |s| ==> s[|r|] == c
  {
    var parts := SplitOn(s, c);
    assert parts[0] in parts;
    if |parts| >= 2 then
      assert Join(parts, c) == parts[0] + [c] + Join(parts[1..], c);
      parts[0]
    else
      parts[0]
  }

  /** `fileName.split('/').pop().split('-')[0]`, the name exports are renamed to. */
  function DownloadBaseName(fileName: string): (r: string)
    ensures Lacks(r, '/') && Lacks(r, '-') && |r| <= |fileName|
  {
    var segment := LastPiece(fileName, '/');
    var r := FirstPiece(segment, '-');
    assert forall k :: 0 <= k < |r| ==> r[k] == segment[k];
    r
  }

  /** `baseName.split('.')[0].split('-')[0]`, the name given to the presentation itself. */
  function PresentationName(fileName: string): (r: string)
    ensures Lacks(r, '/') && Lacks(r, '.') && Lacks(r, '-') && |r| <= |fileName|
  {
    var segment := LastPiece(fileName, '/');
    var stem := FirstPiece(segment, '.');
    var r := FirstPiece(stem, '-');
    assert forall k :: 0 <= k < |stem| ==> stem[k] == segment[k];
    assert forall k :: 0 <= k < |r| ==> r[k] == stem[k];
    r
  }

  /** `r` sits in `s` at `a`, right after the last '/', and runs up to the next '-' or to the end. */
  ghost predicate IsBaseNameAt(s: string, r: string, a: nat) {
    a + |r| <= |s| && s[a..a + |r|] == r
    && (a == 0 || s[a - 1] == '/') && Lacks(s[a..], '/')
    && Lacks(r, '-') && (a + |r| == |s| || s[a + |r|] == '-')
  }

  /** The export base name is the last path segment up to its first '-'. */
  lemma DownloadBaseNameSpec(fileName: string)
    ensures Lacks(DownloadBaseName(fileName), '/')
    ensures IsBaseNameAt(fileName, DownloadBaseName(fileName), |fileName| - |LastPiece(fileName, '/')|)
  {
    var seg := LastPiece(fileName, '/');
    var a := |fileName| - |seg|;
    var r := DownloadBaseName(fileName);
    assert r == seg[..|r|];
    assert fileName[a..] == seg;
    assert fileName[a..a + |r|] == seg[..|r|];
  }

  /**
   * The two derivations disagree exactly when the export base name holds a '.': the presentation
   * name then stops at the first '.', and is otherwise the same string.
   */
  lemma PresentationNameIsPrefix(fileName: string)
    ensures StartsWith(DownloadBaseName(fileName), PresentationName(fileName))
    ensures PresentationName(fileName) == DownloadBaseName(fileName) <==> Lacks(DownloadBaseName(fileName), '.')
    ensures var r, d := PresentationName(fileName), DownloadBaseName(fileName);
            |r| < |d| ==> d[|r|] == '.'
  {
    var seg := LastPiece(fileName, '/');
    var d := FirstPiece(seg, '-');
    var p := FirstPiece(seg, '.');
    var r := FirstPiece(p, '-');
    if |d| <= |p| {
      assert d == p[..|d|];
      if |d| < |p| {
        assert p[|d|] == seg[|d|] == '-';
      }
      assert r == d;
    } else {
      assert p == d[..|p|];
      assert d[|p|] == seg[|p|] == '.';
      assert r == p[..|r|];
      assert r == d[..|r|];
      assert r == p;
    }
  }

  const GammaDocs: string := "https://gamma.app/docs/"

  /** `filename.substring(filename.lastIndexOf('.'))`: from the last '.' on, or the whole name when it has none. */
  function Extension(filename: string): (r: string)
    ensures |r| <= |filename|
    ensures Lacks(filename, '.') ==> r == filename
    ensures !Lacks(filename, '.') ==> r != [] && r[0] == '.' && Lacks(r[1..], '.') && r == filename[|filename| - |r|..]
  {
    SubstringFrom(filename, LastIndexOf(filename, '.'))
  }

  /** The name a matching download is given: the base name followed by the original extension. */
  function RenamedDownload(baseName: string, filename: string): (r: string)
    ensures StartsWith(r, baseName) && r[|baseName|..] == Extension(filename)
  {
    baseName + Extension(filename)
  }

  /** Renaming keeps the extension of a dotted download; a download without a dot has its whole name appended. */
  lemma RenamedDownloadKeepsExtension(baseName: string, filename: string)
    ensures !Lacks(filename, '.') ==> Extension(RenamedDownload(baseName, filename)) == Extension(filename)
    ensures Lacks(filename, '.') ==> RenamedDownload(baseName, filename) == baseName + filename
  {
    if !Lacks(filename, '.') {
      var e := Extension(filename);
      var n := RenamedDownload(baseName, filename);
      var i := LastIndexOf(n, '.');
      assert n[|baseName|] == '.';
      assert i == |baseName| by {
        forall k | |baseName| < k < |n| ensures n[k] != '.' {
          assert n[k] == e[1..][k - |baseName| - 1];
        }
      }
      assert n[|baseName|..] == e;
    }
  }

  /**
   * The download listener's decision: rename only while a batch runs, a non-empty base name is set
   * and the download comes from a page under "https://gamma.app/docs/".
   */
  function DownloadSuggestion(isRunning: bool, baseName: Option<string>, filename: string, referrer: string): (r: Option<string>)
    ensures r.Some? <==> isRunning && baseName.Some? && baseName.value != [] && StartsWith(referrer, GammaDocs)
    ensures r.Some? ==> StartsWith(r.value, baseName.value) && r.value[|baseName.value|..] == Extension(filename)
  {
    if isRunning && baseName.Some? && baseName.value != [] && referrer != [] && StartsWith(referrer, GammaDocs) then
      Some(RenamedDownload(baseName.value, filename))
    else
      None
  }
}
