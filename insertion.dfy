/**
 * The fallback text insertion of `insertTextIntoEditor` (background.js:423-430): when the editor
 * shows fewer than ten visible characters after the primary insertion, the text is typed again in
 * slices of 100 characters.
 */
module Insertion {

  import opened Text

  const ChunkSize: nat := 100

  /** The verification that triggers the fallback: the editor's text, trimmed, is shorter than ten characters. */
  predicate LooksEmpty(editorText: string) {
    |Trim(editorText)| < 10
  }

  function Concat(parts: seq<string>): string {
    if parts == [] then [] else Concat(parts[..|parts| - 1]) + parts[|parts| - 1]
  }

  /**
   * The slices `text.substring(i, i + 100)` for `i = 0, 100, 200, ...` while `i < text.length`:
   * they spell the text in order, each holds 1 to 100 characters, only the last may be short,
   * and there are `ceil(|text| / 100)` of them.
   */
  method ChunkText(text: string) returns (chunks: seq<string>)
    ensures Concat(chunks) == text
    ensures forall k :: 0 <= k < |chunks| ==> 1 <= |chunks[k]| <= ChunkSize
    ensures forall k :: 0 <= k < |chunks| - 1 ==> |chunks[k]| == ChunkSize
    ensures |chunks| == (|text| + ChunkSize - 1) / ChunkSize
  {
    chunks := [];
    var i := 0;
    while i < |text|
      invariant i == ChunkSize * |chunks| && i <= |text| + ChunkSize - 1
      invariant i < |text| ==> Concat(chunks) == text[..i]
      invariant i >= |text| ==> Concat(chunks) == text
      invariant forall k :: 0 <= k < |chunks| ==> 1 <= |chunks[k]| <= ChunkSize
      invariant forall k :: 0 <= k < |chunks| - 1 ==> |chunks[k]| == ChunkSize
      invariant i <= |text| ==> forall k :: 0 <= k < |chunks| ==> |chunks[k]| == ChunkSize
      invariant i >= |text| ==> |chunks| == (|text| + ChunkSize - 1) / ChunkSize
      invariant i > |text| ==> |chunks| >= 1
    {
      var end := if i + ChunkSize <= |text| then i + ChunkSize else |text|;
      var piece := text[i..end];
      assert Concat(chunks + [piece]) == Concat(chunks) + piece;
      assert text[..end] == text[..i] + piece;
      chunks := chunks + [piece];
      i := i + ChunkSize;
    }
    if i == 0 {
      assert |text| == 0 && chunks == [];
    }
  }

  /**
   * The fallback of `insertTextIntoEditor`: nothing more is typed when the editor shows the text;
   * when it looks empty, the whole text is typed again in slices of at most 100 characters.
   */
  method RetypeIfMissing(editorText: string, text: string) returns (typed: seq<string>)
    ensures !LooksEmpty(editorText) ==> typed == []
    ensures LooksEmpty(editorText) ==> Concat(typed) == text
    ensures forall k :: 0 <= k < |typed| ==> 1 <= |typed[k]| <= ChunkSize
  {
    typed := [];
    if LooksEmpty(editorText) {
      typed := ChunkText(text);
    }
  }
}
