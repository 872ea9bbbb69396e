/** The RAG chunker. Texts are sequences of Unicode scalar values, so lengths count runes. */
module Chunker {
  import opened Common
  import opened Text

  /** ReplaceAll of CR LF by LF. */
  function UnixNewlines(s: string): string {
    if s == [] then []
    else if |s| >= 2 && s[0] == '\r' && s[1] == '\n' then ['\n'] + UnixNewlines(s[2..])
    else [s[0]] + UnixNewlines(s[1..])
  }

  function SplitLines(s: string): (lines: seq<string>)
    ensures lines != []
  {
    if s == [] then [[]]
    else
      var rest := SplitLines(s[1..]);
      if s[0] == '\n' then [[]] + rest else [[s[0]] + rest[0]] + rest[1..]
  }

  /** The visible runes. */
  function Erase(s: string): string {
    if s == [] then [] else (if IsSpace(s[0]) then [] else [s[0]]) + Erase(s[1..])
  }

  // ---- What the chunker computes ----

  function EffectiveSize(size: int): (n: nat)
    ensures n > 0
  {
    if size <= 0 then 800 else size
  }

  function EffectiveOverlap(size: nat, overlap: int): (n: nat)
    requires size > 0
    ensures n < size
  {
    if overlap < 0 || overlap >= size then size / 8 else overlap
  }

  /** Non-blank lines, trimmed. */
  function TrimmedLines(parts: seq<string>): seq<string> {
    if parts == [] then []
    else
      var last := TrimSpace(parts[|parts| - 1]);
      TrimmedLines(parts[..|parts| - 1]) + if last != [] then [last] else []
  }

  function Paragraphs(text: string): seq<string> {
    var paras := TrimmedLines(SplitLines(UnixNewlines(text)));
    if paras == [] then [text] else paras
  }

  /** How many windows a paragraph of n runes is cut into: one, and one more for each further step. */
  function WindowCount(n: nat, size: nat, step: nat): nat
    requires 0 < step <= size
  {
    if n <= size then 1 else 1 + (n - size + step - 1) / step
  }

  function Window(r: string, size: nat, step: nat, k: nat): string {
    r[Min(k * step, |r|)..Min(k * step + size, |r|)]
  }

  function Windows(r: string, size: nat, overlap: nat): seq<string>
    requires overlap < size
  {
    seq(WindowCount(|r|, size, size - overlap), k requires 0 <= k => Window(r, size, size - overlap, k))
  }

  function AllWindows(paras: seq<string>, size: nat, overlap: nat): seq<string>
    requires overlap < size
  {
    if paras == [] then []
    else AllWindows(paras[..|paras| - 1], size, overlap) + Windows(paras[|paras| - 1], size, overlap)
  }

  /** appendChunk: trimmed, and dropped when shorter than two runes. */
  function AppendChunk(out: seq<string>, c: string): seq<string> {
    if |TrimSpace(c)| >= 2 then out + [TrimSpace(c)] else out
  }

  function Kept(windows: seq<string>): seq<string> {
    if windows == [] then [] else AppendChunk(Kept(windows[..|windows| - 1]), windows[|windows| - 1])
  }

  /** Every window of a text, in order, before trimming. */
  function WindowsOf(text: string, size: int, overlap: int): seq<string> {
    var n := EffectiveSize(size);
    if TrimSpace(text) == [] then []
    else AllWindows(Paragraphs(TrimSpace(text)), n, EffectiveOverlap(n, overlap))
  }

  // ---- The code ----

  lemma WindowCountBounds(n: nat, size: nat, step: nat)
    requires 0 < step <= size < n
    ensures var c := WindowCount(n, size, step);
            c >= 2 && (c - 2) * step + size < n <= (c - 1) * step + size
  {
    var d := n - size + step - 1;
    assert d == step * (d / step) + d % step;
    assert step * (d / step) == (d / step) * step;
    assert d / step >= 1;
    assert (d / step - 1) * step == (d / step) * step - step;
  }

  /** A window reaches the end of the paragraph exactly when it is the last. */
  lemma LastWindow(n: nat, size: nat, step: nat, k: nat)
    requires 0 < step <= size < n && k < WindowCount(n, size, step)
    ensures k * step < n
    ensures k * step + size >= n <==> k == WindowCount(n, size, step) - 1
  {
    var c := WindowCount(n, size, step);
    WindowCountBounds(n, size, step);
    if k <= c - 2 {
      assert k * step <= (c - 2) * step;
    } else {
      assert (c - 1) * step == (c - 2) * step + step;
    }
  }

  method SplitParagraphs(text: string) returns (paras: seq<string>)
    ensures paras == Paragraphs(text)
  {
    var parts := SplitLines(UnixNewlines(text));
    paras := [];
    for i := 0 to |parts|
      invariant paras == TrimmedLines(parts[..i])
    {
      assert parts[..i + 1][..i] == parts[..i];
      if TrimSpace(parts[i]) != "" {
        paras := paras + [TrimSpace(parts[i])];
      }
    }
    assert parts[..|parts|] == parts;
    if paras == [] {
      paras := [text];
    }
  }

  lemma OneMoreParagraph(paras: seq<string>, p: nat, size: nat, overlap: nat)
    requires p < |paras| && overlap < size
    ensures AllWindows(paras[..p + 1], size, overlap) ==
            AllWindows(paras[..p], size, overlap) + Windows(paras[p], size, overlap)
  {
    assert paras[..p + 1][..p] == paras[..p];
  }

  method Chunk(text: string, size: int, overlap: int) returns (out: seq<string>)
    ensures out == Kept(WindowsOf(text, size, overlap))
    ensures TrimSpace(text) == "" ==> out == []
    ensures TrimSpace(text) != "" ==>
              var n: nat := if size > 0 then size else 800;
              var o: nat := if 0 <= overlap < n then overlap else n / 8;
              out == Kept(AllWindows(Paragraphs(TrimSpace(text)), n, o))
  {
    var n: nat := if size <= 0 then 800 else size;
    var o: nat := if overlap < 0 || overlap >= n then n / 8 else overlap;
    var trimmed := TrimSpace(text);
    if trimmed == "" {
      return [];
    }
    out := [];
    var paras := SplitParagraphs(trimmed);
    for p := 0 to |paras|
      invariant out == Kept(AllWindows(paras[..p], n, o))
    {
      OneMoreParagraph(paras, p, n, o);
      out := ChunkParagraph(out, paras[p], n, o, AllWindows(paras[..p], n, o));
    }
    assert paras[..|paras|] == paras;
  }

  lemma KeptAppend(windows: seq<string>, w: string)
    ensures Kept(windows + [w]) == AppendChunk(Kept(windows), w)
  {
    assert (windows + [w])[..|windows|] == windows;
  }

  lemma KeptNext(before: seq<string>, ws: seq<string>, k: nat)
    requires k < |ws|
    ensures Kept(before + ws[..k + 1]) == AppendChunk(Kept(before + ws[..k]), ws[k])
  {
    KeptAppend(before + ws[..k], ws[k]);
    assert before + ws[..k] + [ws[k]] == before + ws[..k + 1];
  }

  lemma ShortParagraph(r: string, size: nat, overlap: nat)
    requires overlap < size && |r| <= size
    ensures Windows(r, size, overlap) == [r]
  {
    assert Window(r, size, size - overlap, 0) == r;
  }

  /** Where the k-th window starts, counting up step by step as the loop does. */
  function StartOf(step: nat, k: nat): nat {
    if k == 0 then 0 else StartOf(step, k - 1) + step
  }

  lemma {:induction false} StartIsProduct(step: nat, k: nat)
    ensures StartOf(step, k) == k * step
  {
    if k > 0 {
      StartIsProduct(step, k - 1);
      assert (k - 1) * step + step == k * step;
    }
  }

  /** The k-th of the windows of r starts k steps in, and the last one reaches the end. */
  ghost predicate IsWindow(ws: seq<string>, r: string, size: nat, step: nat, k: nat) {
    && k < |ws| && StartOf(step, k) < |r|
    && ws[k] == r[StartOf(step, k)..Min(StartOf(step, k) + size, |r|)]
    && (StartOf(step, k) + size >= |r| <==> k == |ws| - 1)
  }

  ghost predicate AreWindows(ws: seq<string>, r: string, size: nat, step: nat) {
    ws != [] && forall k | 0 <= k < |ws| :: IsWindow(ws, r, size, step, k)
  }

  lemma WindowAt(r: string, size: nat, overlap: nat, k: nat)
    requires overlap < size < |r| && k < WindowCount(|r|, size, size - overlap)
    ensures IsWindow(Windows(r, size, overlap), r, size, size - overlap, k)
  {
    LastWindow(|r|, size, size - overlap, k);
    StartIsProduct(size - overlap, k);
    assert Windows(r, size, overlap)[k] == Window(r, size, size - overlap, k);
  }

  lemma LongParagraph(r: string, size: nat, overlap: nat)
    requires overlap < size < |r|
    ensures AreWindows(Windows(r, size, overlap), r, size, size - overlap)
  {
    WindowCountBounds(|r|, size, size - overlap);
    var ws, step := Windows(r, size, overlap), size - overlap;
    forall k | 0 <= k < |ws|
      ensures IsWindow(ws, r, size, step, k)
    {
      WindowAt(r, size, overlap, k);
    }
  }

  /** The body of the loop over paragraphs; `before` are the windows cut so far. */
  method ChunkParagraph(soFar: seq<string>, r: string, size: nat, overlap: nat, ghost before: seq<string>)
    returns (out: seq<string>)
    requires overlap < size && soFar == Kept(before)
    ensures out == Kept(before + Windows(r, size, overlap))
  {
    if |r| <= size {
      ShortParagraph(r, size, overlap);
      KeptAppend(before, r);
      return AppendChunk(soFar, r);
    }
    LongParagraph(r, size, overlap);
    out := Slide(soFar, r, size, size - overlap, before, Windows(r, size, overlap));
  }

  /** The sliding window over a paragraph longer than `size`. */
  method Slide(soFar: seq<string>, r: string, size: nat, step: nat, ghost before: seq<string>, ghost ws: seq<string>)
    returns (out: seq<string>)
    requires 0 < step <= size < |r| && AreWindows(ws, r, size, step) && soFar == Kept(before)
    ensures out == Kept(before + ws)
  {
    out := soFar;
    var i := 0;
    ghost var k := 0;
    assert before + ws[..0] == before;
    assert IsWindow(ws, r, size, step, 0);
    while i < |r|
      invariant k < |ws| && i == StartOf(step, k) < |r|
      invariant out == Kept(before + ws[..k])
      decreases |r| - i
    {
      assert IsWindow(ws, r, size, step, k);
      var end := i + size;
      if end > |r| {
        end := |r|;
      }
      out := AppendChunk(out, r[i..end]);
      KeptNext(before, ws, k);
      if end == |r| {
        assert ws[..k + 1] == ws;
        return;
      }
      assert IsWindow(ws, r, size, step, k + 1);
      i := i + step;
      k := k + 1;
    }
    assert false;
  }
}
