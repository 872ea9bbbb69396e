/** What chunking keeps of a text. */
module ChunkerLaws {
  import opened Common
  import opened Text
  import opened Chunker

  // ---- Paragraphs ----

  function JoinLines(lines: seq<string>): string
    requires lines != []
  {
    if |lines| == 1 then lines[0] else lines[0] + "\n" + JoinLines(lines[1..])
  }

  /** The lines are the text between its newlines. */
  lemma {:induction false} LinesExactly(s: string)
    ensures JoinLines(SplitLines(s)) == s
    ensures forall i | 0 <= i < |SplitLines(s)| :: '\n' !in SplitLines(s)[i]
  {
    if s != [] {
      var rest, lines := SplitLines(s[1..]), SplitLines(s);
      LinesExactly(s[1..]);
      if s[0] == '\n' {
        assert lines[1..] == rest;
        assert JoinLines(lines) == [] + "\n" + JoinLines(rest);
      } else {
        LongerFirst(s[0], rest);
      }
      assert s == [s[0]] + s[1..];
    }
  }

  lemma LongerFirst(c: char, rest: seq<string>)
    requires rest != []
    ensures JoinLines([[c] + rest[0]] + rest[1..]) == [c] + JoinLines(rest)
  {
    var lines := [[c] + rest[0]] + rest[1..];
    assert lines[1..] == rest[1..];
    if |rest| > 1 {
      assert [c] + rest[0] + "\n" + JoinLines(rest[1..]) == [c] + (rest[0] + "\n" + JoinLines(rest[1..]));
    }
  }

  lemma TrimHas(s: string, c: char)
    requires c !in s
    ensures c !in TrimSpace(s)
  {
    TrimLeftHas(s, c);
    assert TrimSpace(s) <= TrimLeft(s);
  }

  /** `at` are the places of the lines that are not blank, in order. */
  ghost predicate PlacesOf(lines: seq<string>, at: seq<nat>) {
    && (forall j, k | 0 <= j < k < |at| :: at[j] < at[k])
    && (forall k | 0 <= k < |at| :: at[k] < |lines| && TrimSpace(lines[at[k]]) != "")
    && (forall i | 0 <= i < |lines| && TrimSpace(lines[i]) != "" :: i in at)
  }

  /** The texts are the lines at those places, trimmed. */
  ghost predicate AreTrimmed(texts: seq<string>, lines: seq<string>, at: seq<nat>) {
    PlacesOf(lines, at) && |texts| == |at| && forall k | 0 <= k < |at| :: texts[k] == TrimSpace(lines[at[k]])
  }

  lemma MoreBlank(init: seq<string>, line: string, texts: seq<string>, at: seq<nat>)
    requires AreTrimmed(texts, init, at) && TrimSpace(line) == ""
    ensures AreTrimmed(texts, init + [line], at)
  {
  }

  lemma MoreVisible(init: seq<string>, line: string, texts: seq<string>, at: seq<nat>)
    requires AreTrimmed(texts, init, at) && TrimSpace(line) != ""
    ensures AreTrimmed(texts + [TrimSpace(line)], init + [line], at + [|init|])
  {
    var lines, next := init + [line], at + [|init|];
    assert next[|at|] in next;
    forall i | 0 <= i < |lines| && TrimSpace(lines[i]) != ""
      ensures i in next
    {
      if i < |init| {
        assert i in at;
      }
    }
  }

  lemma {:induction false} TrimmedExactly(lines: seq<string>) returns (at: seq<nat>)
    ensures AreTrimmed(TrimmedLines(lines), lines, at)
    decreases |lines|
  {
    if lines == [] {
      at := [];
    } else {
      var n := |lines| - 1;
      var init, last := lines[..n], lines[n];
      assert lines == init + [last];
      at := TrimmedExactly(init);
      if TrimSpace(last) == "" {
        MoreBlank(init, last, TrimmedLines(init), at);
        assert TrimmedLines(lines) == TrimmedLines(init);
      } else {
        MoreVisible(init, last, TrimmedLines(init), at);
        at := at + [n];
      }
    }
  }

  /** The paragraphs of a text are its lines that are not blank, trimmed and in order, and none of them
      has a newline; a text without such a line is its own paragraph. */
  lemma ParagraphsExactly(text: string) returns (at: seq<nat>)
    ensures var lines, paras := SplitLines(UnixNewlines(text)), Paragraphs(text);
            if at == [] then paras == [text] && forall i | 0 <= i < |lines| :: TrimSpace(lines[i]) == ""
            else AreTrimmed(paras, lines, at) && forall k | 0 <= k < |paras| :: '\n' !in paras[k]
  {
    var lines, paras := SplitLines(UnixNewlines(text)), Paragraphs(text);
    at := TrimmedExactly(lines);
    LinesExactly(UnixNewlines(text));
    if at == [] {
      forall i | 0 <= i < |lines|
        ensures TrimSpace(lines[i]) == ""
      {
        assert i !in at;
      }
    } else {
      forall k | 0 <= k < |paras|
        ensures '\n' !in paras[k]
      {
        TrimHas(lines[at[k]], '\n');
      }
    }
  }

  // ---- Windows of one paragraph ----

  /** The windows put back together, leaving out what each shares with the one before. */
  function Reassemble(ws: seq<string>, overlap: nat): string {
    if ws == [] then []
    else if |ws| == 1 then ws[0]
    else Reassemble(ws[..|ws| - 1], overlap) + ws[|ws| - 1][Min(overlap, |ws[|ws| - 1]|)..]
  }

  lemma WindowEnds(ws: seq<string>, r: string, size: nat, step: nat, k: nat)
    requires 0 < step <= size < |r| && AreWindows(ws, r, size, step) && k < |ws|
    ensures k < |ws| - 1 ==> |ws[k]| == size
    ensures k > 0 ==> |ws[k]| > size - step
  {
    assert IsWindow(ws, r, size, step, k);
    if k > 0 {
      assert IsWindow(ws, r, size, step, k - 1);
    }
  }

  lemma NextSlice(r: string, i: nat, size: nat, step: nat)
    requires 0 < step <= size && i + size <= |r|
    ensures var end := Min(i + step + size, |r|);
            r[..i + size] + r[i + step..end][size - step..] == r[..end]
  {
    var end := Min(i + step + size, |r|);
    assert r[i + step..end][size - step..] == r[i + size..end];
  }

  lemma ReassembleNext(ws: seq<string>, overlap: nat)
    requires |ws| >= 2 && overlap <= |ws[|ws| - 1]|
    ensures Reassemble(ws, overlap) == Reassemble(ws[..|ws| - 1], overlap) + ws[|ws| - 1][overlap..]
  {
  }

  /** A window after the first starts `step` after the one before, which is full. */
  lemma WindowAfter(ws: seq<string>, r: string, size: nat, step: nat, k: nat)
    requires 0 < step <= size < |r| && AreWindows(ws, r, size, step) && 0 < k < |ws|
    ensures var i := StartOf(step, k - 1);
            && StartOf(step, k) == i + step && i + size < |r|
            && ws[k] == r[i + step..Min(i + step + size, |r|)] && |ws[k]| > size - step
  {
    WindowEnds(ws, r, size, step, k);
    assert IsWindow(ws, r, size, step, k) && IsWindow(ws, r, size, step, k - 1);
  }

  lemma PrefixGrows(ws: seq<string>, r: string, i: nat, size: nat, step: nat)
    requires 0 < step <= size && i + size < |r| && |ws| >= 2
    requires Reassemble(ws[..|ws| - 1], size - step) == r[..i + size]
    requires ws[|ws| - 1] == r[i + step..Min(i + step + size, |r|)] && |ws[|ws| - 1]| > size - step
    ensures Reassemble(ws, size - step) == r[..Min(i + step + size, |r|)]
  {
    ReassembleNext(ws, size - step);
    NextSlice(r, i, size, step);
  }

  lemma {:induction false} ReassemblePrefix(ws: seq<string>, r: string, size: nat, step: nat, k: nat)
    requires 0 < step <= size < |r| && AreWindows(ws, r, size, step) && k < |ws|
    ensures Reassemble(ws[..k + 1], size - step) == r[..Min(StartOf(step, k) + size, |r|)]
  {
    if k > 0 {
      ReassemblePrefix(ws, r, size, step, k - 1);
      WindowAfter(ws, r, size, step, k);
      var init, upTo := ws[..k], ws[..k + 1];
      assert upTo[..k] == init && upTo[k] == ws[k];
      assert ws[..k - 1 + 1] == init;
      PrefixGrows(upTo, r, StartOf(step, k - 1), size, step);
    } else {
      assert IsWindow(ws, r, size, step, 0);
      assert ws[..1] == [ws[0]];
    }
  }

  lemma ReassembleAll(ws: seq<string>, r: string, size: nat, step: nat)
    requires 0 < step <= size < |r| && AreWindows(ws, r, size, step)
    ensures Reassemble(ws, size - step) == r
  {
    var k := |ws| - 1;
    assert IsWindow(ws, r, size, step, k);
    ReassemblePrefix(ws, r, size, step, k);
    assert ws[..k + 1] == ws;
  }

  /** Nothing of a paragraph is skipped: its windows, less the overlaps, are the paragraph. */
  lemma WindowsCoverParagraph(r: string, size: nat, overlap: nat)
    requires overlap < size
    ensures Reassemble(Windows(r, size, overlap), overlap) == r
  {
    if |r| <= size {
      ShortParagraph(r, size, overlap);
    } else {
      LongParagraph(r, size, overlap);
      ReassembleAll(Windows(r, size, overlap), r, size, size - overlap);
    }
  }

  lemma SlicesOverlap(r: string, i: nat, size: nat, step: nat)
    requires 0 < step <= size && i + size < |r|
    ensures r[i..i + size][step..] == r[i + step..Min(i + step + size, |r|)][..size - step]
  {
    assert r[i..i + size][step..] == r[i + step..i + size];
    var end := Min(i + step + size, |r|);
    assert i + size <= end && r[i + step..end][..size - step] == r[i + step..i + size];
  }

  lemma NextWindowOverlaps(ws: seq<string>, r: string, size: nat, step: nat, k: nat)
    requires 0 < step <= size < |r| && AreWindows(ws, r, size, step) && k + 1 < |ws|
    ensures |ws[k]| == size && size - step < |ws[k + 1]| <= size
    ensures ws[k][step..] == ws[k + 1][..size - step]
  {
    WindowEnds(ws, r, size, step, k + 1);
    assert IsWindow(ws, r, size, step, k);
    assert IsWindow(ws, r, size, step, k + 1);
    SlicesOverlap(r, StartOf(step, k), size, step);
  }

  /** Consecutive windows share exactly `overlap` runes, and all but the last are full. */
  lemma WindowsOverlap(r: string, size: nat, overlap: nat, k: nat)
    requires overlap < size && k + 1 < |Windows(r, size, overlap)|
    ensures var ws := Windows(r, size, overlap);
            && |ws[k]| == size && overlap < |ws[k + 1]| <= size
            && ws[k][size - overlap..] == ws[k + 1][..overlap]
  {
    if |r| <= size {
      ShortParagraph(r, size, overlap);
    } else {
      LongParagraph(r, size, overlap);
      NextWindowOverlaps(Windows(r, size, overlap), r, size, size - overlap, k);
    }
  }

  /** A paragraph longer than a window is cut into as few windows as reach its end. */
  lemma WindowsAreFewest(r: string, size: nat, overlap: nat)
    requires overlap < size < |r|
    ensures var n := |Windows(r, size, overlap)|;
            n >= 2 && (n - 2) * (size - overlap) + size < |r| <= (n - 1) * (size - overlap) + size
  {
    WindowCountBounds(|r|, size, size - overlap);
  }

  // ---- Sizes ----

  lemma {:induction false} KeptSizes(ws: seq<string>, size: nat)
    requires forall w | w in ws :: |w| <= size
    ensures forall c | c in Kept(ws) :: 2 <= |c| <= size && !IsSpace(c[0]) && !IsSpace(c[|c| - 1])
    decreases |ws|
  {
    if ws != [] {
      var last := ws[|ws| - 1];
      assert last in ws;
      KeptSizes(ws[..|ws| - 1], size);
    }
  }

  lemma WindowSizes(r: string, size: nat, overlap: nat)
    requires overlap < size
    ensures forall w | w in Windows(r, size, overlap) :: |w| <= size
  {
    if |r| <= size { ShortParagraph(r, size, overlap); }
  }

  lemma {:induction false} AllWindowSizes(paras: seq<string>, size: nat, overlap: nat)
    requires overlap < size
    ensures forall w | w in AllWindows(paras, size, overlap) :: |w| <= size
    decreases |paras|
  {
    if paras != [] {
      AllWindowSizes(paras[..|paras| - 1], size, overlap);
      WindowSizes(paras[|paras| - 1], size, overlap);
    }
  }

  /** Every chunk has from 2 to `size` runes and starts and ends with a visible one. */
  lemma ChunkSizes(text: string, size: int, overlap: int)
    ensures forall c | c in Kept(WindowsOf(text, size, overlap)) ::
              2 <= |c| <= EffectiveSize(size) && !IsSpace(c[0]) && !IsSpace(c[|c| - 1])
  {
    var n := EffectiveSize(size);
    if TrimSpace(text) != [] {
      AllWindowSizes(Paragraphs(TrimSpace(text)), n, EffectiveOverlap(n, overlap));
    }
    KeptSizes(WindowsOf(text, size, overlap), n);
  }

  // ---- Visible runes ----

  lemma {:induction false} EraseConcat(a: string, b: string)
    ensures Erase(a + b) == Erase(a) + Erase(b)
  {
    if a == [] {
      assert a + b == b;
    } else {
      assert (a + b)[1..] == a[1..] + b;
      EraseConcat(a[1..], b);
    }
  }

  lemma {:induction false} EraseTrimLeft(s: string)
    ensures Erase(TrimLeft(s)) == Erase(s)
  {
    if s != [] && IsSpace(s[0]) {
      EraseTrimLeft(s[1..]);
    }
  }

  lemma {:induction false} EraseTrimRight(s: string)
    ensures Erase(TrimRight(s)) == Erase(s)
    decreases |s|
  {
    if s != [] && IsSpace(s[|s| - 1]) {
      var rest := s[..|s| - 1];
      EraseTrimRight(rest);
      assert s == rest + [s[|s| - 1]];
      EraseConcat(rest, [s[|s| - 1]]);
    }
  }

  lemma EraseTrim(s: string)
    ensures Erase(TrimSpace(s)) == Erase(s)
  {
    EraseTrimLeft(s);
    EraseTrimRight(TrimLeft(s));
  }

  lemma {:induction false} EraseNewlines(s: string)
    ensures Erase(UnixNewlines(s)) == Erase(s)
  {
    if s == [] {
    } else if |s| >= 2 && s[0] == '\r' && s[1] == '\n' {
      EraseNewlines(s[2..]);
      assert s[1..][1..] == s[2..];
    } else {
      EraseNewlines(s[1..]);
    }
  }

  lemma {:induction false} EraseLines(s: string)
    ensures Erase(Concat(SplitLines(s))) == Erase(s)
  {
    if s != [] {
      var rest := SplitLines(s[1..]);
      EraseLines(s[1..]);
      if s[0] == '\n' {
        assert ([[]] + rest)[1..] == rest;
        assert SplitLines(s) == [[]] + rest && Concat([[]] + rest) == Concat(rest);
      } else {
        var joined := [[s[0]] + rest[0]] + rest[1..];
        assert joined[1..] == rest[1..];
        assert Concat(joined) == [s[0]] + Concat(rest);
        assert SplitLines(s) == joined && ([s[0]] + Concat(rest))[1..] == Concat(rest);
      }
    }
  }

  lemma ConcatLast(ss: seq<string>)
    requires ss != []
    ensures Concat(ss) == Concat(ss[..|ss| - 1]) + ss[|ss| - 1]
  {
    var last := ss[|ss| - 1];
    assert ss == ss[..|ss| - 1] + [last];
    ConcatAppend(ss[..|ss| - 1], [last]);
    assert Concat([last]) == last;
  }

  lemma {:induction false} EraseTrimmedLines(parts: seq<string>)
    ensures Erase(Concat(TrimmedLines(parts))) == Erase(Concat(parts))
    decreases |parts|
  {
    if parts != [] {
      var before, last := parts[..|parts| - 1], parts[|parts| - 1];
      EraseTrimmedLines(before);
      EraseTrim(last);
      ConcatLast(parts);
      EraseConcat(Concat(before), last);
      ConcatAppend(TrimmedLines(before), [TrimSpace(last)]);
      EraseConcat(Concat(TrimmedLines(before)), TrimSpace(last));
      assert Concat([TrimSpace(last)]) == TrimSpace(last);
      assert TrimSpace(last) == [] ==> TrimmedLines(parts) == TrimmedLines(before);
    }
  }

  lemma EraseParagraphs(text: string)
    ensures Erase(Concat(Paragraphs(text))) == Erase(text)
  {
    var lines := SplitLines(UnixNewlines(text));
    EraseNewlines(text);
    EraseLines(UnixNewlines(text));
    EraseTrimmedLines(lines);
    assert Concat([text]) == text;
  }

  lemma {:induction false} ReassembleIsConcat(ws: seq<string>)
    ensures Reassemble(ws, 0) == Concat(ws)
    decreases |ws|
  {
    if |ws| > 1 {
      ReassembleIsConcat(ws[..|ws| - 1]);
      ConcatLast(ws);
    } else if |ws| == 1 {
      ConcatLast(ws);
      assert ws[..0] == [];
    }
  }

  lemma {:induction false} ConcatAllWindows(paras: seq<string>, size: nat)
    requires size > 0
    ensures Concat(AllWindows(paras, size, 0)) == Concat(paras)
    decreases |paras|
  {
    if paras != [] {
      var before, last := paras[..|paras| - 1], paras[|paras| - 1];
      ConcatAllWindows(before, size);
      WindowsCoverParagraph(last, size, 0);
      ReassembleIsConcat(Windows(last, size, 0));
      ConcatAppend(AllWindows(before, size, 0), Windows(last, size, 0));
      ConcatLast(paras);
    }
  }

  /** Without overlap the windows hold exactly the visible runes of the text. */
  lemma WindowsKeepText(text: string, size: int, overlap: int)
    requires EffectiveOverlap(EffectiveSize(size), overlap) == 0
    ensures Erase(Concat(WindowsOf(text, size, overlap))) == Erase(text)
  {
    var trimmed := TrimSpace(text);
    EraseTrim(text);
    if trimmed != [] {
      EraseParagraphs(trimmed);
      ConcatAllWindows(Paragraphs(trimmed), EffectiveSize(size));
    }
  }

  /** The windows that hold a single visible rune, which are not emitted. */
  function Singles(ws: seq<string>): nat {
    if ws == [] then 0
    else Singles(ws[..|ws| - 1]) + if |TrimSpace(ws[|ws| - 1])| == 1 then 1 else 0
  }

  lemma {:induction false} ErasedLengths(ws: seq<string>)
    ensures |Erase(Concat(ws))| == |Erase(Concat(Kept(ws)))| + Singles(ws)
    ensures Singles(ws) == 0 ==> Erase(Concat(ws)) == Erase(Concat(Kept(ws)))
    decreases |ws|
  {
    if ws != [] {
      var before, last := ws[..|ws| - 1], ws[|ws| - 1];
      ErasedLengths(before);
      ConcatLast(ws);
      EraseConcat(Concat(before), last);
      EraseTrim(last);
      if |TrimSpace(last)| >= 2 {
        ConcatAppend(Kept(before), [TrimSpace(last)]);
        assert Concat([TrimSpace(last)]) == TrimSpace(last);
        EraseConcat(Concat(Kept(before)), TrimSpace(last));
      }
    }
  }

  lemma {:induction false} SinglesZero(ws: seq<string>)
    ensures Singles(ws) == 0 <==> forall w | w in ws :: |TrimSpace(w)| != 1
    decreases |ws|
  {
    if ws != [] {
      var before, last := ws[..|ws| - 1], ws[|ws| - 1];
      SinglesZero(before);
      assert ws == before + [last];
    }
  }

  /** For any overlap: the chunks hold the visible runes of the windows, but for one of each window that
      has just one; so all of them exactly when there is no such window. */
  lemma ChunksKeepWindows(text: string, size: int, overlap: int)
    ensures var ws := WindowsOf(text, size, overlap);
            && |Erase(Concat(ws))| == |Erase(Concat(Kept(ws)))| + Singles(ws)
            && (Erase(Concat(Kept(ws))) == Erase(Concat(ws)) <==> forall w | w in ws :: |TrimSpace(w)| != 1)
  {
    ErasedLengths(WindowsOf(text, size, overlap));
    SinglesZero(WindowsOf(text, size, overlap));
  }

  /** Without overlap, chunking loses no visible rune exactly when no window holds just one. */
  lemma NothingVisibleIsLost(text: string, size: int, overlap: int)
    requires EffectiveOverlap(EffectiveSize(size), overlap) == 0
    ensures Erase(Concat(Kept(WindowsOf(text, size, overlap)))) == Erase(text)
            <==> forall w | w in WindowsOf(text, size, overlap) :: |TrimSpace(w)| != 1
  {
    WindowsKeepText(text, size, overlap);
    ChunksKeepWindows(text, size, overlap);
  }
}
