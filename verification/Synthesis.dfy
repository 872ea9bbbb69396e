/** The final answer of a tool conversation, cut into stream chunks and put together again. */
module Synthesis {
  import opened Common
  import opened Text
  import opened Sse
  import opened SseLaws

  datatype Usage = Usage(promptTokens: int, completionTokens: int, totalTokens: int)

  datatype Choice = Choice(content: string, finish: string)

  datatype AnswerChunk = AnswerChunk(choices: seq<Choice>, usage: Option<Usage>)

  function Delta(content: string): AnswerChunk {
    AnswerChunk([Choice(content, "")], None)
  }

  const STOP := AnswerChunk([Choice("", "stop")], None)

  const BATCH_BYTES := 16

  /** Full: sixteen bytes or more, and less without the last rune. */
  ghost predicate Full(s: string) {
    s != [] && Utf8Len(s) >= 16 && Utf8Len(s[..|s| - 1]) < 16
  }

  /** Full deltas and, when runes are left over, one shorter last one. */
  ghost predicate CutGreedily(deltas: seq<string>, content: string) {
    && Concat(deltas) == content
    && (forall i | 0 <= i < |deltas| - 1 :: Full(deltas[i]))
    && (deltas != [] ==>
          var last := deltas[|deltas| - 1];
          Full(last) || 0 < Utf8Len(last) < 16)
  }

  lemma FullSize(s: string)
    requires Full(s)
    ensures BATCH_BYTES <= Utf8Len(s) <= BATCH_BYTES + 3
  {
  }

  /** The deltas are determined by the text. */
  lemma {:induction false} CutIsUnique(a: seq<string>, b: seq<string>, content: string)
    requires CutGreedily(a, content) && CutGreedily(b, content)
    ensures a == b
  {
    if a == [] || b == [] {
      FirstIsNotEmpty(a);
      FirstIsNotEmpty(b);
    } else {
      SameFirst(a, b, content);
      var rest := content[|a[0]|..];
      TailCut(a, content);
      TailCut(b, content);
      CutIsUnique(a[1..], b[1..], rest);
    }
  }

  lemma FirstIsNotEmpty(a: seq<string>)
    requires CutGreedily(a, Concat(a))
    ensures a != [] ==> a[0] != [] && Concat(a) != []
  {
    if a != [] && |a| > 1 {
      assert Full(a[0]);
    }
  }

  lemma TailCut(a: seq<string>, content: string)
    requires a != [] && CutGreedily(a, content)
    ensures CutGreedily(a[1..], content[|a[0]|..])
  {
    assert content[|a[0]|..] == Concat(a[1..]);
    forall i | 0 <= i < |a[1..]| - 1
      ensures Full(a[1..][i])
    {
      assert Full(a[i + 1]);
    }
  }

  lemma {:induction false} Utf8LenMonotone(s: string, m: nat)
    requires m <= |s|
    ensures Utf8Len(s[..m]) <= Utf8Len(s) && (m < |s| ==> Utf8Len(s[..m]) < Utf8Len(s))
    decreases |s|
  {
    if m < |s| {
      Utf8LenMonotone(s[..|s| - 1], m);
      assert s[..|s| - 1][..m] == s[..m];
    } else {
      assert s[..m] == s;
    }
  }

  lemma SameFirst(a: seq<string>, b: seq<string>, content: string)
    requires a != [] && b != [] && CutGreedily(a, content) && CutGreedily(b, content)
    ensures a[0] == b[0]
  {
    FirstIsNotEmpty(a);
    FirstIsNotEmpty(b);
    assert a[0] <= content && b[0] <= content;
    if |a[0]| < |b[0]| {
      NotShorter(a, b, content);
    } else if |b[0]| < |a[0]| {
      NotShorter(b, a, content);
    }
  }

  /** A delta's proper prefixes are not full. */
  lemma PrefixIsShort(p: string, delta: string)
    requires p < delta && (Full(delta) || Utf8Len(delta) < BATCH_BYTES)
    ensures !Full(p)
  {
    var init := delta[..|delta| - 1];
    assert init[..|p|] == p;
    Utf8LenMonotone(init, |p|);
    Utf8LenMonotone(delta, |init|);
  }

  lemma NotShorter(a: seq<string>, b: seq<string>, content: string)
    requires a != [] && b != [] && CutGreedily(a, content) && CutGreedily(b, content)
    ensures |a[0]| >= |b[0]|
  {
    assert a[0] <= content && b[0] <= content;
    if |a| == 1 {
      assert Concat(a[1..]) == [] && content == a[0];
    } else {
      assert Full(a[0]) && (Full(b[0]) || Utf8Len(b[0]) < BATCH_BYTES);
      if |a[0]| < |b[0]| {
        PrefixIsShort(a[0], b[0]);
      }
    }
  }

  /** Full deltas so far, each with its chunk, and a rest that is not full. */
  ghost predicate Cutting(chunks: seq<AnswerChunk>, deltas: seq<string>, rest: string, done: string) {
    && Concat(deltas) + rest == done
    && |chunks| == |deltas|
    && (forall k | 0 <= k < |deltas| :: chunks[k] == Delta(deltas[k]) && Full(deltas[k]))
    && Utf8Len(rest) < BATCH_BYTES
  }

  lemma CutRune(chunks: seq<AnswerChunk>, deltas: seq<string>, rest: string, done: string, c: char)
    requires Cutting(chunks, deltas, rest, done)
    ensures var sb := rest + [c];
            if Utf8Len(sb) >= BATCH_BYTES then Cutting(chunks + [Delta(sb)], deltas + [sb], "", done + [c])
            else Cutting(chunks, deltas, sb, done + [c])
  {
    var sb := rest + [c];
    Utf8LenAppend(rest, c);
    assert sb[..|rest|] == rest;
    assert Concat(deltas) + sb == done + [c];
    ConcatOne(deltas, sb);
    assert Concat(deltas + [sb]) + "" == done + [c];
  }

  lemma ConcatOne(deltas: seq<string>, delta: string)
    ensures Concat(deltas + [delta]) == Concat(deltas) + delta
  {
    ConcatAppend(deltas, [delta]);
    assert Concat([delta]) == delta;
  }

  /** A rest makes the last delta. */
  lemma CutEnds(chunks: seq<AnswerChunk>, deltas: seq<string>, rest: string, content: string)
    requires Cutting(chunks, deltas, rest, content)
    ensures if rest == "" then CutGreedily(deltas, content) else CutGreedily(deltas + [rest], content)
  {
    ConcatOne(deltas, rest);
    assert rest == "" ==> Concat(deltas) + rest == Concat(deltas);
    assert rest != "" ==> Utf8Len(rest) > 0;
  }

  lemma ChunksEnd(chunks: seq<AnswerChunk>, deltas: seq<string>, content: string, usage: Usage)
    requires CutGreedily(deltas, content) && |chunks| == |deltas|
    requires forall k | 0 <= k < |deltas| :: chunks[k] == Delta(deltas[k])
    ensures Synthesized(chunks + [STOP] + [AnswerChunk([], Some(usage))], deltas, content, usage)
  {
  }

  method CutContent(content: string) returns (chunks: seq<AnswerChunk>, sb: string, ghost deltas: seq<string>)
    ensures Cutting(chunks, deltas, sb, content)
  {
    chunks, deltas, sb := [], [], "";
    for i := 0 to |content|
      invariant Cutting(chunks, deltas, sb, content[..i])
    {
      CutRune(chunks, deltas, sb, content[..i], content[i]);
      assert content[..i + 1] == content[..i] + [content[i]];
      sb := sb + [content[i]];
      if Utf8Len(sb) >= BATCH_BYTES {
        chunks := chunks + [Delta(sb)];
        deltas := deltas + [sb];
        sb := "";
      }
    }
    assert content[..|content|] == content;
  }

  method SynthesizeChunks(content: string, usage: Usage) returns (chunks: seq<AnswerChunk>)
    ensures exists deltas :: Synthesized(chunks, deltas, content, usage)
  {
    var sb: string;
    ghost var deltas;
    chunks, sb, deltas := CutContent(content);
    CutEnds(chunks, deltas, sb, content);
    if |sb| > 0 {
      chunks := chunks + [Delta(sb)];
      deltas := deltas + [sb];
    }
    ChunksEnd(chunks, deltas, content, usage);
    chunks := chunks + [STOP];
    chunks := chunks + [AnswerChunk([], Some(usage))];
  }

  // ---- Merging ----

  function ChoiceTexts(choices: seq<Choice>): string {
    if choices == [] then "" else ChoiceTexts(choices[..|choices| - 1]) + choices[|choices| - 1].content
  }

  function Merged(chunks: seq<AnswerChunk>): string {
    if chunks == [] then "" else Merged(chunks[..|chunks| - 1]) + ChoiceTexts(chunks[|chunks| - 1].choices)
  }

  method MergeContent(chunks: seq<AnswerChunk>) returns (text: string)
    ensures text == Merged(chunks)
  {
    text := "";
    for i := 0 to |chunks|
      invariant text == Merged(chunks[..i])
    {
      var choices := chunks[i].choices;
      assert chunks[..i + 1][..i] == chunks[..i];
      for c := 0 to |choices|
        invariant text == Merged(chunks[..i]) + ChoiceTexts(choices[..c])
      {
        assert choices[..c + 1][..c] == choices[..c];
        text := text + choices[c].content;
      }
      assert choices[..|choices|] == choices;
    }
    assert chunks[..|chunks|] == chunks;
  }

  /** The chunks of an answer: its deltas, one stop, one usage. */
  ghost predicate Synthesized(chunks: seq<AnswerChunk>, deltas: seq<string>, content: string, usage: Usage) {
    && CutGreedily(deltas, content)
    && |chunks| == |deltas| + 2
    && (forall i | 0 <= i < |deltas| :: chunks[i] == AnswerChunk([Choice(deltas[i], "")], None))
    && chunks[|deltas|] == AnswerChunk([Choice("", "stop")], None)
    && chunks[|deltas| + 1] == AnswerChunk([], Some(usage))
  }

  lemma {:induction false} MergedDeltas(chunks: seq<AnswerChunk>, deltas: seq<string>, n: nat)
    requires n <= |deltas| && n <= |chunks| && forall i | 0 <= i < n :: chunks[i] == Delta(deltas[i])
    ensures Merged(chunks[..n]) == Concat(deltas[..n])
  {
    if n > 0 {
      MergedDeltas(chunks, deltas, n - 1);
      assert chunks[..n][..n - 1] == chunks[..n - 1];
      var last := chunks[n - 1].choices;
      assert last[..0] == [] && ChoiceTexts(last) == deltas[n - 1];
      assert deltas[..n] == deltas[..n - 1] + [deltas[n - 1]];
      ConcatAppend(deltas[..n - 1], [deltas[n - 1]]);
      assert Concat([deltas[n - 1]]) == deltas[n - 1];
    }
  }

  /** Merging gives the answer back; every delta but the last has sixteen to nineteen bytes. */
  lemma MergeUndoesSynthesis(chunks: seq<AnswerChunk>, deltas: seq<string>, content: string, usage: Usage)
    requires Synthesized(chunks, deltas, content, usage)
    ensures Merged(chunks) == content
    ensures forall i | 0 <= i < |deltas| - 1 :: 16 <= Utf8Len(deltas[i]) <= 19
    ensures deltas != [] ==> 0 < Utf8Len(deltas[|deltas| - 1]) <= 19
  {
    var n := |deltas|;
    MergedDeltas(chunks, deltas, n);
    assert deltas[..n] == deltas;
    assert chunks[..n + 1][..n] == chunks[..n] && chunks[..n + 2][..n + 1] == chunks[..n + 1] && chunks[..n + 2] == chunks;
    assert STOP.choices[..0] == [] && ChoiceTexts(STOP.choices) == "";
    assert Merged(chunks[..n + 1]) == content;
    assert ChoiceTexts([]) == "";
    forall i | 0 <= i < |deltas| - 1
      ensures BATCH_BYTES <= Utf8Len(deltas[i]) <= BATCH_BYTES + 3
    {
      FullSize(deltas[i]);
    }
    if deltas != [] && Full(deltas[n - 1]) {
      FullSize(deltas[n - 1]);
    }
  }

  // ---- From the handler to the client ----

  function EventsOf(toolEvents: seq<string>): seq<Write> {
    if toolEvents == [] then []
    else EventsOf(toolEvents[..|toolEvents| - 1]) + [Event("x-tool-call", toolEvents[|toolEvents| - 1])]
  }

  /** The chunks as data frames; `encode` gives their JSON texts. */
  function DataOf(chunks: seq<AnswerChunk>, encode: AnswerChunk -> string): seq<Write> {
    if chunks == [] then []
    else DataOf(chunks[..|chunks| - 1], encode) + [Data(encode(chunks[|chunks| - 1]))]
  }

  /** The tool path's streamed answer: an event per tool call, the chunks, a metering event, Done. */
  function AnswerWrites(toolEvents: seq<string>, chunks: seq<AnswerChunk>, encode: AnswerChunk -> string,
                        metering: string): seq<Write> {
    EventsOf(toolEvents) + DataOf(chunks, encode) + [Event("x-metering", metering)] + [Done]
  }

  /** The text of the answer's body. */
  function EventFrames(toolEvents: seq<string>): string {
    if toolEvents == [] then ""
    else
      EventFrames(toolEvents[..|toolEvents| - 1]) + ("event: x-tool-call\ndata: " + toolEvents[|toolEvents| - 1] + "\n\n")
  }

  function DataFrames(chunks: seq<AnswerChunk>, encode: AnswerChunk -> string): string {
    if chunks == [] then ""
    else DataFrames(chunks[..|chunks| - 1], encode) + ("data: " + encode(chunks[|chunks| - 1]) + "\n\n")
  }

  function BodyText(toolEvents: seq<string>, chunks: seq<AnswerChunk>, encode: AnswerChunk -> string, metering: string): string {
    EventFrames(toolEvents) + DataFrames(chunks, encode) + ("event: x-metering\ndata: " + metering + "\n\n")
    + "data: [DONE]\n\n"
  }

  lemma {:induction false} EventsText(toolEvents: seq<string>)
    ensures Transcript(EventsOf(toolEvents)) == EventFrames(toolEvents)
  {
    if toolEvents != [] {
      var m := |toolEvents| - 1;
      var init, e := toolEvents[..m], toolEvents[m];
      EventsText(init);
      TranscriptAppend(EventsOf(init), Event("x-tool-call", e));
      EventFrame(e);
    }
  }

  lemma EventFrame(e: string)
    ensures Rendered(Event("x-tool-call", e)) == "event: x-tool-call\ndata: " + e + "\n\n"
    ensures Rendered(Event("x-metering", e)) == "event: x-metering\ndata: " + e + "\n\n"
  {
    assert "event: " + "x-tool-call" + "\ndata: " == "event: x-tool-call\ndata: ";
    assert "event: " + "x-metering" + "\ndata: " == "event: x-metering\ndata: ";
  }

  lemma {:induction false} DataText(before: seq<Write>, chunks: seq<AnswerChunk>, encode: AnswerChunk -> string)
    ensures Transcript(before + DataOf(chunks, encode)) == Transcript(before) + DataFrames(chunks, encode)
  {
    if chunks == [] {
      assert before + [] == before && Transcript(before) + "" == Transcript(before);
    } else {
      var m := |chunks| - 1;
      DataText(before, chunks[..m], encode);
      DataOfNext(before, chunks, encode);
      TranscriptAppend(before + DataOf(chunks[..m], encode), Data(encode(chunks[m])));
      Associates(Transcript(before), DataFrames(chunks[..m], encode), Rendered(Data(encode(chunks[m]))));
    }
  }

  lemma AnswerText(toolEvents: seq<string>, chunks: seq<AnswerChunk>, encode: AnswerChunk -> string, metering: string)
    ensures Transcript(AnswerWrites(toolEvents, chunks, encode, metering)) == BodyText(toolEvents, chunks, encode, metering)
  {
    var ws := EventsOf(toolEvents) + DataOf(chunks, encode);
    EventsText(toolEvents);
    DataText(EventsOf(toolEvents), chunks, encode);
    TranscriptAppend(ws, Event("x-metering", metering));
    TranscriptAppend(ws + [Event("x-metering", metering)], Done);
    EventFrame(metering);
  }

  lemma DataOfNext(before: seq<Write>, chunks: seq<AnswerChunk>, encode: AnswerChunk -> string)
    requires chunks != []
    ensures var m := |chunks| - 1;
            before + DataOf(chunks, encode) == before + DataOf(chunks[..m], encode) + [Data(encode(chunks[m]))]
  {
    var m := |chunks| - 1;
    Associates(before, DataOf(chunks[..m], encode), [Data(encode(chunks[m]))]);
  }

  method WriteChunks(sse: SSEWriter, chunks: seq<AnswerChunk>, encode: AnswerChunk -> string, ghost before: seq<Write>)
    requires !sse.closed && sse.out == Transcript(before)
    modifies sse`out
    ensures sse.out == Transcript(before + DataOf(chunks, encode))
  {
    assert before + DataOf(chunks[..0], encode) == before;
    for i := 0 to |chunks|
      invariant sse.out == Transcript(before + DataOf(chunks[..i], encode))
    {
      sse.WriteData(encode(chunks[i]));
      ghost var ws := before + DataOf(chunks[..i], encode);
      TranscriptAppend(ws, Data(encode(chunks[i])));
      assert chunks[..i + 1][..i] == chunks[..i];
      DataOfNext(before, chunks[..i + 1], encode);
    }
    assert chunks[..|chunks|] == chunks;
  }

  method StreamAnswer(sse: SSEWriter, toolEvents: seq<string>, content: string, usage: Usage,
                      encode: AnswerChunk -> string, metering: string)
    returns (chunks: seq<AnswerChunk>)
    requires !sse.closed && sse.out == ""
    modifies sse
    ensures sse.closed && exists deltas :: Synthesized(chunks, deltas, content, usage)
    ensures sse.out == Transcript(AnswerWrites(toolEvents, chunks, encode, metering))
    ensures sse.out == BodyText(toolEvents, chunks, encode, metering)
  {
    for i := 0 to |toolEvents|
      invariant !sse.closed && sse.out == Transcript(EventsOf(toolEvents[..i]))
    {
      sse.WriteEvent("x-tool-call", toolEvents[i]);
      TranscriptAppend(EventsOf(toolEvents[..i]), Event("x-tool-call", toolEvents[i]));
      assert toolEvents[..i + 1][..i] == toolEvents[..i];
    }
    assert toolEvents[..|toolEvents|] == toolEvents;
    chunks := SynthesizeChunks(content, usage);
    WriteChunks(sse, chunks, encode, EventsOf(toolEvents));
    ghost var ws := EventsOf(toolEvents) + DataOf(chunks, encode);
    sse.WriteEvent("x-metering", metering);
    TranscriptAppend(ws, Event("x-metering", metering));
    sse.WriteDone();
    TranscriptAppend(ws + [Event("x-metering", metering)], Done);
    AnswerText(toolEvents, chunks, encode, metering);
    sse.Close();
  }

  // ---- What the client makes of it ----

  function Decoded(received: seq<StreamChunk>, decode: string -> AnswerChunk): seq<AnswerChunk> {
    if received == [] then []
    else
      Decoded(received[..|received| - 1], decode)
      + (if received[|received| - 1].Chunk? then [decode(received[|received| - 1].json)] else [])
  }

  function ClientText(ws: seq<Write>, decode: string -> AnswerChunk): string {
    Merged(Decoded(Payloads(ws), decode))
  }

  lemma ClientTextAppend(ws: seq<Write>, w: Write, decode: string -> AnswerChunk)
    requires w.Data? || w.Event?
    ensures ClientText(ws + [w], decode) == ClientText(ws, decode) + ChoiceTexts(decode(w.json).choices)
  {
    var p := Payloads(ws);
    PayloadsAppend(ws, w);
    assert (p + [Chunk(w.json)])[..|p|] == p;
    var d := Decoded(p, decode);
    assert (d + [decode(w.json)])[..|d|] == d;
  }

  /** An event's payload, which the client takes for a chunk: one without choices. */
  ghost predicate Harmless(json: string, decode: string -> AnswerChunk, wellFormed: string -> bool) {
    Good(json) && wellFormed(json) && decode(json).choices == []
  }

  /** The chunk survives encoding and decoding, and its text survives the stream. */
  ghost predicate Carried(c: AnswerChunk, encode: AnswerChunk -> string, decode: string -> AnswerChunk,
                          wellFormed: string -> bool) {
    Good(encode(c)) && wellFormed(encode(c)) && decode(encode(c)) == c
  }

  lemma EventIsGood(json: string)
    requires Good(json)
    ensures GoodWrite(Event("x-tool-call", json))
  {
    ShortLine("event: " + "x-tool-call");
  }

  lemma UndisturbedAppend(ws: seq<Write>, w: Write, wellFormed: string -> bool)
    requires Undisturbed(ws, wellFormed) && GoodWrite(w) && (w.Data? || w.Event?) && wellFormed(w.json)
    ensures Undisturbed(ws + [w], wellFormed)
  {
  }

  lemma {:induction false} EventsAreUndisturbed(es: seq<string>, decode: string -> AnswerChunk, wellFormed: string -> bool)
    requires forall i | 0 <= i < |es| :: Harmless(es[i], decode, wellFormed)
    ensures Undisturbed(EventsOf(es), wellFormed)
  {
    if es != [] {
      var m := |es| - 1;
      EventsAreUndisturbed(es[..m], decode, wellFormed);
      assert Harmless(es[m], decode, wellFormed);
      EventIsGood(es[m]);
      UndisturbedAppend(EventsOf(es[..m]), Event("x-tool-call", es[m]), wellFormed);
    }
  }

  lemma {:induction false} EventsAddNoText(es: seq<string>, decode: string -> AnswerChunk, wellFormed: string -> bool)
    requires forall i | 0 <= i < |es| :: Harmless(es[i], decode, wellFormed)
    ensures ClientText(EventsOf(es), decode) == ""
  {
    if es != [] {
      var m := |es| - 1;
      EventsAddNoText(es[..m], decode, wellFormed);
      assert Harmless(es[m], decode, wellFormed);
      ClientTextAppend(EventsOf(es[..m]), Event("x-tool-call", es[m]), decode);
    }
  }

  lemma ChunkArrives(ws: seq<Write>, c: AnswerChunk, encode: AnswerChunk -> string,
                     decode: string -> AnswerChunk, wellFormed: string -> bool)
    requires Undisturbed(ws, wellFormed) && Carried(c, encode, decode, wellFormed)
    ensures Undisturbed(ws + [Data(encode(c))], wellFormed)
    ensures ClientText(ws + [Data(encode(c))], decode) == ClientText(ws, decode) + ChoiceTexts(c.choices)
  {
    UndisturbedAppend(ws, Data(encode(c)), wellFormed);
    ClientTextAppend(ws, Data(encode(c)), decode);
  }

  lemma {:induction false} DataCarriesText(before: seq<Write>, chunks: seq<AnswerChunk>, encode: AnswerChunk -> string,
                                           decode: string -> AnswerChunk, wellFormed: string -> bool)
    requires Undisturbed(before, wellFormed) && ClientText(before, decode) == ""
    requires forall i | 0 <= i < |chunks| :: Carried(chunks[i], encode, decode, wellFormed)
    ensures Undisturbed(before + DataOf(chunks, encode), wellFormed)
    ensures ClientText(before + DataOf(chunks, encode), decode) == Merged(chunks)
  {
    if chunks == [] {
      assert before + [] == before;
    } else {
      var m := |chunks| - 1;
      DataCarriesText(before, chunks[..m], encode, decode, wellFormed);
      DataOfNext(before, chunks, encode);
      ChunkArrives(before + DataOf(chunks[..m], encode), chunks[m], encode, decode, wellFormed);
    }
  }

  lemma ReadUpToDone(ws: seq<Write>, wellFormed: string -> bool)
    requires Undisturbed(ws, wellFormed)
    ensures Received(Tokens(Transcript(ws + [Done])), wellFormed) == Payloads(ws)
  {
    TranscriptAppend(ws, Done);
    assert Rendered(Done) + "" == Rendered(Done);
    StopsAtDone(ws, "", wellFormed);
    assert Transcript(ws) + (Rendered(Done) + "") == Transcript(ws + [Done]);
  }

  lemma MeteringIsGood(metering: string)
    requires Good(metering)
    ensures GoodWrite(Event("x-metering", metering))
  {
    ShortLine("event: " + "x-metering");
  }

  /** The client merges what the handler streamed into the answer's text, events and all. */
  lemma AnswerArrives(toolEvents: seq<string>, chunks: seq<AnswerChunk>, deltas: seq<string>, content: string,
                      usage: Usage, metering: string, encode: AnswerChunk -> string,
                      decode: string -> AnswerChunk, wellFormed: string -> bool)
    requires Synthesized(chunks, deltas, content, usage)
    requires forall i | 0 <= i < |chunks| :: Carried(chunks[i], encode, decode, wellFormed)
    requires forall i | 0 <= i < |toolEvents| :: Harmless(toolEvents[i], decode, wellFormed)
    requires Harmless(metering, decode, wellFormed)
    ensures var body := Transcript(AnswerWrites(toolEvents, chunks, encode, metering));
            Merged(Decoded(Received(Tokens(body), wellFormed), decode)) == content
  {
    EventsAreUndisturbed(toolEvents, decode, wellFormed);
    EventsAddNoText(toolEvents, decode, wellFormed);
    DataCarriesText(EventsOf(toolEvents), chunks, encode, decode, wellFormed);
    var ws := EventsOf(toolEvents) + DataOf(chunks, encode);
    var all := ws + [Event("x-metering", metering)];
    ClientTextAppend(ws, Event("x-metering", metering), decode);
    MergeUndoesSynthesis(chunks, deltas, content, usage);
    MeteringIsGood(metering);
    ReadUpToDone(all, wellFormed);
  }
}
