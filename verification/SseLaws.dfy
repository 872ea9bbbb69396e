/** Which payloads the client reads back from what the writer put out. */
module SseLaws {
  import opened Common
  import opened Text
  import opened Sse

  lemma {:induction false} LineEndAt(a: string, rest: string)
    requires '\n' !in a
    ensures LineEnd(a + "\n" + rest) == |a|
  {
    var s := a + "\n" + rest;
    if a != [] {
      assert s[1..] == a[1..] + "\n" + rest;
      assert s[0] == a[0] && a[0] in a;
      LineEndAt(a[1..], rest);
    }
  }

  lemma OneToken(a: string, rest: string)
    requires '\n' !in a && Utf8Len(a) < MAX_TOKEN
    ensures Tokens(a + "\n" + rest) == [Line(DropCR(a))] + Tokens(rest)
  {
    var s := a + "\n" + rest;
    LineEndAt(a, rest);
    assert s[..|a|] == a && s[|a| + 1..] == rest;
  }

  lemma SkippedLine(a: string, rest: string, wellFormed: string -> bool)
    requires '\n' !in a && Utf8Len(a) < MAX_TOKEN && Read(DropCR(a)) == Skip
    ensures Received(Tokens(a + "\n" + rest), wellFormed) == Received(Tokens(rest), wellFormed)
  {
    OneToken(a, rest);
    var ts := Tokens(a + "\n" + rest);
    assert ts[1..] == Tokens(rest);
  }

  lemma BlankLine(rest: string, wellFormed: string -> bool)
    ensures Received(Tokens("\n" + rest), wellFormed) == Received(Tokens(rest), wellFormed)
  {
    assert [] + "\n" + rest == "\n" + rest;
    assert Utf8Len([]) == 0;
    SkippedLine([], rest, wellFormed);
  }

  lemma ReadingData(json: string)
    requires TrimSpace(json) == json && json != ""
    ensures DropCR("data: " + json) == "data: " + json
    ensures Read("data: " + json) == if json == DONE then Stop else Emit(json)
  {
    var a := "data: " + json;
    assert a[|a| - 1] == json[|json| - 1] && !IsSpace(TrimSpace(json)[|json| - 1]);
    assert a[|DATA|..] == [' '] + json;
    TrimTrimmed(json);
  }

  lemma EndingLine(a: string, rest: string, wellFormed: string -> bool)
    requires '\n' !in a && Utf8Len(a) < MAX_TOKEN && !Read(DropCR(a)).Skip?
    ensures var reading, out := Read(DropCR(a)), Received(Tokens(a + "\n" + rest), wellFormed);
            out == if reading.Stop? then []
                   else if wellFormed(reading.json) then
                     [Chunk(reading.json)] + Received(Tokens(rest), wellFormed)
                   else [BadChunk(reading.json)]
  {
    OneToken(a, rest);
    var ts := Tokens(a + "\n" + rest);
    assert ts[1..] == Tokens(rest);
  }

  /** A data line is read back as its payload, or ends the stream. */
  lemma DataLine(json: string, rest: string, wellFormed: string -> bool)
    requires '\n' !in json && TrimSpace(json) == json && json != "" && Utf8Len("data: " + json) < MAX_TOKEN
    ensures var s := "data: " + json + "\n\n" + rest;
            Received(Tokens(s), wellFormed) ==
            if json == DONE then []
            else if wellFormed(json) then [Chunk(json)] + Received(Tokens(rest), wellFormed)
            else [BadChunk(json)]
  {
    var a := "data: " + json;
    assert a + "\n\n" + rest == a + "\n" + ("\n" + rest);
    ReadingData(json);
    EndingLine(a, "\n" + rest, wellFormed);
    BlankLine(rest, wellFormed);
  }

  lemma EventLines(name: string, json: string, rest: string, wellFormed: string -> bool)
    requires GoodWrite(Event(name, json))
    ensures var s := Rendered(Event(name, json)) + rest;
            Received(Tokens(s), wellFormed) ==
            if wellFormed(json) then [Chunk(json)] + Received(Tokens(rest), wellFormed) else [BadChunk(json)]
  {
    var a := "event: " + name;
    var tail := "data: " + json + "\n\n" + rest;
    assert Rendered(Event(name, json)) + rest == a + "\n" + tail;
    assert DropCR(a) != [] && DropCR(a)[0] == 'e';
    SkippedLine(a, tail, wellFormed);
    DataLine(json, rest, wellFormed);
  }

  lemma HeartbeatLine(rest: string, wellFormed: string -> bool)
    ensures Received(Tokens(Rendered(Heartbeat) + rest), wellFormed) == Received(Tokens(rest), wellFormed)
  {
    var a := ": heartbeat";
    assert Rendered(Heartbeat) + rest == a + "\n" + ("\n" + rest);
    ShortLine(a);
    assert DropCR(a)[0] == ':';
    SkippedLine(a, "\n" + rest, wellFormed);
    BlankLine(rest, wellFormed);
  }

  lemma DoneLine(rest: string, wellFormed: string -> bool)
    ensures Received(Tokens(Rendered(Done) + rest), wellFormed) == []
  {
    AlreadyTrimmed(DONE);
    ShortLine("data: " + DONE);
    assert Rendered(Done) == "data: " + DONE + "\n\n";
    DataLine(DONE, rest, wellFormed);
  }

  lemma {:induction false} ShortLine(a: string)
    ensures Utf8Len(a) <= 4 * |a|
    decreases |a|
  {
    if a != [] {
      ShortLine(a[..|a| - 1]);
    }
  }

  /** Whatever is written after good payloads, events and heartbeats is read back as their payloads
      in order, up to the first Done. */
  lemma {:induction false} RoundTrip(ws: seq<Write>, wellFormed: string -> bool)
    requires forall i | 0 <= i < |ws| :: GoodWrite(ws[i])
    ensures Received(Tokens(Transcript(ws)), wellFormed) == Meaning(ws, wellFormed)
  {
    if ws != [] {
      var rest := Transcript(ws[1..]);
      assert GoodWrite(ws[0]);
      RoundTrip(ws[1..], wellFormed);
      match ws[0]
      case Data(json) =>
        assert Transcript(ws) == "data: " + json + "\n\n" + rest;
        DataLine(json, rest, wellFormed);
      case Event(name, json) => EventLines(name, json, rest, wellFormed);
      case Heartbeat => HeartbeatLine(rest, wellFormed);
      case Done => DoneLine(rest, wellFormed);
    }
  }

  // ---- Where the reading ends ----

  /** The payloads of data frames and events, in order. */
  function Payloads(ws: seq<Write>): seq<StreamChunk> {
    if ws == [] then []
    else (if ws[0].Data? || ws[0].Event? then [Chunk(ws[0].json)] else []) + Payloads(ws[1..])
  }

  lemma {:induction false} PayloadsAppend(ws: seq<Write>, w: Write)
    ensures Payloads(ws + [w]) == Payloads(ws) + if w.Data? || w.Event? then [Chunk(w.json)] else []
  {
    if ws == [] {
      assert [] + [w] == [w] && [w][1..] == [];
    } else {
      var first, others := ws[0], ws[1..];
      assert (ws + [w])[1..] == others + [w];
      PayloadsAppend(others, w);
      Associates(if first.Data? || first.Event? then [Chunk(first.json)] else [], Payloads(others),
                 if w.Data? || w.Event? then [Chunk(w.json)] else []);
    }
  }

  /** Good writes before any terminator whose payloads decode. */
  ghost predicate Undisturbed(ws: seq<Write>, wellFormed: string -> bool) {
    forall i | 0 <= i < |ws| ::
      !ws[i].Done? && GoodWrite(ws[i]) && (ws[i].Data? || ws[i].Event? ==> wellFormed(ws[i].json))
  }

  lemma OneUndisturbed(w: Write, rest: string, wellFormed: string -> bool)
    requires Undisturbed([w], wellFormed)
    ensures Received(Tokens(Rendered(w) + rest), wellFormed)
         == (if w.Data? || w.Event? then [Chunk(w.json)] else []) + Received(Tokens(rest), wellFormed)
  {
    assert GoodWrite([w][0]);
    match w
    case Data(json) =>
      assert Rendered(w) + rest == "data: " + json + "\n\n" + rest;
      DataLine(json, rest, wellFormed);
    case Event(name, json) => EventLines(name, json, rest, wellFormed);
    case Heartbeat => HeartbeatLine(rest, wellFormed);
  }

  /** What was written is read, and then what follows, whatever that is. */
  lemma {:induction false} ReadsOn(ws: seq<Write>, rest: string, wellFormed: string -> bool)
    requires Undisturbed(ws, wellFormed)
    ensures Received(Tokens(Transcript(ws) + rest), wellFormed) == Payloads(ws) + Received(Tokens(rest), wellFormed)
  {
    if ws == [] {
      assert "" + rest == rest;
    } else {
      var first, others := ws[0], ws[1..];
      assert Undisturbed([first], wellFormed) && Undisturbed(others, wellFormed);
      ReadsOn(others, rest, wellFormed);
      OneUndisturbed(first, Transcript(others) + rest, wellFormed);
      Associates(Rendered(first), Transcript(others), rest);
      Associates(if first.Data? || first.Event? then [Chunk(first.json)] else [], Payloads(others),
                 Received(Tokens(rest), wellFormed));
    }
  }

  /** The terminator ends the reading; nothing after it is looked at. */
  lemma StopsAtDone(ws: seq<Write>, rest: string, wellFormed: string -> bool)
    requires Undisturbed(ws, wellFormed)
    ensures Received(Tokens(Transcript(ws) + (Rendered(Done) + rest)), wellFormed) == Payloads(ws)
  {
    ReadsOn(ws, Rendered(Done) + rest, wellFormed);
    DoneLine(rest, wellFormed);
  }

  /** So does a payload that does not decode, which is reported. */
  lemma StopsAtBadPayload(ws: seq<Write>, json: string, rest: string, wellFormed: string -> bool)
    requires Undisturbed(ws, wellFormed) && Good(json) && !wellFormed(json)
    ensures Received(Tokens(Transcript(ws) + ("data: " + json + "\n\n" + rest)), wellFormed) == Payloads(ws) + [BadChunk(json)]
  {
    ReadsOn(ws, "data: " + json + "\n\n" + rest, wellFormed);
    DataLine(json, rest, wellFormed);
  }

  /** And a line of four megabytes or more, which the scanner refuses. */
  lemma StopsAtLongLine(ws: seq<Write>, line: string, rest: string, wellFormed: string -> bool)
    requires Undisturbed(ws, wellFormed) && '\n' !in line && Utf8Len(line) >= 4 * 1024 * 1024
    ensures Received(Tokens(Transcript(ws) + (line + "\n" + rest)), wellFormed) == Payloads(ws) + [ScanError]
  {
    ReadsOn(ws, line + "\n" + rest, wellFormed);
    LineEndAt(line, rest);
    assert (line + "\n" + rest)[..|line|] == line;
  }

  /** No blank is needed after the colon, and lines without the field are passed over. */
  lemma ReadsBareData(json: string, rest: string, wellFormed: string -> bool)
    requires Good(json) && wellFormed(json)
    ensures Received(Tokens("data:" + json + "\n" + rest), wellFormed) == [Chunk(json)] + Received(Tokens(rest), wellFormed)
  {
    var a := "data:" + json;
    assert a[|a| - 1] == json[|json| - 1] && !IsSpace(TrimSpace(json)[|json| - 1]);
    assert DropCR(a) == a && a[5..] == json;
    BareIsShort(json);
    EndingLine(a, rest, wellFormed);
  }

  lemma {:induction false} BareIsShort(json: string)
    ensures Utf8Len("data:" + json) < Utf8Len("data: " + json)
    decreases |json|
  {
    var a, b := "data:" + json, "data: " + json;
    if json == [] {
      assert b[..|b| - 1] == a;
    } else {
      var init := json[..|json| - 1];
      assert a[..|a| - 1] == "data:" + init && b[..|b| - 1] == "data: " + init;
      BareIsShort(init);
    }
  }

  lemma PassesOver(line: string, rest: string, wellFormed: string -> bool)
    requires '\n' !in line && Utf8Len(line) < MAX_TOKEN && !("data:" <= line)
    ensures Received(Tokens(line + "\n" + rest), wellFormed) == Received(Tokens(rest), wellFormed)
  {
    assert !("data:" <= DropCR(line));
    SkippedLine(line, rest, wellFormed);
  }

  // ---- Only good payloads survive ----

  ghost predicate ScannedLine(token: Token) {
    token.Line? ==> '\n' !in token.text
  }

  lemma {:induction false} TokensAreLines(s: string)
    ensures forall i | 0 <= i < |Tokens(s)| :: ScannedLine(Tokens(s)[i])
    decreases |s|
  {
    if s != [] {
      var n := LineEnd(s);
      TokensAreLines(if n < |s| then s[n + 1..] else []);
    }
  }

  ghost predicate Survivable(json: string) {
    '\n' !in json && TrimSpace(json) == json && json != "" && json != DONE
  }

  lemma {:induction false} ReceivedAreSurvivable(tokens: seq<Token>, wellFormed: string -> bool)
    requires forall i | 0 <= i < |tokens| :: ScannedLine(tokens[i])
    ensures forall i | 0 <= i < |Received(tokens, wellFormed)| ::
              Received(tokens, wellFormed)[i].Chunk? ==> Survivable(Received(tokens, wellFormed)[i].json)
  {
    if tokens != [] {
      ReceivedAreSurvivable(tokens[1..], wellFormed);
      assert ScannedLine(tokens[0]);
      if tokens[0].Line? && Read(tokens[0].text).Emit? {
        var tail := tokens[0].text[|DATA|..];
        TrimTrimmed(tail);
        TrimLeftHas(tail, '\n');
      }
    }
  }

  /** A decodable payload is read back as written exactly when it is good. */
  lemma SurvivesExactlyWhenGood(json: string, wellFormed: string -> bool)
    requires wellFormed(json)
    ensures Received(Tokens(Rendered(Data(json))), wellFormed) == [Chunk(json)] <==> Good(json)
  {
    var s := Rendered(Data(json));
    if Good(json) {
      assert s == "data: " + json + "\n\n" + "";
      DataLine(json, "", wellFormed);
    }
    if Received(Tokens(s), wellFormed) == [Chunk(json)] {
      TokensAreLines(s);
      ReceivedAreSurvivable(Tokens(s), wellFormed);
      assert Received(Tokens(s), wellFormed)[0].Chunk?;
      assert Survivable(json);
      var a := "data: " + json;
      assert s == a + "\n" + "\n";
      LineEndAt(a, "\n");
      assert s[..|a|] == a;
    }
  }
}
