/** The server-sent event stream: what the writer puts out, and what the client's line loop makes
    of it. JSON texts are opaque strings. */
module Sse {
  import opened Text

  const DONE := "[DONE]"
  const DATA := "data:"

  /** The scanner's limit on a line with its newline. */
  const MAX_TOKEN := 4194304

  // ---- The writer ----

  datatype Write = Data(json: string) | Event(name: string, json: string) | Heartbeat | Done

  function Rendered(w: Write): string {
    match w
    case Data(json) => "data: " + json + "\n\n"
    case Event(name, json) => "event: " + name + "\ndata: " + json + "\n\n"
    case Heartbeat => ": heartbeat\n\n"
    case Done => "data: [DONE]\n\n"
  }

  function Transcript(ws: seq<Write>): string {
    if ws == [] then "" else Rendered(ws[0]) + Transcript(ws[1..])
  }

  lemma {:induction false} TranscriptAppend(ws: seq<Write>, w: Write)
    ensures Transcript(ws + [w]) == Transcript(ws) + Rendered(w)
  {
    if ws == [] {
      assert [w][1..] == [];
      assert Transcript([w]) == Rendered(w);
    } else {
      assert (ws + [w])[1..] == ws[1..] + [w];
      TranscriptAppend(ws[1..], w);
    }
  }

  /** `out` is the response body; nothing is written once the writer is closed. */
  class SSEWriter {
    var out: string
    var closed: bool

    constructor ()
      ensures out == "" && !closed
    {
      out := "";
      closed := false;
    }

    method Raw(line: string)
      modifies this`out
      ensures out == if closed then old(out) else old(out) + line
    {
      if closed {
        return;
      }
      out := out + line;
    }

    method WriteData(json: string)
      modifies this`out
      ensures out == if closed then old(out) else old(out) + Rendered(Data(json))
      ensures !closed ==> out == old(out) + ("data: " + json + "\n\n")
    {
      Raw("data: " + json + "\n\n");
    }

    method WriteEvent(name: string, json: string)
      modifies this`out
      ensures out == if closed then old(out) else old(out) + Rendered(Event(name, json))
      ensures !closed ==> out == old(out) + ("event: " + name + "\ndata: " + json + "\n\n")
    {
      Raw("event: " + name + "\ndata: " + json + "\n\n");
    }

    method WriteDone()
      modifies this`out
      ensures out == if closed then old(out) else old(out) + Rendered(Done)
      ensures !closed ==> out == old(out) + "data: [DONE]\n\n"
    {
      Raw("data: [DONE]\n\n");
    }

    method Close()
      modifies this`closed
      ensures closed && out == old(out)
    {
      closed := true;
    }
  }

  // ---- The client ----

  datatype Token = Line(text: string) | TooLong

  function LineEnd(s: string): (n: nat)
    ensures n <= |s| && '\n' !in s[..n] && (n < |s| ==> s[n] == '\n')
  {
    if s == [] || s[0] == '\n' then 0
    else
      var n := LineEnd(s[1..]);
      assert s[..n + 1] == [s[0]] + s[1..][..n];
      n + 1
  }

  function DropCR(line: string): string {
    if line != [] && line[|line| - 1] == '\r' then line[..|line| - 1] else line
  }

  /** bufio.Scanner with ScanLines and the client's buffer. */
  function Tokens(s: string): seq<Token>
    decreases |s|
  {
    if s == [] then []
    else
      var n := LineEnd(s);
      if Utf8Len(s[..n]) >= MAX_TOKEN then [TooLong]
      else [Line(DropCR(s[..n]))] + Tokens(if n < |s| then s[n + 1..] else [])
  }

  datatype StreamChunk = Chunk(json: string) | BadChunk(json: string) | ScanError

  datatype Reading = Skip | Stop | Emit(json: string)

  function Read(line: string): Reading {
    if !(DATA <= line) then Skip
    else
      var payload := TrimSpace(line[|DATA|..]);
      if payload == "" then Skip else if payload == DONE then Stop else Emit(payload)
  }

  /** What the client passes on; `wellFormed` says which payloads decode. */
  function Received(tokens: seq<Token>, wellFormed: string -> bool): seq<StreamChunk> {
    if tokens == [] then []
    else
      match tokens[0]
      case TooLong => [ScanError]
      case Line(text) =>
        match Read(text)
        case Skip => Received(tokens[1..], wellFormed)
        case Stop => []
        case Emit(json) =>
          if wellFormed(json) then [Chunk(json)] + Received(tokens[1..], wellFormed) else [BadChunk(json)]
  }

  method Stream(body: string, wellFormed: string -> bool) returns (out: seq<StreamChunk>)
    ensures out == Received(Tokens(body), wellFormed)
  {
    out := [];
    var lineBuf := "";
    var tokens := Tokens(body);
    assert tokens[0..] == tokens;
    for i := 0 to |tokens|
      invariant out + Received(tokens[i..], wellFormed) == Received(tokens, wellFormed)
    {
      assert tokens[i..][1..] == tokens[i + 1..];
      if tokens[i].TooLong? {
        out := out + [ScanError];
        return;
      }
      var line := tokens[i].text;
      if line == "" {
        continue;
      }
      if !(DATA <= line) {
        lineBuf := lineBuf + line;
        continue;
      }
      var payload := TrimSpace(line[|DATA|..]);
      if payload == "" {
        continue;
      }
      if payload == DONE {
        return;
      }
      if !wellFormed(payload) {
        out := out + [BadChunk(payload)];
        return;
      }
      out := out + [Chunk(payload)];
    }
  }

  // ---- The round trip ----

  /** A payload that survives the stream. */
  predicate Good(json: string) {
    && '\n' !in json && TrimSpace(json) == json && json != "" && json != DONE
    && Utf8Len("data: " + json) < MAX_TOKEN
  }

  predicate GoodWrite(w: Write) {
    match w
    case Data(json) => Good(json)
    case Event(name, json) =>
      Good(json) && '\n' !in name && Utf8Len("event: " + name) < MAX_TOKEN
    case _ => true
  }

  /** What the writes mean to the client: their payloads in order, up to the first Done. */
  function Meaning(ws: seq<Write>, wellFormed: string -> bool): seq<StreamChunk> {
    if ws == [] then []
    else
      match ws[0]
      case Heartbeat => Meaning(ws[1..], wellFormed)
      case Done => []
      case _ =>
        if wellFormed(ws[0].json) then [Chunk(ws[0].json)] + Meaning(ws[1..], wellFormed)
        else [BadChunk(ws[0].json)]
  }
}
