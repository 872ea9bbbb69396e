/** The bounded tool loop of a chat request. */
module ToolLoop {
  import opened Common

  datatype Call = Call(id: string, name: string, arguments: string)

  datatype Message = Message(role: string, content: string, calls: seq<Call>, callId: string)

  datatype Choice = Choice(message: Message, finish: string)

  datatype Response = Response(choices: seq<Choice>)

  datatype Event = Event(name: string, result: string)

  /** What is sent upstream: the messages, and whether the request's tools go with them. */
  datatype Request = Request(messages: seq<Message>, tools: bool)

  const MAX_TOOL_ROUNDS := 5

  function FinishReason(r: Response): string {
    if r.choices == [] then "" else r.choices[0].finish
  }

  predicate WantsTools(r: Option<Response>) {
    r.Some? && r.value.choices != [] && FinishReason(r.value) == "tool_calls"
  }

  /** The first n replies all call tools. */
  predicate AllWant(replies: seq<Option<Response>>, n: nat) {
    n <= |replies| && forall i | 0 <= i < n :: WantsTools(replies[i])
  }

  function Assistant(r: Response): Message
    requires r.choices != []
  {
    r.choices[0].message
  }

  /** The result of a call, by its round and its place in the round. */
  type Tools = (nat, nat, Call) -> Event

  function ToolMessage(c: Call, e: Event): Message {
    Message("tool", e.result, [], c.id)
  }

  function EventsOf(round: nat, calls: seq<Call>, tools: Tools): seq<Event> {
    if calls == [] then []
    else EventsOf(round, calls[..|calls| - 1], tools) + [tools(round, |calls| - 1, calls[|calls| - 1])]
  }

  function ToolMessages(round: nat, calls: seq<Call>, tools: Tools): seq<Message> {
    if calls == [] then []
    else
      var last := calls[|calls| - 1];
      ToolMessages(round, calls[..|calls| - 1], tools) + [ToolMessage(last, tools(round, |calls| - 1, last))]
  }

  /** The conversation and the events after some rounds. */
  function Conversation(start: seq<Message>, replies: seq<Option<Response>>, rounds: nat, tools: Tools): seq<Message>
    requires AllWant(replies, rounds)
  {
    if rounds == 0 then start
    else
      assert WantsTools(replies[rounds - 1]);
      var assistant := Assistant(replies[rounds - 1].value);
      Conversation(start, replies, rounds - 1, tools) + [assistant]
      + ToolMessages(rounds - 1, assistant.calls, tools)
  }

  function AllEvents(replies: seq<Option<Response>>, rounds: nat, tools: Tools): seq<Event>
    requires AllWant(replies, rounds)
  {
    if rounds == 0 then []
    else
      assert WantsTools(replies[rounds - 1]);
      AllEvents(replies, rounds - 1, tools)
      + EventsOf(rounds - 1, Assistant(replies[rounds - 1].value).calls, tools)
  }

  /** The requests sent: the conversation after each round, the last possible one without tools. */
  function Requests(start: seq<Message>, replies: seq<Option<Response>>, n: nat, tools: Tools): seq<Request>
    requires n == 0 || AllWant(replies, n - 1)
  {
    if n == 0 then []
    else
      Requests(start, replies, n - 1, tools) + [Request(Conversation(start, replies, n - 1, tools), n - 1 < MAX_TOOL_ROUNDS)]
  }

  lemma {:induction false} RequestAt(start: seq<Message>, replies: seq<Option<Response>>, n: nat, tools: Tools, i: nat)
    requires n == 0 || AllWant(replies, n - 1)
    requires i < n
    ensures |Requests(start, replies, n, tools)| == n
    ensures Requests(start, replies, n, tools)[i] == Request(Conversation(start, replies, i, tools), i < 5)
  {
    if n > 1 {
      RequestAt(start, replies, n - 1, tools, if i < n - 1 then i else 0);
    }
  }

  /** The reply asks for tools: it has a choice, and the first one's finish reason says so. */
  ghost predicate AsksForTools(r: Option<Response>) {
    r.Some? && |r.value.choices| > 0 && r.value.choices[0].finish == "tool_calls"
  }

  method RunToolLoop(start: seq<Message>, replies: seq<Option<Response>>, tools: Tools)
    returns (resp: Option<Response>, events: seq<Event>, sent: seq<Request>, rounds: nat)
    requires |replies| == MAX_TOOL_ROUNDS + 1
    ensures rounds <= 5 && (rounds < 5 ==> !AsksForTools(replies[rounds]))
    ensures forall i | 0 <= i < rounds :: AsksForTools(replies[i])
    ensures AllWant(replies, rounds)
    ensures resp == replies[rounds]
    ensures events == AllEvents(replies, rounds, tools)
    ensures sent == Requests(start, replies, rounds + 1, tools)
  {
    events, sent, rounds := [], [], 0;
    var messages := start;
    while rounds < MAX_TOOL_ROUNDS
      invariant rounds <= MAX_TOOL_ROUNDS
      invariant AllWant(replies, rounds)
      invariant messages == Conversation(start, replies, rounds, tools)
      invariant events == AllEvents(replies, rounds, tools)
      invariant sent == Requests(start, replies, rounds, tools)
    {
      sent := sent + [Request(messages, true)];
      resp := replies[rounds];
      if resp.None? || |resp.value.choices| == 0 || FinishReason(resp.value) != "tool_calls" {
        return;
      }
      var assistant := resp.value.choices[0].message;
      messages, events := ExecuteCalls(messages + [assistant], events, rounds, assistant.calls, tools);
      rounds := rounds + 1;
    }
    sent := sent + [Request(messages, false)];
    resp := replies[rounds];
  }

  method ExecuteCalls(messages: seq<Message>, events: seq<Event>, round: nat, calls: seq<Call>, tools: Tools)
    returns (messages': seq<Message>, events': seq<Event>)
    ensures messages' == messages + ToolMessages(round, calls, tools)
    ensures events' == events + EventsOf(round, calls, tools)
  {
    messages', events' := messages, events;
    for i := 0 to |calls|
      invariant messages' == messages + ToolMessages(round, calls[..i], tools)
      invariant events' == events + EventsOf(round, calls[..i], tools)
    {
      assert calls[..i + 1][..i] == calls[..i];
      var e := tools(round, i, calls[i]);
      events' := events' + [e];
      messages' := messages' + [ToolMessage(calls[i], e)];
    }
    assert calls[..|calls|] == calls;
  }

  // ---- What each call adds ----

  /** Call i of a round is answered by the result of that very call, and reported as it. */
  lemma {:induction false} CallsAreAnswered(round: nat, calls: seq<Call>, tools: Tools, i: nat)
    requires i < |calls|
    ensures |EventsOf(round, calls, tools)| == |ToolMessages(round, calls, tools)| == |calls|
    ensures var e := tools(round, i, calls[i]);
            && EventsOf(round, calls, tools)[i] == e
            && ToolMessages(round, calls, tools)[i] == Message("tool", e.result, [], calls[i].id)
  {
    var n := |calls| - 1;
    EventsPerCall(round, calls[..n], tools);
    if i < n {
      CallsAreAnswered(round, calls[..n], tools, i);
    }
  }

  lemma {:induction false} EventsPerCall(round: nat, calls: seq<Call>, tools: Tools)
    ensures |EventsOf(round, calls, tools)| == |ToolMessages(round, calls, tools)| == |calls|
  {
    if calls != [] {
      EventsPerCall(round, calls[..|calls| - 1], tools);
    }
  }

  /** A round adds the first choice's message and the results of its calls to the conversation, and the
      results to the events. */
  lemma RoundAdds(start: seq<Message>, replies: seq<Option<Response>>, rounds: nat, tools: Tools)
    requires rounds > 0 && AllWant(replies, rounds)
    ensures AsksForTools(replies[rounds - 1])
    ensures var assistant := replies[rounds - 1].value.choices[0].message;
            && Conversation(start, replies, rounds, tools)
               == Conversation(start, replies, rounds - 1, tools) + [assistant] + ToolMessages(rounds - 1, assistant.calls, tools)
            && AllEvents(replies, rounds, tools)
               == AllEvents(replies, rounds - 1, tools) + EventsOf(rounds - 1, assistant.calls, tools)
  {
    assert WantsTools(replies[rounds - 1]);
  }

  /** Before any round there is what the client sent, and no event. */
  lemma NoRounds(start: seq<Message>, replies: seq<Option<Response>>, tools: Tools)
    ensures Conversation(start, replies, 0, tools) == start && AllEvents(replies, 0, tools) == []
  {
  }

  // ---- The shape of a conversation ----

  /** An assistant message followed by one tool message for each of its calls, in order. */
  ghost predicate Answered(segment: seq<Message>) {
    && segment != [] && |segment| == 1 + |segment[0].calls|
    && forall i | 0 <= i < |segment[0].calls| ::
         segment[i + 1].role == "tool" && segment[i + 1].callId == segment[0].calls[i].id
  }

  function Flattened(segments: seq<seq<Message>>): seq<Message> {
    if segments == [] then [] else Flattened(segments[..|segments| - 1]) + segments[|segments| - 1]
  }

  lemma {:induction false} ToolMessagesAnswer(round: nat, calls: seq<Call>, tools: Tools)
    ensures var ms, es := ToolMessages(round, calls, tools), EventsOf(round, calls, tools);
            && |ms| == |calls| == |es|
            && forall i | 0 <= i < |calls| ::
                 ms[i].role == "tool" && ms[i].callId == calls[i].id && ms[i].content == es[i].result
  {
    if calls != [] {
      ToolMessagesAnswer(round, calls[..|calls| - 1], tools);
    }
  }

  lemma RoundIsAnswered(round: nat, assistant: Message, tools: Tools)
    ensures Answered([assistant] + ToolMessages(round, assistant.calls, tools))
    ensures |EventsOf(round, assistant.calls, tools)| == |assistant.calls|
  {
    ToolMessagesAnswer(round, assistant.calls, tools);
  }

  /** The segments the rounds add. */
  function Segments(replies: seq<Option<Response>>, rounds: nat, tools: Tools): (segments: seq<seq<Message>>)
    requires AllWant(replies, rounds)
    ensures |segments| == rounds
  {
    if rounds == 0 then []
    else
      assert WantsTools(replies[rounds - 1]);
      var assistant := Assistant(replies[rounds - 1].value);
      Segments(replies, rounds - 1, tools) + [[assistant] + ToolMessages(rounds - 1, assistant.calls, tools)]
  }

  lemma FlattenedAppend(segments: seq<seq<Message>>, segment: seq<Message>)
    ensures Flattened(segments + [segment]) == Flattened(segments) + segment
  {
    assert (segments + [segment])[..|segments|] == segments;
  }

  lemma ConversationStep(start: seq<Message>, replies: seq<Option<Response>>, rounds: nat, tools: Tools)
    requires rounds > 0 && AllWant(replies, rounds)
    ensures Conversation(start, replies, rounds, tools)
         == Conversation(start, replies, rounds - 1, tools) + Segments(replies, rounds, tools)[rounds - 1]
  {
    assert WantsTools(replies[rounds - 1]);
    var assistant := Assistant(replies[rounds - 1].value);
    var ms, before := ToolMessages(rounds - 1, assistant.calls, tools), Conversation(start, replies, rounds - 1, tools);
    assert before + [assistant] + ms == before + ([assistant] + ms);
  }

  /** Every request's messages are the client's followed by the segments of the rounds played. */
  lemma {:induction false} ConversationsAreSegments(start: seq<Message>, replies: seq<Option<Response>>, rounds: nat, tools: Tools)
    requires AllWant(replies, rounds)
    ensures Conversation(start, replies, rounds, tools) == start + Flattened(Segments(replies, rounds, tools))
  {
    if rounds > 0 {
      ConversationsAreSegments(start, replies, rounds - 1, tools);
      var init, all := Segments(replies, rounds - 1, tools), Segments(replies, rounds, tools);
      FlattenedAppend(init, all[rounds - 1]);
      ConversationStep(start, replies, rounds, tools);
      assert start + Flattened(init) + all[rounds - 1] == start + (Flattened(init) + all[rounds - 1]);
    }
  }

  /** Each segment is the reply's assistant message with its calls answered. */
  lemma {:induction false} SegmentsAreAnswered(replies: seq<Option<Response>>, rounds: nat, tools: Tools, i: nat)
    requires AllWant(replies, rounds) && i < rounds
    ensures WantsTools(replies[i])
    ensures var segment := Segments(replies, rounds, tools)[i];
            Answered(segment) && segment[0] == Assistant(replies[i].value)
  {
    if i < rounds - 1 {
      SegmentsAreAnswered(replies, rounds - 1, tools, i);
    } else {
      RoundIsAnswered(i, Assistant(replies[i].value), tools);
    }
  }

  /** There is an event for each tool message. */
  lemma {:induction false} EventsMatchMessages(replies: seq<Option<Response>>, rounds: nat, tools: Tools)
    requires AllWant(replies, rounds)
    ensures |AllEvents(replies, rounds, tools)| + rounds == |Flattened(Segments(replies, rounds, tools))|
  {
    if rounds > 0 {
      EventsMatchMessages(replies, rounds - 1, tools);
      var segments := Segments(replies, rounds, tools);
      assert segments[..rounds - 1] == Segments(replies, rounds - 1, tools);
      RoundIsAnswered(rounds - 1, Assistant(replies[rounds - 1].value), tools);
    }
  }

  /** Conversations only grow, so each request repeats the one before it. */
  lemma {:induction false} ConversationsExtend(start: seq<Message>, replies: seq<Option<Response>>, i: nat, j: nat, tools: Tools)
    requires i <= j && AllWant(replies, j)
    ensures Conversation(start, replies, i, tools) <= Conversation(start, replies, j, tools)
  {
    if i < j {
      ConversationsExtend(start, replies, i, j - 1, tools);
    }
  }
}
