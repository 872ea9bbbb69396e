/** The batching workers of the recorder, over a channel and over a stream. */
module MeteringWorker {
  import opened Common
  import opened Metering
  import opened Usage
  import Billing

  /** What a worker is woken by: records, a failed or empty read, the clock, the end. */
  datatype Event = Got(records: seq<Record>) | Nothing | Tick | End

  datatype Wake = Wake(event: Event, weather: Weather)

  /** A worker's buffer and the batches it has flushed. */
  datatype Batching = Batching(buffer: seq<Record>, flushes: seq<Flush>, ended: bool)

  const FRESH := Batching([], [], false)

  function FlushIf(b: Batching, due: bool, weather: Weather): Batching {
    if due && b.buffer != [] then Batching([], b.flushes + [Flush(b.buffer, weather)], b.ended) else b
  }

  function Step(b: Batching, w: Wake, size: nat): Batching {
    if b.ended then b
    else
      match w.event
      case Got(records) =>
        var full := b.(buffer := b.buffer + records);
        FlushIf(full, |full.buffer| >= size, w.weather)
      case Nothing => b
      case Tick => FlushIf(b, true, w.weather)
      case End => FlushIf(b, true, w.weather).(ended := true)
  }

  function Run(wakes: seq<Wake>, size: nat): Batching {
    if wakes == [] then FRESH else Step(Run(wakes[..|wakes| - 1], size), wakes[|wakes| - 1], size)
  }

  function PostedAll(b: Books, flushes: seq<Flush>, pricer: Pricer): Books {
    if flushes == [] then b
    else Posted(PostedAll(b, flushes[..|flushes| - 1], pricer), flushes[|flushes| - 1], pricer)
  }

  ghost function SpentOnAll(flushes: seq<Flush>, t: int, pricer: Pricer): int {
    if flushes == [] then 0
    else SpentOnAll(flushes[..|flushes| - 1], t, pricer) + SpentOn(flushes[|flushes| - 1], t, pricer)
  }

  /** Messages with the record they decode to, if any. */
  function Decoded(messages: seq<Option<Record>>): seq<Record> {
    if messages == [] then []
    else
      var last := messages[|messages| - 1];
      Decoded(messages[..|messages| - 1]) + (if last.Some? then [last.value] else [])
  }

  // ---- The loops ----

  datatype ChannelEvent = Received(record: Record) | ChannelTick | Closed | Stopped

  function OnChannel(e: ChannelEvent): Event {
    match e
    case Received(r) => Got([r])
    case ChannelTick => Tick
    case Closed => End
    case Stopped => End
  }

  function ChannelWakes(events: seq<ChannelEvent>, weather: seq<Weather>): (wakes: seq<Wake>)
    requires |weather| == |events|
    ensures |wakes| == |events| && forall i | 0 <= i < |wakes| :: wakes[i] == Wake(OnChannel(events[i]), weather[i])
  {
    if events == [] then []
    else
      var n := |events| - 1;
      ChannelWakes(events[..n], weather[..n]) + [Wake(OnChannel(events[n]), weather[n])]
  }

  datatype StreamEvent = Messages(messages: seq<Option<Record>>) | ReadFailed | StreamTick | StreamStopped

  function OnStream(e: StreamEvent): Event {
    match e
    case Messages(messages) => Got(Decoded(messages))
    case ReadFailed => Nothing
    case StreamTick => Tick
    case StreamStopped => End
  }

  function StreamWakes(events: seq<StreamEvent>, weather: seq<Weather>): (wakes: seq<Wake>)
    requires |weather| == |events|
    ensures |wakes| == |events| && forall i | 0 <= i < |wakes| :: wakes[i] == Wake(OnStream(events[i]), weather[i])
  {
    if events == [] then []
    else
      var n := |events| - 1;
      StreamWakes(events[..n], weather[..n]) + [Wake(OnStream(events[n]), weather[n])]
  }

  /** One worker with its recorder. */
  class Worker {
    const recorder: Recorder
    const batchSize: nat
    var buffer: seq<Record>
    ghost var flushes: seq<Flush>

    constructor (recorder: Recorder, batchSize: int)
      ensures this.recorder == recorder && this.batchSize == if batchSize <= 0 then 200 else batchSize
      ensures buffer == [] && flushes == []
    {
      this.recorder := recorder;
      this.batchSize := if batchSize <= 0 then 200 else batchSize;
      buffer := [];
      flushes := [];
    }

    ghost function Ledger(): Billing.Ledger
      reads recorder.consumer
    {
      if recorder.consumer == null then Billing.Ledger(map[], []) else recorder.consumer.Value()
    }

    /** The worker stands where a run of the protocol stands, and so do its recorder and the ledger. */
    ghost predicate At(run: Batching, books: Books, ledger: Billing.Ledger)
      reads this, recorder, recorder.dlq, recorder.consumer
    {
      && buffer == run.buffer && flushes == run.flushes
      && recorder.Value() == PostedAll(books, run.flushes, recorder.pricer)
      && (recorder.consumer != null ==>
            forall t :: recorder.consumer.Spent(t)
                     == Billing.AccountOf(ledger, t).consumed + SpentOnAll(run.flushes, t, recorder.pricer))
    }

    method FlushBuffer(weather: Weather, ghost run: Batching, ghost books: Books, ghost ledger: Billing.Ledger)
      requires At(run, books, ledger)
      modifies this`buffer, this`flushes, recorder, recorder.dlq, recorder.consumer
      ensures At(FlushIf(run, true, weather), books, ledger)
    {
      if |buffer| == 0 {
        return;
      }
      ghost var order := recorder.FlushBatch(buffer, weather);
      flushes := flushes + [Flush(buffer, weather)];
      assert flushes[..|flushes| - 1] == run.flushes;
      buffer := [];
    }

    /** One turn of the channel loop. */
    method ChannelTurn(e: ChannelEvent, weather: Weather,
                       ghost run: Batching, ghost books: Books, ghost ledger: Billing.Ledger) returns (ended: bool)
      requires At(run, books, ledger) && !run.ended
      modifies this`buffer, this`flushes, recorder, recorder.dlq, recorder.consumer
      ensures At(Step(run, Wake(OnChannel(e), weather), batchSize), books, ledger)
      ensures ended == Step(run, Wake(OnChannel(e), weather), batchSize).ended
    {
      ended := false;
      match e {
        case Stopped =>
          FlushBuffer(weather, run, books, ledger);
          ended := true;
        case Received(r) =>
          buffer := buffer + [r];
          if |buffer| >= batchSize {
            FlushBuffer(weather, run.(buffer := run.buffer + [r]), books, ledger);
          }
        case Closed =>
          FlushBuffer(weather, run, books, ledger);
          ended := true;
        case ChannelTick =>
          FlushBuffer(weather, run, books, ledger);
      }
    }

    method ChannelWorker(events: seq<ChannelEvent>, weather: seq<Weather>)
      requires |weather| == |events|
      modifies this`buffer, this`flushes, recorder, recorder.dlq, recorder.consumer
      ensures At(Run(ChannelWakes(events, weather), batchSize), old(recorder.Value()), old(Ledger()))
    {
      ghost var books, ledger, wakes := recorder.Value(), Ledger(), ChannelWakes(events, weather);
      buffer, flushes := [], [];
      for i := 0 to |events|
        invariant !Run(wakes[..i], batchSize).ended
        invariant At(Run(wakes[..i], batchSize), books, ledger)
      {
        NextWake(wakes, i, batchSize);
        var ended := ChannelTurn(events[i], weather[i], Run(wakes[..i], batchSize), books, ledger);
        if ended {
          EndStays(wakes, i + 1, batchSize);
          return;
        }
      }
      assert wakes[..|events|] == wakes;
    }

    /** One turn of the stream loop. */
    method StreamTurn(e: StreamEvent, weather: Weather,
                      ghost run: Batching, ghost books: Books, ghost ledger: Billing.Ledger) returns (ended: bool)
      requires At(run, books, ledger) && !run.ended
      modifies this`buffer, this`flushes, recorder, recorder.dlq, recorder.consumer
      ensures At(Step(run, Wake(OnStream(e), weather), batchSize), books, ledger)
      ensures ended == Step(run, Wake(OnStream(e), weather), batchSize).ended
    {
      ended := false;
      match e {
        case StreamStopped =>
          FlushBuffer(weather, run, books, ledger);
          ended := true;
        case StreamTick =>
          FlushBuffer(weather, run, books, ledger);
        case ReadFailed =>
        case Messages(messages) =>
          TakeMessages(messages, weather, run, books, ledger);
      }
    }

    method StreamWorker(events: seq<StreamEvent>, weather: seq<Weather>)
      requires |weather| == |events|
      modifies this`buffer, this`flushes, recorder, recorder.dlq, recorder.consumer
      ensures At(Run(StreamWakes(events, weather), batchSize), old(recorder.Value()), old(Ledger()))
    {
      ghost var books, ledger, wakes := recorder.Value(), Ledger(), StreamWakes(events, weather);
      buffer, flushes := [], [];
      for i := 0 to |events|
        invariant !Run(wakes[..i], batchSize).ended
        invariant At(Run(wakes[..i], batchSize), books, ledger)
      {
        NextWake(wakes, i, batchSize);
        var ended := StreamTurn(events[i], weather[i], Run(wakes[..i], batchSize), books, ledger);
        if ended {
          EndStays(wakes, i + 1, batchSize);
          return;
        }
      }
      assert wakes[..|events|] == wakes;
    }

    method TakeMessages(messages: seq<Option<Record>>, weather: Weather,
                        ghost run: Batching, ghost books: Books, ghost ledger: Billing.Ledger)
      requires At(run, books, ledger) && !run.ended
      modifies this`buffer, this`flushes, recorder, recorder.dlq, recorder.consumer
      ensures At(Step(run, Wake(Got(Decoded(messages)), weather), batchSize), books, ledger)
    {
      AppendDecoded(messages);
      if |buffer| >= batchSize {
        FlushBuffer(weather, run.(buffer := run.buffer + Decoded(messages)), books, ledger);
      }
    }

    method AppendDecoded(messages: seq<Option<Record>>)
      modifies this`buffer
      ensures buffer == old(buffer) + Decoded(messages)
    {
      assert buffer + Decoded(messages[..0]) == buffer;
      for i := 0 to |messages|
        invariant buffer == old(buffer) + Decoded(messages[..i])
      {
        assert messages[..i + 1][..i] == messages[..i];
        if messages[i].None? {
          continue;
        }
        buffer := buffer + [messages[i].value];
      }
      assert messages[..|messages|] == messages;
    }
  }

  lemma NextWake(wakes: seq<Wake>, i: nat, size: nat)
    requires i < |wakes|
    ensures Run(wakes[..i + 1], size) == Step(Run(wakes[..i], size), wakes[i], size)
  {
    assert wakes[..i + 1][..i] == wakes[..i];
  }

  /** Nothing happens after the end. */
  lemma {:induction false} EndStays(wakes: seq<Wake>, i: nat, size: nat)
    requires i <= |wakes| && Run(wakes[..i], size).ended
    ensures Run(wakes, size) == Run(wakes[..i], size)
    decreases |wakes|
  {
    if i == |wakes| {
      assert wakes[..i] == wakes;
    } else {
      var n := |wakes| - 1;
      assert wakes[..n][..i] == wakes[..i];
      EndStays(wakes[..n], i, size);
    }
  }
}
