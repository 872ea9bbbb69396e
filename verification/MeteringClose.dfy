/** The recorder's channel, its workers, and what Close leaves behind. */
module MeteringClose {
  import opened Common
  import opened Usage
  import opened Metering
  import MeteringWorker
  import MeteringLaws

  type Batching = MeteringWorker.Batching

  /** The channel's records, one batching state for each worker, whether Close has closed `stopCh` and
      the channel, and, for the account, the records the channel took. */
  datatype Sys = Sys(queue: seq<Record>, workers: seq<Batching>, stopped: bool, closed: bool, accepted: seq<Record>)

  datatype Config = Config(batchSize: nat, workers: nat)

  function Capacity(c: Config): nat {
    c.batchSize * 8
  }

  function Started(c: Config): Sys {
    Sys([], seq(c.workers, _ => MeteringWorker.FRESH), false, false, [])
  }

  /** The case of a worker's select that is taken, when it is ready. */
  datatype Step =
    | Send(record: Record)
    | CloseStop
    | CloseChannel
    | Receive(w: nat, weather: Weather)
    | Tick(w: nat, weather: Weather)
    | SeeStop(w: nat, weather: Weather)
    | SeeClosed(w: nat, weather: Weather)

  predicate Runs(s: Sys, w: nat) {
    w < |s.workers| && !s.workers[w].ended
  }

  predicate Enabled(s: Sys, step: Step) {
    match step
    case Send(_) => !s.stopped
    case CloseStop => !s.stopped
    case CloseChannel => s.stopped && !s.closed
    case Receive(w, _) => Runs(s, w) && s.queue != []
    case Tick(w, _) => Runs(s, w)
    case SeeStop(w, _) => Runs(s, w) && s.stopped
    case SeeClosed(w, _) => Runs(s, w) && s.closed && s.queue == []
  }

  function Woken(c: Config, s: Sys, w: nat, event: MeteringWorker.Event, weather: Weather): Sys
    requires w < |s.workers|
  {
    s.(workers := s.workers[w := MeteringWorker.Step(s.workers[w], MeteringWorker.Wake(event, weather), c.batchSize)])
  }

  /** A full channel takes nothing. */
  function Apply(c: Config, s: Sys, step: Step): Sys
    requires Enabled(s, step)
  {
    match step
    case Send(r) =>
      if |s.queue| < Capacity(c) then s.(queue := s.queue + [r], accepted := s.accepted + [r]) else s
    case CloseStop => s.(stopped := true)
    case CloseChannel => s.(closed := true)
    case Receive(w, weather) => Woken(c, s, w, MeteringWorker.Got([s.queue[0]]), weather).(queue := s.queue[1..])
    case Tick(w, weather) => Woken(c, s, w, MeteringWorker.Tick, weather)
    case SeeStop(w, weather) => Woken(c, s, w, MeteringWorker.End, weather)
    case SeeClosed(w, weather) => Woken(c, s, w, MeteringWorker.End, weather)
  }

  function Ran(c: Config, s: Sys, steps: seq<Step>): Option<Sys> {
    if steps == [] then Some(s)
    else
      var n := |steps| - 1;
      match Ran(c, s, steps[..n])
      case None => None
      case Some(t) => if Enabled(t, steps[n]) then Some(Apply(c, t, steps[n])) else None
  }

  ghost predicate Reachable(c: Config, s: Sys) {
    exists steps :: Ran(c, Started(c), steps) == Some(s)
  }

  // ---- What is where ----

  /** The records the workers passed to their flushes. */
  function FlushedBy(workers: seq<Batching>): multiset<Record> {
    if workers == [] then multiset{}
    else
      var n := |workers| - 1;
      FlushedBy(workers[..n]) + multiset(MeteringLaws.Flushed(workers[n].flushes))
  }

  function Held(b: Batching): multiset<Record> {
    multiset(MeteringLaws.Flushed(b.flushes)) + multiset(b.buffer)
  }

  function HeldBy(workers: seq<Batching>): multiset<Record> {
    if workers == [] then multiset{} else HeldBy(workers[..|workers| - 1]) + Held(workers[|workers| - 1])
  }

  lemma MoreLast(a: multiset<Record>, b: multiset<Record>, more: multiset<Record>)
    ensures a + (b + more) == a + b + more && a + more + b == a + b + more
  {
  }

  lemma {:induction false} HeldByUpdate(workers: seq<Batching>, w: nat, b: Batching, more: multiset<Record>)
    requires w < |workers| && Held(b) == Held(workers[w]) + more
    ensures HeldBy(workers[w := b]) == HeldBy(workers) + more
  {
    var n := |workers| - 1;
    var init, updated := workers[..n], workers[w := b];
    MoreLast(HeldBy(init), Held(workers[n]), more);
    if w == n {
      assert updated[..n] == init;
    } else {
      HeldByUpdate(init, w, b, more);
      assert updated[..n] == init[w := b];
    }
  }

  ghost predicate Kept(s: Sys) {
    && multiset(s.accepted) == multiset(s.queue) + HeldBy(s.workers)
    && (s.closed ==> s.stopped)
    && forall w | 0 <= w < |s.workers| && s.workers[w].ended :: s.stopped && s.workers[w].buffer == []
  }

  lemma FlushHolds(b: Batching, due: bool, weather: Weather)
    ensures Held(MeteringWorker.FlushIf(b, due, weather)) == Held(b)
  {
    var flushed := MeteringLaws.Flushed(b.flushes);
    assert (b.flushes + [Flush(b.buffer, weather)])[..|b.flushes|] == b.flushes;
    assert multiset(flushed + b.buffer) == multiset(flushed) + multiset(b.buffer);
  }

  function Arrived(event: MeteringWorker.Event): multiset<Record> {
    if event.Got? then multiset(event.records) else multiset{}
  }

  lemma StepHolds(b: Batching, wake: MeteringWorker.Wake, size: nat)
    requires !b.ended
    ensures var c := MeteringWorker.Step(b, wake, size);
            && Held(c) == Held(b) + Arrived(wake.event)
            && c.ended == wake.event.End? && (c.ended ==> c.buffer == [])
  {
    match wake.event
    case Got(records) =>
      var full := b.(buffer := b.buffer + records);
      assert multiset(b.buffer + records) == multiset(b.buffer) + multiset(records);
      FlushHolds(full, |full.buffer| >= size, wake.weather);
    case _ => FlushHolds(b, true, wake.weather);
  }

  lemma FirstOf(queue: seq<Record>)
    requires queue != []
    ensures multiset(queue) == multiset([queue[0]]) + multiset(queue[1..])
  {
    assert queue == [queue[0]] + queue[1..];
  }

  lemma SendKeeps(s: Sys, r: Record)
    requires Kept(s)
    ensures Kept(s.(queue := s.queue + [r], accepted := s.accepted + [r]))
  {
    assert multiset(s.queue + [r]) == multiset(s.queue) + multiset{r};
    assert multiset(s.accepted + [r]) == multiset(s.accepted) + multiset{r};
  }

  lemma ReceiveKeeps(c: Config, s: Sys, w: nat, weather: Weather)
    requires Kept(s) && Runs(s, w) && s.queue != []
    ensures Kept(Woken(c, s, w, MeteringWorker.Got([s.queue[0]]), weather).(queue := s.queue[1..]))
  {
    FirstOf(s.queue);
    WokenKeeps(c, s, w, MeteringWorker.Got([s.queue[0]]), weather);
  }

  lemma StepKeeps(c: Config, s: Sys, step: Step)
    requires Kept(s) && Enabled(s, step)
    ensures Kept(Apply(c, s, step))
  {
    match step
    case Send(r) => SendKeeps(s, r);
    case CloseStop =>
    case CloseChannel =>
    case Receive(w, weather) => ReceiveKeeps(c, s, w, weather);
    case Tick(w, weather) => WokenKeeps(c, s, w, MeteringWorker.Tick, weather);
    case SeeStop(w, weather) => WokenKeeps(c, s, w, MeteringWorker.End, weather);
    case SeeClosed(w, weather) => WokenKeeps(c, s, w, MeteringWorker.End, weather);
  }

  lemma WokenKeeps(c: Config, s: Sys, w: nat, event: MeteringWorker.Event, weather: Weather)
    requires Kept(s) && Runs(s, w) && (event.End? ==> s.stopped)
    ensures var t := Woken(c, s, w, event, weather);
            && HeldBy(t.workers) == HeldBy(s.workers) + Arrived(event)
            && forall v | 0 <= v < |t.workers| && t.workers[v].ended :: t.stopped && t.workers[v].buffer == []
  {
    var t := Woken(c, s, w, event, weather);
    StepHolds(s.workers[w], MeteringWorker.Wake(event, weather), c.batchSize);
    HeldByUpdate(s.workers, w, t.workers[w], Arrived(event));
  }

  ghost predicate Later(s: Sys, t: Sys) {
    && |t.workers| == |s.workers|
    && (s.stopped ==> t.stopped && t.accepted == s.accepted && |t.queue| <= |s.queue|
                      && t.queue == s.queue[|s.queue| - |t.queue|..])
  }

  lemma StepIsLater(c: Config, s: Sys, step: Step)
    requires Enabled(s, step)
    ensures Later(s, Apply(c, s, step))
  {
  }

  lemma LaterStill(s: Sys, t: Sys, u: Sys)
    requires Later(s, t) && Later(t, u)
    ensures Later(s, u)
  {
  }

  lemma {:induction false} RunKeeps(c: Config, s: Sys, steps: seq<Step>)
    requires Kept(s) && Ran(c, s, steps).Some?
    ensures var t := Ran(c, s, steps).value;
            Kept(t) && Later(s, t)
  {
    if steps != [] {
      var n := |steps| - 1;
      RunKeeps(c, s, steps[..n]);
      var mid := Ran(c, s, steps[..n]).value;
      StepKeeps(c, mid, steps[n]);
      StepIsLater(c, mid, steps[n]);
      LaterStill(s, mid, Apply(c, mid, steps[n]));
    }
  }

  lemma {:induction false} StartKeeps(c: Config)
    ensures Kept(Started(c))
  {
    NothingHeld(Started(c).workers);
  }

  lemma {:induction false} NothingHeld(workers: seq<Batching>)
    requires forall w | 0 <= w < |workers| :: workers[w] == MeteringWorker.FRESH
    ensures HeldBy(workers) == multiset{}
  {
    if workers != [] {
      NothingHeld(workers[..|workers| - 1]);
    }
  }

  // ---- Close ----

  /** Close returns: both channels are closed and every worker has ended. */
  ghost predicate Returned(s: Sys) {
    s.closed && forall w | 0 <= w < |s.workers| :: s.workers[w].ended
  }

  ghost predicate AllFlushed(s: Sys) {
    FlushedBy(s.workers) == multiset(s.accepted)
  }

  lemma {:induction false} NothingBuffered(workers: seq<Batching>)
    requires forall w | 0 <= w < |workers| :: workers[w].buffer == []
    ensures HeldBy(workers) == FlushedBy(workers)
  {
    if workers != [] {
      NothingBuffered(workers[..|workers| - 1]);
    }
  }

  lemma StoppedKeeps(c: Config, s: Sys)
    requires Reachable(c, s) && Enabled(s, CloseStop)
    ensures Kept(Apply(c, s, CloseStop)) && |s.workers| == c.workers
    ensures !s.closed && forall w | 0 <= w < |s.workers| :: !s.workers[w].ended
  {
    var before :| Ran(c, Started(c), before) == Some(s);
    StartKeeps(c);
    RunKeeps(c, Started(c), before);
  }

  lemma ReturnedHolds(t: Sys)
    requires Kept(t) && Returned(t)
    ensures multiset(t.accepted) == FlushedBy(t.workers) + multiset(t.queue)
  {
    NothingBuffered(t.workers);
  }

  /** Once Close has returned, the records not flushed are those left in the channel, the last ones that
      were in it when `stopCh` was closed. */
  lemma CloseLeavesTheQueue(c: Config, s: Sys, steps: seq<Step>)
    requires Reachable(c, s) && Enabled(s, CloseStop)
    requires Ran(c, Apply(c, s, CloseStop), steps).Some? && Returned(Ran(c, Apply(c, s, CloseStop), steps).value)
    ensures var t := Ran(c, Apply(c, s, CloseStop), steps).value;
            && t.accepted == s.accepted
            && multiset(s.accepted) == FlushedBy(t.workers) + multiset(t.queue)
            && |t.queue| <= |s.queue| && t.queue == s.queue[|s.queue| - |t.queue|..]
  {
    StoppedKeeps(c, s);
    var stopped := Apply(c, s, CloseStop);
    RunKeeps(c, stopped, steps);
    ReturnedHolds(Ran(c, stopped, steps).value);
  }

  /** The workers from the first to the i-th see the stop signal. */
  function AllStop(i: nat, weather: Weather): seq<Step> {
    if i == 0 then [CloseChannel] else AllStop(i - 1, weather) + [SeeStop(i - 1, weather)]
  }

  lemma StopOne(c: Config, s: Sys, i: nat, weather: Weather)
    requires Runs(s, i) && s.stopped
    ensures var t := Apply(c, s, SeeStop(i, weather));
            t == s.(workers := t.workers) && |t.workers| == |s.workers|
            && t.workers[i].ended && forall w | 0 <= w < |s.workers| && w != i :: t.workers[w] == s.workers[w]
  {
  }

  lemma RanOne(c: Config, s: Sys, steps: seq<Step>, step: Step)
    requires Ran(c, s, steps).Some? && Enabled(Ran(c, s, steps).value, step)
    ensures Ran(c, s, steps + [step]) == Some(Apply(c, Ran(c, s, steps).value, step))
  {
    assert (steps + [step])[..|steps|] == steps;
  }

  lemma {:induction false} AllStopRuns(c: Config, s: Sys, i: nat, weather: Weather)
    requires s.stopped && !s.closed && i <= |s.workers|
    requires forall w | 0 <= w < |s.workers| :: !s.workers[w].ended
    ensures Ran(c, s, AllStop(i, weather)).Some?
    ensures var t := Ran(c, s, AllStop(i, weather)).value;
            && t.closed && t.stopped && t.queue == s.queue && |t.workers| == |s.workers|
            && forall w | 0 <= w < |s.workers| :: t.workers[w].ended == (w < i)
  {
    if i == 0 {
      assert [CloseChannel][..0] == [];
    } else {
      AllStopRuns(c, s, i - 1, weather);
      var init := AllStop(i - 1, weather);
      RanOne(c, s, init, SeeStop(i - 1, weather));
      StopOne(c, Ran(c, s, init).value, i - 1, weather);
    }
  }

  ghost predicate Flushes(c: Config, s: Sys, steps: seq<Step>) {
    Ran(c, s, steps).Some? && Returned(Ran(c, s, steps).value) ==> AllFlushed(Ran(c, s, steps).value)
  }

  /** Every worker may see the stop signal at once: then the channel is left as it is. */
  lemma StopMayWin(c: Config, s: Sys, weather: Weather)
    requires Reachable(c, s) && Enabled(s, CloseStop)
    ensures var t := Ran(c, Apply(c, s, CloseStop), AllStop(c.workers, weather));
            t.Some? && Returned(t.value) && t.value.queue == s.queue
  {
    StoppedKeeps(c, s);
    AllStopRuns(c, Apply(c, s, CloseStop), c.workers, weather);
  }

  /** Whatever the workers do after it, Close flushes all records if and only if none is in the channel
      when `stopCh` is closed. */
  lemma CloseDrainsExactly(c: Config, s: Sys, weather: Weather)
    requires Reachable(c, s) && Enabled(s, CloseStop)
    ensures (forall steps :: Flushes(c, Apply(c, s, CloseStop), steps)) <==> s.queue == []
  {
    var stopped := Apply(c, s, CloseStop);
    forall steps | s.queue == []
      ensures Flushes(c, stopped, steps)
    {
      if Ran(c, stopped, steps).Some? && Returned(Ran(c, stopped, steps).value) {
        CloseLeavesTheQueue(c, s, steps);
      }
    }
    if s.queue != [] {
      var steps := AllStop(c.workers, weather);
      StopMayWin(c, s, weather);
      CloseLeavesTheQueue(c, s, steps);
      assert multiset(s.queue)[s.queue[0]] > 0;
      assert !Flushes(c, stopped, steps);
    }
  }
}
