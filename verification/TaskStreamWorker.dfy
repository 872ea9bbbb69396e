/** One turn of a consumer's loop, with the publishers and the other consumers stepping in between. */
module TaskStreamWorker {
  import opened Common
  import opened TaskStream
  import opened TaskStreamLaws

  datatype Turn = Nothing | Dropped(m: Msg) | Completed(m: Msg) | DeadLettered(m: Msg) | Requeued(m: Msg) | Lost(m: Msg)

  function ConsumerOf(step: Step): int {
    match step
    case Publish(_) => -1
    case Deliver(c) => c
    case Process(c, _) => c
    case Ack(c) => c
    case Resolve(c, _) => c
  }

  ghost predicate EndsWith(q: seq<Msg>, m: Msg) {
    q != [] && q[|q| - 1] == m
  }

  /** Where the turn left the message it read. */
  ghost predicate TurnEnds(cfg: Config, s: Sys, turn: Turn) {
    match turn
    case Nothing => true
    case Dropped(m) => !m.hasPayload && EndsWith(s.dropped, m)
    case Completed(m) => m.hasPayload && EndsWith(s.done, m)
    case DeadLettered(m) => m.hasPayload && m.retryCount >= cfg.maxRetries && EndsWith(s.dlq, m)
    case Requeued(m) =>
      m.hasPayload && m.retryCount < cfg.maxRetries && EndsWith(s.stream, m.(retryCount := m.retryCount + 1))
    case Lost(m) => m.hasPayload && !cfg.adds && EndsWith(s.lost, m)
  }

  /** The message a turn is about; a requeued one has a higher count in the stream. */
  lemma FailedTurn(cfg: Config, s: Sys, turn: Turn)
    requires Reachable(cfg, s) && TurnEnds(cfg, s, turn) && (turn.DeadLettered? || turn.Requeued? || turn.Lost?)
    ensures turn.m.task < |s.runs| && AllFailed(s.runs[turn.m.task])
  {
    var m := turn.m;
    OutcomesDecide(cfg, s, if turn.Requeued? then m.(retryCount := m.retryCount + 1) else m);
  }

  class Worker {
    const cfg: Config
    const c: nat
    var sys: Sys
    ghost var steps: seq<Step>

    ghost predicate Valid()
      reads this
    {
      && After(cfg, steps) == Some(sys) && Reachable(cfg, sys)
      && c < |sys.consumers|
    }

    constructor (configured: int, consumers: nat, adds: bool, c: nat)
      requires c < consumers
      ensures Valid() && cfg == Config(if configured > 0 then configured else 3, consumers, adds) && this.c == c
      ensures sys == Start(cfg)
    {
      cfg := Config(MaxRetries(configured), consumers, adds);
      this.c := c;
      sys := Start(Config(MaxRetries(configured), consumers, adds));
      steps := [];
      new;
      assert After(cfg, []) == Some(sys);
    }

    method Take(step: Step)
      requires Valid() && Enabled(cfg, sys, step)
      modifies this
      ensures Valid() && sys == Apply(cfg, old(sys), step) && steps == old(steps) + [step]
    {
      ReachableStep(cfg, sys, step);
      sys := Apply(cfg, sys, step);
      steps := steps + [step];
      assert steps[..|steps| - 1] == old(steps);
    }

    method Interfere()
      requires Valid()
      modifies this
      ensures Valid() && old(steps) <= steps && sys.consumers[c] == old(sys.consumers[c])
      ensures |old(sys.runs)| <= |sys.runs|
    {
      var count: int := *;
      for i := 0 to Max(count, 0)
        invariant Valid() && old(steps) <= steps && sys.consumers[c] == old(sys.consumers[c])
        invariant |old(sys.runs)| <= |sys.runs|
      {
        var step: Step := *;
        if ConsumerOf(step) != c && Enabled(cfg, sys, step) {
          Take(step);
        }
      }
    }

    /** `outcome` is how the handler's call ended, if there was one; `met` is what the read met. */
    method ConsumeStreamWithDLQ() returns (turn: Turn, outcome: Option<bool>, readOk: bool, ghost met: Sys)
      requires Valid() && sys.consumers[c] == None
      modifies this
      ensures Valid() && old(steps) <= steps && sys.consumers[c] == None
      ensures turn.Nothing? <==> !readOk || met.stream == []
      ensures !turn.Nothing? ==> turn.m == met.stream[0]
      ensures TurnEnds(cfg, sys, turn) && (turn.Nothing? || turn.Dropped? <==> outcome == None)
      ensures turn.Completed? <==> outcome == Some(true)
      ensures turn.DeadLettered? || turn.Requeued? || turn.Lost? <==> outcome == Some(false)
      ensures turn.Completed? ==> turn.m.task < |sys.runs| && OnlyLastSucceeded(sys.runs[turn.m.task])
      ensures outcome == Some(false) ==> turn.m.task < |sys.runs| && AllFailed(sys.runs[turn.m.task])
    {
      outcome := None;
      var delivered;
      delivered, readOk, met := ReadGroup();
      if delivered == None {
        turn := Nothing;
        return;
      }
      var m := delivered.value;
      if !m.hasPayload {
        Interfere();
        Take(Ack(c));
        turn := Dropped(m);
        return;
      }
      Interfere();
      var ok: bool := *;
      Take(Process(c, ok));
      outcome := Some(ok);
      Interfere();
      Take(Ack(c));
      if ok {
        OutcomesDecide(cfg, sys, m);
        turn := Completed(m);
        return;
      }
      turn := RequeueOrDeadLetter(m);
    }

    /** XREADGROUP with a count of one: the oldest undelivered entry, if the call succeeds. */
    method ReadGroup() returns (m: Option<Msg>, readOk: bool, ghost met: Sys)
      requires Valid() && sys.consumers[c] == None
      modifies this
      ensures Valid() && old(steps) <= steps
      ensures m == None <==> !readOk || met.stream == []
      ensures m == None ==> sys.consumers[c] == None
      ensures m.Some? ==> m.value == met.stream[0] && sys.consumers[c] == Some(Hold(m.value, Read)) && m.value.task < |sys.runs|
    {
      Interfere();
      readOk, met := *, sys;
      if !readOk || sys.stream == [] {
        m := None;
        return;
      }
      ReachableLaws(cfg, sys);
      m := Some(sys.stream[0]);
      Take(Deliver(c));
    }

    /** pushToDLQ or requeueTask, after the failed message was acknowledged. */
    method RequeueOrDeadLetter(m: Msg) returns (turn: Turn)
      requires Valid() && sys.consumers[c] == Some(Hold(m, FailedAcked)) && m.hasPayload
      modifies this
      ensures Valid() && old(steps) <= steps && sys.consumers[c] == None
      ensures TurnEnds(cfg, sys, turn) && (turn == Lost(m) || turn == DeadLettered(m) || turn == Requeued(m))
      ensures m.task < |sys.runs| && AllFailed(sys.runs[m.task])
    {
      Interfere();
      var addOk: bool := *;
      addOk := addOk || cfg.adds;
      Take(Resolve(c, addOk));
      turn := if !addOk then Lost(m) else if m.retryCount >= cfg.maxRetries then DeadLettered(m) else Requeued(m);
      FailedTurn(cfg, sys, turn);
    }
  }
}
