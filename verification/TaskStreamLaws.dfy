/** Conservation, retry limits and dead letters, over every run of any number of consumers. */
module TaskStreamLaws {
  import opened Common
  import opened TaskStream

  // ---- Counting a task's entries ----

  function Count(q: seq<Msg>, task: nat): nat {
    if q == [] then 0
    else Count(q[..|q| - 1], task) + if q[|q| - 1].task == task then 1 else 0
  }

  lemma CountAppend(q: seq<Msg>, m: Msg, task: nat)
    ensures Count(q + [m], task) == Count(q, task) + if m.task == task then 1 else 0
  {
    assert (q + [m])[..|q|] == q;
  }

  lemma {:induction false} CountHead(q: seq<Msg>, task: nat)
    requires q != []
    ensures Count(q, task) == Count(q[1..], task) + if q[0].task == task then 1 else 0
    decreases |q|
  {
    if |q| == 1 {
      assert q[..0] == [] && q[1..] == [];
    } else {
      CountHead(q[..|q| - 1], task);
      assert q[1..][..|q[1..]| - 1] == q[..|q| - 1][1..];
    }
  }

  lemma {:induction false} CountWhere(q: seq<Msg>, i: nat)
    requires i < |q|
    ensures Count(q, q[i].task) >= 1
    decreases |q|
  {
    if i < |q| - 1 {
      CountWhere(q[..|q| - 1], i);
    }
  }

  function HeldCount(cs: seq<Option<Hold>>, task: nat): nat {
    if cs == [] then 0
    else HeldCount(cs[..|cs| - 1], task) + IsHeld(cs[|cs| - 1], task)
  }

  function IsHeld(c: Option<Hold>, task: nat): nat {
    if c.Some? && c.value.msg.task == task then 1 else 0
  }

  lemma {:induction false} HeldUpdate(cs: seq<Option<Hold>>, c: nat, h: Option<Hold>, task: nat)
    requires c < |cs|
    ensures HeldCount(cs[c := h], task) + IsHeld(cs[c], task) == HeldCount(cs, task) + IsHeld(h, task)
    decreases |cs|
  {
    var m := |cs| - 1;
    if c == m {
      assert cs[c := h][..m] == cs[..m];
    } else {
      assert cs[c := h][..m] == cs[..m][c := h];
      HeldUpdate(cs[..m], c, h, task);
    }
  }

  lemma {:induction false} HeldByTwo(cs: seq<Option<Hold>>, c: nat, d: nat, task: nat)
    requires c < |cs| && d < |cs|
    ensures HeldCount(cs, task) >= IsHeld(cs[c], task)
    ensures c != d ==> HeldCount(cs, task) >= IsHeld(cs[c], task) + IsHeld(cs[d], task)
    decreases |cs|
  {
    var m := |cs| - 1;
    if c < m && d < m {
      HeldByTwo(cs[..m], c, d, task);
    } else if c < m {
      HeldByTwo(cs[..m], c, c, task);
    } else if d < m {
      HeldByTwo(cs[..m], d, d, task);
    }
  }

  /** How many places hold an entry of a published task. */
  function Places(s: Sys, task: nat): nat {
    Count(s.stream, task) + HeldCount(s.consumers, task)
    + Count(s.done, task) + Count(s.dlq, task) + Count(s.dropped, task) + Count(s.lost, task)
  }

  ghost predicate Conserved(s: Sys, task: nat) {
    Places(s, task) == if task < |s.runs| then 1 else 0
  }

  lemma DeliverConserves(cfg: Config, s: Sys, step: Step, task: nat)
    requires Conserved(s, task) && step.Deliver? && Enabled(cfg, s, step)
    ensures Conserved(Apply(cfg, s, step), task)
  {
    CountHead(s.stream, task);
    HeldUpdate(s.consumers, step.c, Some(Hold(s.stream[0], Read)), task);
  }

  lemma AckFailedConserves(cfg: Config, s: Sys, step: Step, task: nat)
    requires Conserved(s, task) && step.Ack? && Holds(s, step.c, Failed)
    ensures Conserved(Apply(cfg, s, step), task)
  {
    HeldUpdate(s.consumers, step.c, Some(s.consumers[step.c].value.(stage := FailedAcked)), task);
  }

  lemma AckDoneConserves(cfg: Config, s: Sys, step: Step, task: nat)
    requires Conserved(s, task) && step.Ack? && Holds(s, step.c, Succeeded)
    ensures Conserved(Apply(cfg, s, step), task)
  {
    HeldUpdate(s.consumers, step.c, None, task);
    CountAppend(s.done, s.consumers[step.c].value.msg, task);
  }

  lemma AckDroppedConserves(cfg: Config, s: Sys, step: Step, task: nat)
    requires Conserved(s, task) && step.Ack? && Enabled(cfg, s, step) && Holds(s, step.c, Read)
    ensures Conserved(Apply(cfg, s, step), task)
  {
    HeldUpdate(s.consumers, step.c, None, task);
    CountAppend(s.dropped, s.consumers[step.c].value.msg, task);
  }

  lemma AckConserves(cfg: Config, s: Sys, step: Step, task: nat)
    requires Conserved(s, task) && step.Ack? && Enabled(cfg, s, step)
    ensures Conserved(Apply(cfg, s, step), task)
  {
    match s.consumers[step.c].value.stage
    case Failed => AckFailedConserves(cfg, s, step, task);
    case Succeeded => AckDoneConserves(cfg, s, step, task);
    case _ => AckDroppedConserves(cfg, s, step, task);
  }

  lemma LostConserves(cfg: Config, s: Sys, step: Step, task: nat)
    requires Conserved(s, task) && step.Resolve? && Holds(s, step.c, FailedAcked) && !cfg.adds && !step.addOk
    ensures Conserved(Apply(cfg, s, step), task)
  {
    HeldUpdate(s.consumers, step.c, None, task);
    CountAppend(s.lost, s.consumers[step.c].value.msg, task);
  }

  lemma DeadLetterConserves(cfg: Config, s: Sys, step: Step, task: nat)
    requires Conserved(s, task) && step.Resolve? && Holds(s, step.c, FailedAcked) && step.addOk
    requires s.consumers[step.c].value.msg.retryCount >= cfg.maxRetries
    ensures Conserved(Apply(cfg, s, step), task)
  {
    HeldUpdate(s.consumers, step.c, None, task);
    CountAppend(s.dlq, s.consumers[step.c].value.msg, task);
  }

  lemma RequeueConserves(cfg: Config, s: Sys, step: Step, task: nat)
    requires Conserved(s, task) && step.Resolve? && Holds(s, step.c, FailedAcked) && step.addOk
    requires s.consumers[step.c].value.msg.retryCount < cfg.maxRetries
    ensures Conserved(Apply(cfg, s, step), task)
  {
    var msg := s.consumers[step.c].value.msg;
    HeldUpdate(s.consumers, step.c, None, task);
    CountAppend(s.stream, msg.(retryCount := msg.retryCount + 1), task);
  }

  lemma ResolveConserves(cfg: Config, s: Sys, step: Step, task: nat)
    requires Conserved(s, task) && step.Resolve? && Enabled(cfg, s, step)
    ensures Conserved(Apply(cfg, s, step), task)
  {
    if !step.addOk {
      LostConserves(cfg, s, step, task);
    } else if s.consumers[step.c].value.msg.retryCount >= cfg.maxRetries {
      DeadLetterConserves(cfg, s, step, task);
    } else {
      RequeueConserves(cfg, s, step, task);
    }
  }

  lemma StepConserves(cfg: Config, s: Sys, step: Step, task: nat)
    requires Conserved(s, task) && Enabled(cfg, s, step)
    ensures Conserved(Apply(cfg, s, step), task)
  {
    match step
    case Publish(hasPayload) => CountAppend(s.stream, Msg(|s.runs|, 0, hasPayload), task);
    case Deliver(_) => DeliverConserves(cfg, s, step, task);
    case Process(c, ok) =>
      HeldUpdate(s.consumers, c, Some(Hold(s.consumers[c].value.msg, if ok then Succeeded else Failed)), task);
    case Ack(_) => AckConserves(cfg, s, step, task);
    case Resolve(_, _) => ResolveConserves(cfg, s, step, task);
  }

  lemma {:induction false} NobodyHolds(n: nat, task: nat)
    ensures HeldCount(seq(n, _ => None), task) == 0
  {
    if n > 0 {
      var none: seq<Option<Hold>> := seq(n, _ => None);
      assert none[..n - 1] == seq(n - 1, _ => None);
      NobodyHolds(n - 1, task);
    }
  }

  lemma {:induction false} RunConserves(cfg: Config, steps: seq<Step>, task: nat)
    requires After(cfg, steps).Some?
    ensures Conserved(After(cfg, steps).value, task)
    decreases |steps|
  {
    if steps == [] {
      NobodyHolds(cfg.consumers, task);
    } else {
      RunConserves(cfg, steps[..|steps| - 1], task);
      StepConserves(cfg, After(cfg, steps[..|steps| - 1]).value, steps[|steps| - 1], task);
    }
  }

  // ---- Retry counts ----

  ghost predicate AllFailed(rs: seq<bool>) {
    forall i | 0 <= i < |rs| :: !rs[i]
  }

  ghost predicate OnlyLastSucceeded(rs: seq<bool>) {
    rs != [] && rs[|rs| - 1] && AllFailed(rs[..|rs| - 1])
  }

  /** An entry counts the handler calls that failed before it was added. */
  ghost predicate Fresh(cfg: Config, s: Sys, m: Msg) {
    && m.task < |s.runs| && |s.runs[m.task]| == m.retryCount <= cfg.maxRetries
    && AllFailed(s.runs[m.task])
  }

  /** The handler has run for it once more, and `ok` says how that ended. */
  ghost predicate Spent(cfg: Config, s: Sys, m: Msg, ok: bool) {
    && m.hasPayload && m.task < |s.runs| && |s.runs[m.task]| == m.retryCount + 1 && m.retryCount <= cfg.maxRetries
    && if ok then OnlyLastSucceeded(s.runs[m.task]) else AllFailed(s.runs[m.task])
  }

  ghost predicate HoldOk(cfg: Config, s: Sys, c: Option<Hold>) {
    c.Some? ==>
      if c.value.stage == Read then Fresh(cfg, s, c.value.msg)
      else Spent(cfg, s, c.value.msg, c.value.stage == Succeeded)
  }

  ghost predicate Counted(cfg: Config, s: Sys) {
    && (forall i | 0 <= i < |s.stream| :: Fresh(cfg, s, s.stream[i]))
    && (forall c | 0 <= c < |s.consumers| :: HoldOk(cfg, s, s.consumers[c]))
    && (forall i | 0 <= i < |s.done| :: Spent(cfg, s, s.done[i], true))
    && (forall i | 0 <= i < |s.dlq| :: Spent(cfg, s, s.dlq[i], false) && s.dlq[i].retryCount == cfg.maxRetries)
    && (forall i | 0 <= i < |s.dropped| :: Fresh(cfg, s, s.dropped[i]) && !s.dropped[i].hasPayload)
    && (forall i | 0 <= i < |s.lost| :: Spent(cfg, s, s.lost[i], false))
    && (cfg.adds ==> s.lost == [])
  }

  /** A published task that a consumer is handling has no entry anywhere else. */
  lemma NowhereElse(s: Sys, c: nat)
    requires c < |s.consumers| && s.consumers[c].Some? && Conserved(s, s.consumers[c].value.msg.task)
    ensures var task := s.consumers[c].value.msg.task;
            && (forall i | 0 <= i < |s.stream| :: s.stream[i].task != task)
            && (forall d | 0 <= d < |s.consumers| && d != c && s.consumers[d].Some? :: s.consumers[d].value.msg.task != task)
            && (forall i | 0 <= i < |s.done| :: s.done[i].task != task)
            && (forall i | 0 <= i < |s.dlq| :: s.dlq[i].task != task)
            && (forall i | 0 <= i < |s.dropped| :: s.dropped[i].task != task)
            && (forall i | 0 <= i < |s.lost| :: s.lost[i].task != task)
  {
    var task := s.consumers[c].value.msg.task;
    HeldByTwo(s.consumers, c, c, task);
    assert HeldCount(s.consumers, task) == 1;
    forall d | 0 <= d < |s.consumers| && d != c && s.consumers[d].Some?
      ensures s.consumers[d].value.msg.task != task
    {
      HeldByTwo(s.consumers, c, d, task);
    }
    NotIn(s.stream, task);
    NotIn(s.done, task);
    NotIn(s.dlq, task);
    NotIn(s.dropped, task);
    NotIn(s.lost, task);
  }

  lemma NotIn(q: seq<Msg>, task: nat)
    requires Count(q, task) == 0
    ensures forall i | 0 <= i < |q| :: q[i].task != task
  {
    forall i | 0 <= i < |q|
      ensures q[i].task != task
    {
      CountWhere(q, i);
    }
  }

  lemma ProcessKeepsCounts(cfg: Config, s: Sys, step: Step)
    requires Counted(cfg, s) && step.Process? && Enabled(cfg, s, step)
    requires Conserved(s, s.consumers[step.c].value.msg.task)
    ensures Counted(cfg, Apply(cfg, s, step))
  {
    NowhereElse(s, step.c);
  }

  lemma AckKeepsCounts(cfg: Config, s: Sys, step: Step)
    requires Counted(cfg, s) && step.Ack? && Enabled(cfg, s, step)
    ensures Counted(cfg, Apply(cfg, s, step))
  {
    assert HoldOk(cfg, s, s.consumers[step.c]);
  }

  lemma ResolveKeepsCounts(cfg: Config, s: Sys, step: Step)
    requires Counted(cfg, s) && step.Resolve? && Enabled(cfg, s, step)
    ensures Counted(cfg, Apply(cfg, s, step))
  {
    assert HoldOk(cfg, s, s.consumers[step.c]);
  }

  lemma StepKeepsCounts(cfg: Config, s: Sys, step: Step)
    requires Counted(cfg, s) && Enabled(cfg, s, step)
    requires forall task :: Conserved(s, task)
    ensures Counted(cfg, Apply(cfg, s, step))
  {
    match step
    case Process(c, _) => ProcessKeepsCounts(cfg, s, step);
    case Resolve(_, _) => ResolveKeepsCounts(cfg, s, step);
    case Ack(_) => AckKeepsCounts(cfg, s, step);
    case _ =>
  }

  lemma {:induction false} RunKeepsCounts(cfg: Config, steps: seq<Step>)
    requires After(cfg, steps).Some?
    ensures Counted(cfg, After(cfg, steps).value)
    decreases |steps|
  {
    if steps != [] {
      RunKeepsCounts(cfg, steps[..|steps| - 1]);
      var s := After(cfg, steps[..|steps| - 1]).value;
      forall task: nat
        ensures Conserved(s, task)
      {
        RunConserves(cfg, steps[..|steps| - 1], task);
      }
      StepKeepsCounts(cfg, s, steps[|steps| - 1]);
    }
  }

  // ---- What holds in every reachable state ----

  lemma ReachableLaws(cfg: Config, s: Sys)
    requires Reachable(cfg, s)
    ensures Counted(cfg, s) && forall task: nat :: Conserved(s, task)
  {
    var steps :| After(cfg, steps) == Some(s);
    RunKeepsCounts(cfg, steps);
    forall task: nat
      ensures Conserved(s, task)
    {
      RunConserves(cfg, steps, task);
    }
  }

  /** Every published task has exactly one entry, in the stream, with a consumer, completed, dead,
      dropped for want of a payload, or lost with a failed XADD. */
  lemma EachTaskIsInOnePlace(cfg: Config, s: Sys, task: nat)
    requires Reachable(cfg, s)
    ensures Count(s.stream, task) + HeldCount(s.consumers, task) + Count(s.done, task)
            + Count(s.dlq, task) + Count(s.dropped, task) + Count(s.lost, task)
            == if task < |s.runs| then 1 else 0
  {
    ReachableLaws(cfg, s);
    assert Conserved(s, task);
  }

  lemma {:induction false} Find(q: seq<Msg>, task: nat) returns (i: nat)
    requires Count(q, task) > 0
    ensures i < |q| && q[i].task == task
    decreases |q|
  {
    if q[|q| - 1].task == task {
      i := |q| - 1;
    } else {
      i := Find(q[..|q| - 1], task);
    }
  }

  lemma {:induction false} FindHeld(cs: seq<Option<Hold>>, task: nat) returns (c: nat)
    requires HeldCount(cs, task) > 0
    ensures c < |cs| && IsHeld(cs[c], task) == 1
    decreases |cs|
  {
    if IsHeld(cs[|cs| - 1], task) == 1 {
      c := |cs| - 1;
    } else {
      c := FindHeld(cs[..|cs| - 1], task);
    }
  }

  /** How the handler's calls for a task ended says where its entry may be: a completed task succeeded
      with its last call and failed with all before; one that is queued, dead or lost failed with all. */
  lemma OutcomesDecide(cfg: Config, s: Sys, m: Msg)
    requires Reachable(cfg, s)
    ensures m in s.done ==> m.task < |s.runs| && OnlyLastSucceeded(s.runs[m.task])
    ensures m in s.stream || m in s.dlq || m in s.lost ==> m.task < |s.runs| && AllFailed(s.runs[m.task])
    ensures m in s.dropped ==> !m.hasPayload && m.task < |s.runs| && AllFailed(s.runs[m.task])
  {
    ReachableLaws(cfg, s);
  }

  /** A task some call succeeded for is completed, or held until that is acknowledged. */
  lemma SuccessIsKept(cfg: Config, s: Sys, task: nat, i: nat)
    requires Reachable(cfg, s) && task < |s.runs| && i < |s.runs[task]| && s.runs[task][i]
    ensures Count(s.done, task) + HeldCount(s.consumers, task) == 1
  {
    ReachableLaws(cfg, s);
    assert Conserved(s, task);
    if Count(s.stream, task) > 0 {
      var j := Find(s.stream, task);
    } else if Count(s.dlq, task) > 0 {
      var j := Find(s.dlq, task);
    } else if Count(s.dropped, task) > 0 {
      var j := Find(s.dropped, task);
    } else if Count(s.lost, task) > 0 {
      var j := Find(s.lost, task);
    }
  }

  /** The handler runs at most once more than there are retries. */
  lemma HandlerRunsAreBounded(cfg: Config, s: Sys, task: nat)
    requires Reachable(cfg, s) && task < |s.runs|
    ensures |s.runs[task]| <= cfg.maxRetries + 1
  {
    ReachableLaws(cfg, s);
    assert Conserved(s, task);
    if Count(s.stream, task) > 0 {
      var i := Find(s.stream, task);
    } else if HeldCount(s.consumers, task) > 0 {
      var c := FindHeld(s.consumers, task);
      assert HoldOk(cfg, s, s.consumers[c]);
    } else if Count(s.done, task) > 0 {
      var i := Find(s.done, task);
    } else if Count(s.dlq, task) > 0 {
      var i := Find(s.dlq, task);
    } else if Count(s.dropped, task) > 0 {
      var i := Find(s.dropped, task);
    } else {
      var i := Find(s.lost, task);
    }
  }

  /** A dead letter says how often its task was retried, and that is as often as allowed. */
  lemma DeadLettersAreExhausted(cfg: Config, s: Sys, i: nat)
    requires Reachable(cfg, s) && i < |s.dlq|
    ensures s.dlq[i].retryCount == cfg.maxRetries
    ensures s.dlq[i].task < |s.runs| && |s.runs[s.dlq[i].task]| == cfg.maxRetries + 1
  {
    ReachableLaws(cfg, s);
  }

  /** When nothing is queued or held, every task was completed or is a dead letter, but for those
      that had no payload. */
  lemma DrainedMeansSettled(cfg: Config, s: Sys, task: nat)
    requires Reachable(cfg, s) && cfg.adds && task < |s.runs|
    requires s.stream == [] && forall c | 0 <= c < |s.consumers| :: s.consumers[c] == None
    ensures Count(s.done, task) + Count(s.dlq, task) + Count(s.dropped, task) == 1
  {
    ReachableLaws(cfg, s);
    assert Conserved(s, task);
    if HeldCount(s.consumers, task) > 0 {
      var c := FindHeld(s.consumers, task);
    }
  }

  lemma {:induction false} ConsumersFixed(cfg: Config, steps: seq<Step>)
    requires After(cfg, steps).Some?
    ensures |After(cfg, steps).value.consumers| == cfg.consumers
    decreases |steps|
  {
    if steps != [] {
      ConsumersFixed(cfg, steps[..|steps| - 1]);
    }
  }

  lemma LoseOne(cfg: Config) returns (s: Sys)
    requires !cfg.adds && cfg.consumers > 0
    ensures Reachable(cfg, s) && s.lost != []
  {
    s := Start(cfg);
    assert After(cfg, []) == Some(s);
    ReachableStep(cfg, s, Publish(true));
    s := Apply(cfg, s, Publish(true));
    ReachableStep(cfg, s, Deliver(0));
    s := Apply(cfg, s, Deliver(0));
    ReachableStep(cfg, s, Process(0, false));
    s := Apply(cfg, s, Process(0, false));
    ReachableStep(cfg, s, Ack(0));
    s := Apply(cfg, s, Ack(0));
    ReachableStep(cfg, s, Resolve(0, false));
    s := Apply(cfg, s, Resolve(0, false));
  }

  lemma {:induction false} NothingLostUnread(cfg: Config, steps: seq<Step>)
    requires cfg.consumers == 0 && After(cfg, steps).Some?
    ensures After(cfg, steps).value.lost == []
    decreases |steps|
  {
    if steps != [] {
      NothingLostUnread(cfg, steps[..|steps| - 1]);
      ConsumersFixed(cfg, steps[..|steps| - 1]);
    }
  }

  /** A failed message is acknowledged before it is added back, so tasks are kept in every run
      exactly when those XADDs succeed (or nothing is ever consumed). */
  lemma NothingIsLostWhenAddsSucceed(cfg: Config)
    ensures (forall s :: Reachable(cfg, s) ==> s.lost == []) <==> cfg.adds || cfg.consumers == 0
  {
    if cfg.adds {
      forall s | Reachable(cfg, s)
        ensures s.lost == []
      {
        ReachableLaws(cfg, s);
      }
    } else if cfg.consumers == 0 {
      forall s | Reachable(cfg, s)
        ensures s.lost == []
      {
        var steps :| After(cfg, steps) == Some(s);
        NothingLostUnread(cfg, steps);
      }
    } else {
      var s := LoseOne(cfg);
    }
  }
}
