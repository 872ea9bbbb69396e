/** Any number of consumers: stale counts can undo retries already counted, yet every message is
    handled a bounded number of times. */
module OutboxBound {
  import opened Common
  import opened Outbox
  import opened OutboxSafety
  import opened StaleCounts

  // ---- The bound ----

  /** The scanned copy of row `id` a worker still holds. */
  function Held(q: seq<Snap>, id: int): Option<Snap> {
    if q == [] then None else if q[0].id == id then Some(q[0]) else Held(q[1..], id)
  }

  /** The count worker w would act on; none counts as above all. */
  function Count(s: Sys, w: nat, id: int): int
    requires w < |s.workers|
  {
    match Held(Queue(s.workers[w]), id)
    case None => MAX_RETRY + 1
    case Some(snap) => snap.retryCount
  }

  function Counts(s: Sys, id: int): (vs: seq<int>)
    ensures |vs| == |s.workers| && forall w | 0 <= w < |s.workers| :: vs[w] == Count(s, w, id)
  {
    seq(|s.workers|, w requires 0 <= w < |s.workers| => Count(s, w, id))
  }

  ghost predicate Live(s: Sys, id: int) {
    id in s.rows && (s.rows[id].status == Pending
      || exists w :: 0 <= w < |s.workers| && Held(s.workers[w].claimed, id).Some?)
  }

  /** Worker w has handled the row and not written the result. */
  ghost predicate Outstanding(s: Sys, w: nat, id: int)
    requires w < |s.workers|
  {
    var l := s.workers[w];
    l.phase.Handled? && l.claimed != [] && l.claimed[0].id == id
  }

  ghost predicate SomeOutstanding(s: Sys, id: int) {
    exists w :: 0 <= w < |s.workers| && Outstanding(s, w, id)
  }

  function Most(n: nat): nat {
    Ways(n + 1, MAX_RETRY)
  }

  /** Handlings are paid for by what is used up. */
  ghost predicate Bounded(s: Sys, id: int) {
    && id in s.rows && id in s.runs
    && |s.runs[id]| <= Most(|s.workers|)
    && (Live(s, id) ==>
          && 0 <= s.rows[id].retryCount <= MAX_RETRY
          && |s.runs[id]| <= Used(Counts(s, id), s.rows[id].retryCount, MAX_RETRY)
                             + if SomeOutstanding(s, id) then 1 else 0)
  }

  // ---- Looking up held rows ----

  lemma {:induction false} HeldNone(q: seq<Snap>, id: int)
    requires forall i | 0 <= i < |q| :: q[i].id != id
    ensures Held(q, id) == None
  {
    if q != [] {
      HeldNone(q[1..], id);
    }
  }

  lemma {:induction false} HeldWhere(q: seq<Snap>, id: int) returns (i: nat)
    requires Held(q, id).Some?
    ensures i < |q| && q[i].id == id && Held(q, id) == Some(q[i])
  {
    if q[0].id == id {
      i := 0;
    } else {
      i := HeldWhere(q[1..], id);
      i := i + 1;
    }
  }

  lemma {:induction false} HeldConcat(p: seq<Snap>, q: seq<Snap>, id: int)
    ensures Held(p + q, id) == if Held(p, id).Some? then Held(p, id) else Held(q, id)
  {
    if p == [] {
      assert p + q == q;
    } else {
      assert (p + q)[1..] == p[1..] + q;
      HeldConcat(p[1..], q, id);
    }
  }

  // ---- Steps ----

  /** Nobody's count falls below the row's, so the bound is kept. */
  lemma KeptIfNobodyFalls(s: Sys, t: Sys, id: int)
    requires Bounded(s, id) && id in t.rows && id in t.runs && |t.workers| == |s.workers|
    requires t.runs[id] == s.runs[id] && t.rows[id].retryCount == s.rows[id].retryCount
    requires Live(t, id) ==> Live(s, id)
    requires SomeOutstanding(s, id) ==> SomeOutstanding(t, id)
    requires forall v | 0 <= v < |s.workers| :: Count(t, v, id) >= Count(s, v, id) || Count(t, v, id) >= s.rows[id].retryCount
    ensures Bounded(t, id)
  {
    if Live(t, id) {
      UsedGrows(Counts(s, id), Counts(t, id), s.rows[id].retryCount, MAX_RETRY);
    }
  }

  lemma OutstandingStays(s: Sys, t: Sys, w: nat, id: int)
    requires w < |s.workers| == |t.workers| && SomeOutstanding(s, id)
    requires forall v | 0 <= v < |s.workers| && v != w :: t.workers[v] == s.workers[v]
    requires Outstanding(s, w, id) ==> Outstanding(t, w, id)
    ensures SomeOutstanding(t, id)
  {
    var v :| 0 <= v < |s.workers| && Outstanding(s, v, id);
    assert Outstanding(t, v, id);
  }

  /** Without the first of the rows to claim, a row is held as before or not at all. */
  lemma HeldWithout(claimed: seq<Snap>, toClaim: seq<Snap>, id: int)
    requires toClaim != [] && Ascending(claimed + toClaim)
    ensures var before, after := Held(claimed + toClaim, id), Held(claimed + toClaim[1..], id);
            after == before || after == None
  {
    var rest := toClaim[1..];
    HeldConcat(claimed, toClaim, id);
    HeldConcat(claimed, rest, id);
    if toClaim[0].id == id {
      forall i | 0 <= i < |rest|
        ensures rest[i].id != id
      {
        assert (claimed + toClaim)[|claimed|].id < (claimed + toClaim)[|claimed| + 1 + i].id;
      }
      HeldNone(rest, id);
    }
  }

  lemma ClaimCount(s: Sys, step: Step, id: int, v: nat)
    requires Inv(s) && step.Claim? && Enabled(s, step) && id in s.rows && v < |s.workers|
    ensures Count(Apply(s, step), v, id) >= Count(s, v, id)
  {
    var t := Apply(s, step);
    if v == step.w {
      var l, l' := s.workers[v], t.workers[v];
      assert WorkerOk(s, v);
      if l'.claimed == l.claimed {
        HeldWithout(l.claimed, l.toClaim, id);
        CountOfHeld(s, v, id);
      } else {
        assert Queue(l') == Queue(l);
      }
    }
  }

  lemma CountOfHeld(s: Sys, v: nat, id: int)
    requires Inv(s) && v < |s.workers|
    ensures 0 <= Count(s, v, id) <= MAX_RETRY + 1
  {
    var l := s.workers[v];
    if Held(Queue(l), id).Some? {
      var i := HeldWhere(Queue(l), id);
      assert WorkerOk(s, v);
      if i < |l.claimed| {
        assert SnapOk(s, l.claimed[i]);
      } else {
        assert SnapOk(s, l.toClaim[i - |l.claimed|]);
      }
    }
  }

  lemma ClaimLive(s: Sys, step: Step, id: int)
    requires step.Claim? && Enabled(s, step) && id in s.rows && Live(Apply(s, step), id)
    ensures Live(s, id)
  {
    var t := Apply(s, step);
    if s.rows[id].status != Pending {
      var v :| 0 <= v < |t.workers| && Held(t.workers[v].claimed, id).Some?;
      if v == step.w {
        HeldConcat(s.workers[v].claimed, [s.workers[v].toClaim[0]], id);
      }
      assert Held(s.workers[v].claimed, id).Some?;
    }
  }

  lemma ClaimKeepsBound(s: Sys, step: Step, id: int)
    requires Inv(s) && step.Claim? && Enabled(s, step) && Bounded(s, id)
    ensures Bounded(Apply(s, step), id)
  {
    var t := Apply(s, step);
    assert WorkerOk(s, step.w) && SnapOk(s, s.workers[step.w].toClaim[0]);
    forall v | 0 <= v < |s.workers|
      ensures Count(t, v, id) >= Count(s, v, id)
    {
      ClaimCount(s, step, id, v);
    }
    if Live(t, id) {
      ClaimLive(s, step, id);
    }
    if SomeOutstanding(s, id) {
      OutstandingStays(s, t, step.w, id);
    }
    KeptIfNobodyFalls(s, t, id);
  }

  /** A fresh answer holds a row with its count in the table. */
  lemma SelectedHeld(rows: map<int, Row>, now: int, limit: nat, unscanned: set<int>, id: int)
    requires id in rows && Held(SelectDue(rows, now, limit, unscanned), id).Some?
    ensures Held(SelectDue(rows, now, limit, unscanned), id).value.retryCount == rows[id].retryCount
  {
    var r := SelectDue(rows, now, limit, unscanned);
    var i := HeldWhere(r, id);
    assert r[i] in r;
  }

  lemma SelectCount(s: Sys, step: Step, id: int, v: nat)
    requires step.Select? && Enabled(s, step) && id in s.rows && v < |s.workers|
    ensures Count(Apply(s, step), v, id) >= Count(s, v, id) || Count(Apply(s, step), v, id) >= s.rows[id].retryCount
  {
    if v == step.w {
      var l := Apply(s, step).workers[v];
      assert Queue(l) == l.toClaim && Queue(s.workers[v]) == [] && Held([], id) == None;
      if Held(l.toClaim, id).Some? {
        SelectedHeld(s.rows, s.now, step.limit, step.unscanned, id);
      }
    }
  }

  lemma SelectKeepsBound(s: Sys, step: Step, id: int)
    requires Inv(s) && step.Select? && Enabled(s, step) && Bounded(s, id)
    ensures Bounded(Apply(s, step), id)
  {
    var t := Apply(s, step);
    forall v | 0 <= v < |s.workers|
      ensures Count(t, v, id) >= Count(s, v, id) || Count(t, v, id) >= s.rows[id].retryCount
    {
      SelectCount(s, step, id, v);
    }
    if SomeOutstanding(s, id) {
      OutstandingStays(s, t, step.w, id);
    }
    KeptIfNobodyFalls(s, t, id);
  }

  lemma BeginKeepsBound(s: Sys, step: Step, id: int)
    requires Inv(s) && step.Begin? && Enabled(s, step) && Bounded(s, id)
    ensures Bounded(Apply(s, step), id)
  {
    var t := Apply(s, step);
    assert Queue(t.workers[step.w]) == Queue(s.workers[step.w]);
    if SomeOutstanding(s, id) {
      OutstandingStays(s, t, step.w, id);
    }
    KeptIfNobodyFalls(s, t, id);
  }

  /** The row's only claimer has no result of it yet, so nobody has. */
  lemma NobodyOutstanding(s: Sys, w: nat, id: int)
    requires Inv(s) && w < |s.workers| && s.workers[w].claimed != [] && s.workers[w].claimed[0].id == id
    requires !s.workers[w].phase.Handled?
    ensures !SomeOutstanding(s, id)
  {
    assert WorkerOk(s, w) && OwnedBy(s, w, id);
    forall v | 0 <= v < |s.workers|
      ensures !Outstanding(s, v, id)
    {
      if v != w {
        OthersDoNotOwn(s, w, v, id);
      }
    }
  }

  lemma EndKeepsBound(s: Sys, step: Step, id: int)
    requires Inv(s) && step.End? && Enabled(s, step) && Bounded(s, id)
    ensures Bounded(Apply(s, step), id)
  {
    var t := Apply(s, step);
    var w, l := step.w, s.workers[step.w];
    assert Queue(t.workers[w]) == Queue(l);
    if l.claimed[0].id == id {
      NobodyOutstanding(s, w, id);
      assert Outstanding(t, w, id) && Held(l.claimed, id).Some?;
      assert Live(s, id);
      assert Counts(t, id) == Counts(s, id);
      UsedAtMost(Counts(s, id), s.rows[id].retryCount, MAX_RETRY);
    } else {
      if SomeOutstanding(s, id) {
        OutstandingStays(s, t, w, id);
      }
      KeptIfNobodyFalls(s, t, id);
    }
  }

  /** Once the only claimer has let go of a row that is not pending, nobody holds it. */
  lemma ReleasedIsNotLive(s: Sys, step: Step)
    requires Inv(s) && step.Finish? && Enabled(s, step)
    requires Apply(s, step).rows[s.workers[step.w].claimed[0].id].status != Pending
    ensures !Live(Apply(s, step), s.workers[step.w].claimed[0].id)
  {
    var t := Apply(s, step);
    var w := step.w;
    var id := s.workers[w].claimed[0].id;
    assert WorkerOk(s, w) && OwnedBy(s, w, id);
    forall v | 0 <= v < |t.workers|
      ensures Held(t.workers[v].claimed, id) == None
    {
      if v == w {
        forall i | 0 <= i < |t.workers[w].claimed|
          ensures t.workers[w].claimed[i].id != id
        {
          ClaimedDiffer(s.workers[w], 0, i + 1);
        }
      } else {
        OthersDoNotOwn(s, w, v, id);
      }
      HeldNone(t.workers[v].claimed, id);
    }
  }

  lemma FinishOfAnotherRow(s: Sys, step: Step, id: int)
    requires Inv(s) && step.Finish? && Enabled(s, step) && Bounded(s, id)
    requires s.workers[step.w].claimed[0].id != id
    ensures Bounded(Apply(s, step), id)
  {
    var t := Apply(s, step);
    var l := s.workers[step.w];
    assert Queue(l)[1..] == Queue(t.workers[step.w]) && Queue(l)[0] == l.claimed[0];
    if SomeOutstanding(s, id) {
      OutstandingStays(s, t, step.w, id);
    }
    KeptIfNobodyFalls(s, t, id);
  }

  /** Letting go of the row, the worker holds no copy of it. */
  lemma FinishCounts(s: Sys, step: Step)
    requires Inv(s) && step.Finish? && Enabled(s, step)
    ensures var snap := s.workers[step.w].claimed[0];
            && Count(s, step.w, snap.id) == snap.retryCount
            && Counts(Apply(s, step), snap.id) == Counts(s, snap.id)[step.w := MAX_RETRY + 1]
  {
    var t := Apply(s, step);
    var l := s.workers[step.w];
    var snap, rest := l.claimed[0], Queue(t.workers[step.w]);
    assert WorkerOk(s, step.w);
    assert Queue(l)[0] == snap && Queue(l)[1..] == rest;
    assert forall i | 0 <= i < |rest| :: Queue(l)[i + 1] == rest[i];
    HeldNone(rest, snap.id);
  }

  lemma FinishKeepsBound(s: Sys, step: Step, id: int)
    requires Inv(s) && step.Finish? && Enabled(s, step) && Bounded(s, id)
    requires s.workers[step.w].claimed[0].id == id
    ensures Bounded(Apply(s, step), id)
  {
    var t := Apply(s, step);
    var w, snap := step.w, s.workers[step.w].claimed[0];
    if t.rows[id].status != Pending {
      ReleasedIsNotLive(s, step);
    } else {
      assert Held(s.workers[w].claimed, id).Some?;
      assert Live(s, id) && WorkerOk(s, w) && OwnedBy(s, w, id) && SnapOk(s, snap);
      FinishCounts(s, step);
      ActingUses(Counts(s, id), w, MAX_RETRY + 1, s.rows[id].retryCount, MAX_RETRY);
    }
  }

  lemma WriteStartsBound(s: Sys, step: Step, id: int)
    requires Inv(s) && step == Write(id) && Enabled(s, step)
    ensures Bounded(Apply(s, step), id)
  {
  }

  lemma IdleKeepsBound(s: Sys, step: Step, id: int)
    requires Bounded(s, id) && Enabled(s, step) && (step.Tick? || step.Write?)
    ensures Bounded(Apply(s, step), id)
  {
    var t := Apply(s, step);
    assert t.workers == s.workers;
    if SomeOutstanding(s, id) {
      var v :| 0 <= v < |s.workers| && Outstanding(s, v, id);
      assert Outstanding(t, v, id);
    }
    KeptIfNobodyFalls(s, t, id);
  }

  lemma StepKeepsBound(s: Sys, step: Step, id: int)
    requires Inv(s) && Enabled(s, step) && (id in s.rows ==> Bounded(s, id))
    ensures id in Apply(s, step).rows ==> Bounded(Apply(s, step), id)
  {
    if id in s.rows {
      match step
      case Select(_, _, _) => SelectKeepsBound(s, step, id);
      case Claim(_, _) => ClaimKeepsBound(s, step, id);
      case Begin(_) => BeginKeepsBound(s, step, id);
      case End(_, _) => EndKeepsBound(s, step, id);
      case Finish(w, _) =>
        if s.workers[w].claimed[0].id == id { FinishKeepsBound(s, step, id); } else { FinishOfAnotherRow(s, step, id); }
      case _ => IdleKeepsBound(s, step, id);
    } else if step == Write(id) {
      WriteStartsBound(s, step, id);
    }
  }

  lemma {:induction false} RunKeepsBound(s: Sys, steps: seq<Step>, id: int)
    requires Inv(s) && s.rows == map[] && After(s, steps).Some?
    ensures id in After(s, steps).value.rows ==> Bounded(After(s, steps).value, id)
    decreases |steps|
  {
    if steps != [] {
      RunKeepsBound(s, steps[..|steps| - 1], id);
      RunKeepsInv(s, steps[..|steps| - 1]);
      StepKeepsBound(After(s, steps[..|steps| - 1]).value, steps[|steps| - 1], id);
    }
  }

  /** With n workers no message is handled more often than the binomial coefficient of n + 10 over 10:
      retrying ends in every interleaving, whatever counts the workers scanned. */
  lemma HandlingsAreBounded(n: nat, s: Sys, id: int)
    requires Reachable(n, s) && id in s.rows
    ensures id in s.runs && |s.runs[id]| <= Most(n)
    ensures Factorial(MAX_RETRY) * Factorial(n) * Most(n) == Factorial(n + MAX_RETRY)
  {
    ReachableInv(n, s);
    var now, steps :| After(Start(n, now), steps) == Some(s);
    RunKeepsBound(Start(n, now), steps, id);
    WaysIsBinomial(n, MAX_RETRY);
  }
}
