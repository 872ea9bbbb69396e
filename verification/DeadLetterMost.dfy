/** Passes that overlap reach the bound on tries, and alert more than once. */
module DeadLetterMost {
  import opened Common
  import opened Usage
  import opened DeadLetters
  import opened StaleCounts
  import opened DeadLetterPasses

  // ---- The most tries ----

  /** One row with count c, and passes from the i-th on idle. */
  ghost predicate Ready(s: Sys, i: nat, c: int) {
    && i <= |s.passes| && (forall p | i <= p < |s.passes| :: s.passes[p] == IDLE)
    && s.queue.rows.Keys == {1} && s.queue.rows[1].record.Some? && s.queue.rows[1].retryCount == c
    && s.queue.lost == []
  }

  lemma {:induction false} PushOne(n: nat, r: Record, maxRetry: nat) returns (s: Sys)
    ensures Reachable(n, s, maxRetry) && |s.passes| == n && Ready(s, 0, 0)
    ensures s.queue.tries == [] && s.queue.alerts == []
  {
    assert Ran(Start(n), [], maxRetry) == Some(Start(n));
    s := Apply(Start(n), Push(1, Some(r)), maxRetry);
    ReachableStep(n, Start(n), Push(1, Some(r)), maxRetry);
  }

  lemma {:induction false} SelectsTheRow(q: Queue, maxRetry: nat)
    requires q.rows.Keys == {1} && q.rows[1].retryCount < maxRetry
    ensures Selected([1], q, maxRetry)
  {
  }

  /** Pass i reads the row, and keeps its copy while others try the row. */
  lemma {:induction false} ReadFirst(n: nat, s: Sys, i: nat, c: nat, maxRetry: nat) returns (t: Sys)
    requires Reachable(n, s, maxRetry) && Ready(s, i, c) && i < |s.passes| && c < maxRetry
    ensures Reachable(n, t, maxRetry) && Ready(t, i + 1, c) && t.queue == s.queue
    ensures t.passes == s.passes[i := Pass([Copy(1, s.queue.rows[1])], None)]
  {
    SelectsTheRow(s.queue, maxRetry);
    var ids := [1];
    t := Apply(s, Query(i, ids), maxRetry);
    ReachableStep(n, s, Query(i, ids), maxRetry);
    assert Copied(ids, s.queue.rows) == [Copy(1, s.queue.rows[1])];
  }

  /** Then it tries the row at its own count. */
  lemma {:induction false} FailLast(n: nat, s: Sys, i: nat, row: Row, maxRetry: nat) returns (t: Sys)
    requires Reachable(n, s, maxRetry) && i < |s.passes| && 1 in s.queue.rows && Ready(s, i + 1, s.queue.rows[1].retryCount)
    requires s.passes[i] == Pass([Copy(1, row)], None) && row.record.Some?
    ensures Reachable(n, t, maxRetry) && Ready(t, i, row.retryCount + 1) && t.passes == s.passes[i := IDLE]
    ensures t.queue.tries == s.queue.tries + [1]
    ensures t.queue.alerts == if row.retryCount + 1 >= maxRetry then s.queue.alerts + [1] else s.queue.alerts
  {
    var a := Apply(s, Try(i, false), maxRetry);
    ReachableStep(n, s, Try(i, false), maxRetry);
    assert a.passes[i] == Pass([Copy(1, row)], Some(false));
    t := Apply(a, Store(i, true), maxRetry);
    ReachableStep(n, a, Store(i, true), maxRetry);
    assert a.passes[i].left[1..] == [];
  }

  function Tries(s: Sys): nat {
    Times(s.queue.tries, 1)
  }

  lemma OneMoreTry(s: Sys, t: Sys)
    requires t.queue.tries == s.queue.tries + [1]
    ensures Tries(t) == Tries(s) + 1
  {
    TimesAppend(s.queue.tries, 1, 1);
  }

  /** As often as b - 1 passes can try the row from e below the limit on: the first of them reads it, the
      others do what they can, and the first one brings the count to e - 1 below the limit. */
  lemma {:induction false} KeepTrying(n: nat, s: Sys, b: nat, e: nat, maxRetry: nat) returns (t: Sys)
    requires Reachable(n, s, maxRetry) && 1 <= b <= |s.passes| + 1 && e <= maxRetry
    requires Ready(s, |s.passes| + 1 - b, maxRetry - e)
    ensures Reachable(n, t, maxRetry) && t.passes == s.passes
    ensures Ready(t, |s.passes| + 1 - b, if b == 1 then maxRetry - e else maxRetry)
    ensures Gains(Tries(s), Tries(t), b, e)
    decreases b, e
  {
    if b == 1 || e == 0 {
      NothingGained(Tries(s), b, e);
      t := s;
    } else {
      var i, row := |s.passes| + 1 - b, s.queue.rows[1];
      var first := ReadFirst(n, s, i, maxRetry - e, maxRetry);
      var others := KeepTrying(n, first, b - 1, e, maxRetry);
      var last := FailLast(n, others, i, row, maxRetry);
      OneMoreTry(others, last);
      assert last.passes == s.passes;
      t := KeepTrying(n, last, b, e - 1, maxRetry);
      GainsAdd(Tries(s), Tries(others), Tries(t), b, e);
    }
  }

  ghost predicate TriedTimes(s: Sys, tries: nat) {
    s.queue.lost == [] && Tries(s) + 1 == tries
  }

  /** The bound on tries is reached, with no write failing. */
  lemma {:induction false} MostTriesAreReached(n: nat, r: Record, maxRetry: nat)
    ensures exists s :: Reachable(n, s, maxRetry) && TriedTimes(s, Most(n, maxRetry))
  {
    var s := PushOne(n, r, maxRetry);
    var t := KeepTrying(n, s, n + 1, maxRetry, maxRetry);
    assert TriedTimes(t, Most(n, maxRetry));
  }

  /** No row is tried more than maxRetry times, and once more for each write that fails. */
  ghost predicate WithinLimit(s: Sys, maxRetry: nat) {
    forall id :: Times(s.queue.tries, id) <= maxRetry + Times(s.queue.lost, id)
  }

  /** That holds in every run if and only if there is at most one pass at a time. */
  lemma {:induction false} RetryLimitNeedsOnePass(n: nat, r: Record, maxRetry: nat)
    requires maxRetry >= 1
    ensures (forall s :: Reachable(n, s, maxRetry) ==> WithinLimit(s, maxRetry)) <==> n <= 1
  {
    if n >= 2 {
      MostTriesAreReached(n, r, maxRetry);
      var s :| Reachable(n, s, maxRetry) && TriedTimes(s, Most(n, maxRetry));
      TwoAreTooMany(n, maxRetry);
      assert Times(s.queue.lost, 1) == 0;
      assert !WithinLimit(s, maxRetry);
    } else {
      WaysOfOne(maxRetry);
      WaysOfTwo(maxRetry);
      forall s, id | Reachable(n, s, maxRetry)
        ensures Times(s.queue.tries, id) <= maxRetry + Times(s.queue.lost, id)
      {
        TriesAreBounded(n, s, id, maxRetry);
      }
    }
  }

  // ---- Alerts ----

  /** With one pass at a time a copy has the row's own count, and the alert comes with the last one. */
  ghost predicate InStep(s: Sys, id: int, maxRetry: nat) {
    && (forall p | 0 <= p < |s.passes| && Held(s.passes[p].left, id).Some? ::
          id in s.queue.rows && s.queue.rows[id].retryCount == Held(s.passes[p].left, id).value.retryCount)
    && (Times(s.queue.lost, id) == 0 ==>
          Times(s.queue.alerts, id) <= if id in s.queue.rows && s.queue.rows[id].retryCount >= maxRetry then 1 else 0)
    && (id >= s.queue.nextId ==> Times(s.queue.alerts, id) == 0)
  }

  lemma {:induction false} StoreInStep(s: Sys, step: Step, id: int, maxRetry: nat)
    requires |s.passes| <= 1 && AllOk(s, maxRetry) && InStep(s, id, maxRetry)
    requires step.Store? && Possible(s, step, maxRetry)
    ensures InStep(Apply(s, step, maxRetry), id, maxRetry)
  {
    var t := Apply(s, step, maxRetry);
    var first := s.passes[step.p].left[0];
    assert PassOk(s, step.p, maxRetry);
    LetGo(s, step.p, id, maxRetry);
    TimesAppend(s.queue.lost, first.id, id);
    TimesAppend(s.queue.alerts, first.id, id);
    if first.id == id {
      assert Held(s.passes[step.p].left, id) == Some(first.row);
    }
  }

  lemma {:induction false} QueryInStep(s: Sys, step: Step, id: int, maxRetry: nat)
    requires InStep(s, id, maxRetry) && step.Query? && Possible(s, step, maxRetry)
    ensures InStep(Apply(s, step, maxRetry), id, maxRetry)
  {
    var t := Apply(s, step, maxRetry);
    if Held(t.passes[step.p].left, id).Some? {
      var i := HeldWhere(t.passes[step.p].left, id);
      assert Eligible(s.queue, step.ids[i], maxRetry);
    }
  }

  lemma {:induction false} StepInStep(s: Sys, step: Step, id: int, maxRetry: nat)
    requires |s.passes| <= 1 && AllOk(s, maxRetry) && InStep(s, id, maxRetry) && Possible(s, step, maxRetry)
    ensures InStep(Apply(s, step, maxRetry), id, maxRetry)
  {
    match step
    case Push(_, _) => if id == s.queue.nextId { NoCopies(s, id, maxRetry); }
    case Query(_, _) => QueryInStep(s, step, id, maxRetry);
    case Skip(p) =>
      assert PassOk(s, p, maxRetry);
      LetGo(s, p, id, maxRetry);
    case Try(_, _) =>
    case Store(_, _) => StoreInStep(s, step, id, maxRetry);
  }

  lemma {:induction false} RunInStep(n: nat, steps: seq<Step>, id: int, maxRetry: nat)
    requires n <= 1 && Ran(Start(n), steps, maxRetry).Some?
    ensures InStep(Ran(Start(n), steps, maxRetry).value, id, maxRetry)
    decreases |steps|
  {
    if steps != [] {
      var m := |steps| - 1;
      RunInStep(n, steps[..m], id, maxRetry);
      RunPays(n, steps[..m], id, maxRetry);
      StepInStep(Ran(Start(n), steps[..m], maxRetry).value, steps[m], id, maxRetry);
    }
  }

  /** One pass brings the count from c to d. */
  lemma {:induction false} Raise(n: nat, s: Sys, c: nat, d: nat, maxRetry: nat) returns (t: Sys)
    requires Reachable(n, s, maxRetry) && |s.passes| >= 1 && Ready(s, 0, c) && c <= d < maxRetry
    ensures Reachable(n, t, maxRetry) && t.passes == s.passes && Ready(t, 0, d)
    decreases d - c
  {
    if c == d {
      t := s;
    } else {
      var row := s.queue.rows[1];
      var a := ReadFirst(n, s, 0, c, maxRetry);
      var b := FailLast(n, a, 0, row, maxRetry);
      assert b.passes == s.passes;
      t := Raise(n, b, c + 1, d, maxRetry);
    }
  }

  /** Two passes both read the count before the last, and both alert. */
  lemma {:induction false} AlertsTwice(n: nat, r: Record, maxRetry: nat) returns (t: Sys)
    requires n >= 2 && maxRetry >= 1
    ensures Reachable(n, t, maxRetry) && t.queue.lost == [] && Times(t.queue.alerts, 1) >= 2
  {
    var s := PushOne(n, r, maxRetry);
    s := Raise(n, s, 0, maxRetry - 1, maxRetry);
    var row := s.queue.rows[1];
    var a := ReadFirst(n, s, 0, maxRetry - 1, maxRetry);
    var b := ReadFirst(n, a, 1, maxRetry - 1, maxRetry);
    var c := FailLast(n, b, 1, row, maxRetry);
    t := FailLast(n, c, 0, row, maxRetry);
    TimesAppend(b.queue.alerts, 1, 1);
    TimesAppend(c.queue.alerts, 1, 1);
  }

  /** A row of which no write fails alerts once at most. */
  ghost predicate AlertsOnce(s: Sys) {
    forall id :: Times(s.queue.lost, id) == 0 ==> Times(s.queue.alerts, id) <= 1
  }

  /** That, too, holds in every run if and only if there is at most one pass at a time. */
  lemma {:induction false} OneAlertNeedsOnePass(n: nat, r: Record, maxRetry: nat)
    requires maxRetry >= 1
    ensures (forall s :: Reachable(n, s, maxRetry) ==> AlertsOnce(s)) <==> n <= 1
  {
    if n >= 2 {
      var s := AlertsTwice(n, r, maxRetry);
      assert Times(s.queue.lost, 1) == 0;
      assert !AlertsOnce(s);
    } else {
      forall s, id | Reachable(n, s, maxRetry) && Times(s.queue.lost, id) == 0
        ensures Times(s.queue.alerts, id) <= 1
      {
        var steps :| Ran(Start(n), steps, maxRetry) == Some(s);
        RunInStep(n, steps, id, maxRetry);
      }
    }
  }
}
