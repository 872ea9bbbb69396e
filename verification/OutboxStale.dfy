/** Why one consumer's exact counts do not carry over to two: the compare-and-swap looks at the
    status only, so a row can be claimed with a count, and before a time, that no longer hold. */
module OutboxStale {
  import opened Common
  import opened Outbox
  import opened OutboxSafety
  import opened OutboxSingle
  import opened OutboxBound
  import opened StaleCounts

  lemma ReachableStep(n: nat, s: Sys, step: Step)
    requires Reachable(n, s) && Enabled(s, step)
    ensures Reachable(n, Apply(s, step))
  {
    var now, steps :| After(Start(n, now), steps) == Some(s);
    assert (steps + [step])[..|steps|] == steps;
    assert After(Start(n, now), steps + [step]) == Some(Apply(s, step));
  }

  /** Idle workers and one row, which is due. */
  ghost predicate OneDueRow(s: Sys, retries: int) {
    && (forall w | 0 <= w < |s.workers| :: s.workers[w] == IDLE)
    && s.rows.Keys == {1} && s.runs.Keys == {1}
    && Due(s.rows[1], s.now)
    && s.rows[1].retryCount == retries
  }

  lemma SelectsTheRow(s: Sys)
    requires s.rows.Keys == {1} && Due(s.rows[1], s.now)
    ensures SelectDue(s.rows, s.now, 10, {}) == [Snap(1, s.rows[1].retryCount)]
  {
    var ids := DueIds(s.rows, s.now);
    assert ids == {1};
    var first := FirstIds(ids, 10);
    assert |first| == 1 && first[0] in ids;
    assert first == [1];
    assert Scanned(first[1..], s.rows, {}) == [];
  }

  lemma HandleOnce(n: nat, s: Sys, w: nat, retries: nat) returns (t: Sys)
    requires Reachable(n, s) && w < |s.workers| && 1 in s.rows && 1 in s.runs
    requires s.workers[w] == IDLE.(toClaim := [Snap(1, retries)]) && s.rows[1].status == Pending
    ensures Reachable(n, t) && t.workers == s.workers[w := Local([], [Snap(1, retries)], Handled(false))]
    ensures t.now == s.now && t.rows == s.rows[1 := Claimed(s.rows[1], w)]
    ensures t.runs == s.runs[1 := s.runs[1] + [Run(s.now, s.now, false)]]
  {
    var a := Apply(s, Claim(w, true));
    ReachableStep(n, s, Claim(w, true));
    assert a.workers[w] == Local([], [Snap(1, retries)], Waiting);
    var b := Apply(a, Begin(w));
    ReachableStep(n, a, Begin(w));
    t := Apply(b, End(w, false));
    ReachableStep(n, b, End(w, false));
  }

  /** Worker w claims the row from its scan, calls the handler, and records the failure. */
  lemma FailOnce(n: nat, s: Sys, w: nat, retries: nat) returns (t: Sys)
    requires Reachable(n, s) && w < |s.workers| && 1 in s.rows && 1 in s.runs
    requires s.workers[w] == IDLE.(toClaim := [Snap(1, retries)])
    requires s.rows[1].status == Pending && retries < MAX_RETRY
    ensures Reachable(n, t) && t.workers == s.workers[w := IDLE] && t.now == s.now
    ensures t.rows == s.rows[1 := Row(Pending, Some(w), retries + 1, Some(s.now + Backoff(retries)))]
    ensures t.runs == s.runs[1 := s.runs[1] + [Run(s.now, s.now, false)]]
  {
    var a := HandleOnce(n, s, w, retries);
    assert a.workers[w].claimed[1..] == [];
    t := Apply(a, Finish(w, true));
    ReachableStep(n, a, Finish(w, true));
  }

  lemma BothSelect(n: nat, s: Sys, retries: nat) returns (t: Sys)
    requires Reachable(n, s) && |s.workers| >= 2 && OneDueRow(s, retries)
    ensures Reachable(n, t) && t.rows == s.rows && t.runs == s.runs && t.now == s.now
    ensures var l := IDLE.(toClaim := [Snap(1, retries)]);
            t.workers == s.workers[0 := l][1 := l]
  {
    SelectsTheRow(s);
    var a := Apply(s, Select(0, 10, {}));
    ReachableStep(n, s, Select(0, 10, {}));
    t := Apply(a, Select(1, 10, {}));
    ReachableStep(n, a, Select(1, 10, {}));
  }

  lemma FailTwice(n: nat, s: Sys, retries: nat) returns (t: Sys)
    requires Reachable(n, s) && |s.workers| >= 2 && OneDueRow(s, retries) && retries < MAX_RETRY
    ensures Reachable(n, t) && |t.workers| == |s.workers| && OneDueRow(t, retries + 1)
    ensures |t.runs[1]| == |s.runs[1]| + 2
    ensures t.runs[1][|s.runs[1]|] == t.runs[1][|s.runs[1]| + 1] == Run(s.now, s.now, false)
  {
    var a := BothSelect(n, s, retries);
    var b := FailOnce(n, a, 0, retries);
    var c := FailOnce(n, b, 1, retries);
    t := Apply(c, Tick(60));
    ReachableStep(n, c, Tick(60));
  }

  lemma WriteOne(n: nat) returns (s: Sys)
    ensures Reachable(n, s) && |s.workers| == n && OneDueRow(s, 0) && s.runs[1] == []
  {
    assert After(Start(n, 0), []) == Some(Start(n, 0));
    s := Apply(Start(n, 0), Write(1));
    ReachableStep(n, Start(n, 0), Write(1));
  }

  // ---- The most handlings ----

  /** One row, due at count c, and workers from the i-th on idle. */
  ghost predicate Ready(s: Sys, i: nat, c: int) {
    && i <= |s.workers| && (forall w | i <= w < |s.workers| :: s.workers[w] == IDLE)
    && s.rows.Keys == {1} && s.runs.Keys == {1}
    && Due(s.rows[1], s.now) && s.rows[1].retryCount == c
  }

  /** Worker i scans the row, and keeps its copy while others handle the row. */
  lemma ScanFirst(n: nat, s: Sys, i: nat, c: nat) returns (t: Sys)
    requires Reachable(n, s) && Ready(s, i, c) && i < |s.workers|
    ensures Reachable(n, t) && Ready(t, i + 1, c) && t.rows == s.rows && t.runs == s.runs
    ensures t.workers == WithCopy(s.workers, i, c)
  {
    SelectsTheRow(s);
    t := Apply(s, Select(i, 10, {}));
    ReachableStep(n, s, Select(i, 10, {}));
  }

  /** Then it handles the row at its own count, and waits. */
  lemma FailLast(n: nat, s: Sys, i: nat, c: nat) returns (t: Sys)
    requires Reachable(n, s) && i < |s.workers| && c < MAX_RETRY
    requires 1 in s.rows && Ready(s, i + 1, s.rows[1].retryCount)
    requires s.workers[i] == IDLE.(toClaim := [Snap(1, c)])
    ensures Reachable(n, t) && Ready(t, i, c + 1) && t.workers == s.workers[i := IDLE]
    ensures Handlings(t) == Handlings(s) + 1
  {
    var a := FailOnce(n, s, i, c);
    t := Apply(a, Tick(60));
    ReachableStep(n, a, Tick(60));
  }

  /** How often the row was handled. */
  function Handlings(s: Sys): nat {
    if 1 in s.runs then |s.runs[1]| else 0
  }

  function WithCopy(workers: seq<Local>, i: nat, c: int): seq<Local>
    requires i < |workers|
  {
    workers[i := IDLE.(toClaim := [Snap(1, c)])]
  }

  /** After the others' handlings, worker i uses its copy. */
  lemma LastOfRound(n: nat, s: Sys, others: Sys, i: nat, c: nat, d: int) returns (t: Sys)
    requires Ready(s, i, c) && i < |s.workers| && c < MAX_RETRY
    requires Reachable(n, others) && others.workers == WithCopy(s.workers, i, c) && Ready(others, i + 1, d)
    ensures Reachable(n, t) && Ready(t, i, c + 1) && t.workers == s.workers && Handlings(t) == Handlings(others) + 1
  {
    t := FailLast(n, others, i, c);
    assert s.workers[i] == IDLE;
  }

  /** As often as b - 1 workers can handle the row from e below the limit on, with it pending in the
      end: the first of them scans it, the others do what they can, and the first one brings the count to
      e - 1 below the limit. */
  lemma {:induction false} KeepHandling(n: nat, s: Sys, b: nat, e: nat) returns (t: Sys)
    requires Reachable(n, s) && 1 <= b <= |s.workers| + 1 && e <= MAX_RETRY
    requires Ready(s, |s.workers| + 1 - b, MAX_RETRY - e)
    ensures Reachable(n, t) && t.workers == s.workers
    ensures Ready(t, |s.workers| + 1 - b, if b == 1 then MAX_RETRY - e else MAX_RETRY)
    ensures Gains(Handlings(s), Handlings(t), b, e)
    decreases b, e
  {
    if b == 1 || e == 0 {
      NothingGained(Handlings(s), b, e);
      t := s;
    } else {
      var i := |s.workers| + 1 - b;
      var first := ScanFirst(n, s, i, MAX_RETRY - e);
      var others := KeepHandling(n, first, b - 1, e);
      var last := LastOfRound(n, s, others, i, MAX_RETRY - e, if b == 2 then MAX_RETRY - e else MAX_RETRY);
      t := KeepHandling(n, last, b, e - 1);
      GainsAdd(Handlings(s), Handlings(others), Handlings(t), b, e);
    }
  }

  lemma HandleOnceMore(n: nat, s: Sys) returns (t: Sys)
    requires Reachable(n, s) && n >= 1 && |s.workers| == n && Ready(s, 0, MAX_RETRY)
    ensures Reachable(n, t) && 1 in t.runs && |t.runs[1]| == |s.runs[1]| + 1
  {
    var a := ScanFirst(n, s, 0, MAX_RETRY);
    t := HandleOnce(n, a, 0, MAX_RETRY);
  }

  ghost predicate PendingAfter(s: Sys, handlings: int) {
    exists id :: id in s.rows && id in s.runs && s.rows[id].status == Pending && |s.runs[id]| == handlings
  }

  ghost predicate HandledTimes(s: Sys, handlings: nat) {
    exists id :: id in s.runs && |s.runs[id]| == handlings
  }

  /** The bound on handlings is reached: with n workers some run handles a message exactly that often,
      and one time less while it stays pending. */
  lemma MostHandlingsAreReached(n: nat)
    requires n >= 1
    ensures exists s: Sys :: Reachable(n, s) && PendingAfter(s, Most(n) - 1)
    ensures exists s: Sys :: Reachable(n, s) && HandledTimes(s, Most(n))
  {
    var s := WriteOne(n);
    var t := KeepHandling(n, s, n + 1, MAX_RETRY);
    assert PendingAfter(t, Most(n) - 1);
    var u := HandleOnceMore(n, t);
    assert HandledTimes(u, Most(n));
  }

  ghost predicate WithinRetryLimit(s: Sys) {
    forall id | id in s.runs :: |s.runs[id]| <= MAX_RETRY + 1
  }

  /** The limit of MAX_RETRY + 1 handlings holds in every run exactly when there is at most one
      consumer. */
  lemma RetryLimitNeedsOneConsumer(n: nat)
    ensures (forall s: Sys :: Reachable(n, s) ==> WithinRetryLimit(s)) <==> n <= 1
  {
    if n >= 2 {
      MostHandlingsAreReached(n);
      var s: Sys :| Reachable(n, s) && HandledTimes(s, Most(n));
      TwoAreTooMany(n, MAX_RETRY);
      assert !WithinRetryLimit(s);
    } else {
      WaysOfTwo(MAX_RETRY);
      WaysOfOne(MAX_RETRY);
      forall s: Sys | Reachable(n, s)
        ensures WithinRetryLimit(s)
      {
        ReachableInv(n, s);
        forall id | id in s.runs
          ensures |s.runs[id]| <= MAX_RETRY + 1
        {
          HandlingsAreBounded(n, s, id);
        }
      }
    }
  }

  ghost predicate WaitsForBackoff(s: Sys) {
    forall id | id in s.runs :: Spaced(s.runs[id])
  }

  /** So does the wait between two handlings: another worker need not sit it out. */
  lemma BackoffNeedsOneConsumer(n: nat)
    ensures (forall s: Sys :: Reachable(n, s) ==> WaitsForBackoff(s)) <==> n <= 1
  {
    if n >= 2 {
      var s := WriteOne(n);
      var t := FailTwice(n, s, 0);
      assert Reachable(n, t) && !Spaced(t.runs[1]) && !WaitsForBackoff(t);
    } else {
      forall s: Sys | Reachable(n, s)
        ensures WaitsForBackoff(s)
      {
        ReachableInv(n, s);
        forall id | id in s.runs
          ensures Spaced(s.runs[id])
        {
          if n == 1 {
            ReachableExact(s);
            assert RowExact(s.rows[id], s.runs[id], s.now);
          } else {
            NobodyHandles(s, id);
          }
        }
      }
    }
  }

  lemma {:induction false} NoRunWithoutWorkers(s: Sys, steps: seq<Step>)
    requires |s.workers| == 0 && After(s, steps).Some? && forall id | id in s.runs :: s.runs[id] == []
    ensures |After(s, steps).value.workers| == 0
    ensures forall id | id in After(s, steps).value.runs :: After(s, steps).value.runs[id] == []
    decreases |steps|
  {
    if steps != [] {
      NoRunWithoutWorkers(s, steps[..|steps| - 1]);
    }
  }

  lemma NobodyHandles(s: Sys, id: int)
    requires Reachable(0, s) && id in s.runs
    ensures s.runs[id] == []
  {
    var now, steps :| After(Start(0, now), steps) == Some(s);
    NoRunWithoutWorkers(Start(0, now), steps);
  }
}
