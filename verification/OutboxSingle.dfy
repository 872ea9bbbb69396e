/** One consumer: its scanned counts are never stale, so counts and waiting times are exact,
    even when result writes fail. */
module OutboxSingle {
  import opened Common
  import opened Outbox
  import opened OutboxSafety

  /** The earliest time the next handling may start. */
  ghost predicate Rested(rs: seq<Run>, t: int) {
    rs == [] || rs[|rs| - 1].end + Backoff(|rs| - 1) <= t
  }

  /** Every handling but the last failed, and each one waited for the back-off of the one before. */
  ghost predicate Spaced(rs: seq<Run>) {
    && (forall k | 0 <= k < |rs| :: rs[k].start <= rs[k].end)
    && (forall k | 0 <= k < |rs| - 1 :: !rs[k].ok && rs[k].end + Backoff(k) <= rs[k + 1].start)
  }

  ghost predicate RowExact(row: Row, rs: seq<Run>, now: int) {
    && Spaced(rs)
    && (rs != [] ==> rs[|rs| - 1].end <= now)
    && match row.status
       case Pending =>
         && |rs| == row.retryCount
         && (rs != [] ==> row.nextRetryAt.Some? && Rested(rs, row.nextRetryAt.value))
       case Processing => row.retryCount <= |rs| <= row.retryCount + 1
       case Done => |rs| == row.retryCount + 1
       case Failed => |rs| == row.retryCount
  }

  ghost predicate ClaimedExact(s: Sys, l: Local, i: nat)
    requires i < |l.claimed| && l.claimed[i].id in s.rows && l.claimed[i].id in s.runs
  {
    var rs := s.runs[l.claimed[i].id];
    && l.claimed[i].retryCount == s.rows[l.claimed[i].id].retryCount
    && if i == 0 && l.phase.Handled? then
         0 < |rs| == l.claimed[i].retryCount + 1 && rs[|rs| - 1].ok == l.phase.ok
       else
         && |rs| == l.claimed[i].retryCount && Rested(rs, s.now)
         && (i == 0 && l.phase.Handling? ==> Rested(rs, l.phase.start) && l.phase.start <= s.now)
  }

  ghost predicate ToClaimExact(s: Sys, snap: Snap)
    requires snap.id in s.rows && snap.id in s.runs
  {
    && s.rows[snap.id].status == Pending
    && snap.retryCount == s.rows[snap.id].retryCount
    && Rested(s.runs[snap.id], s.now)
  }

  ghost predicate Exact(s: Sys) {
    && Inv(s) && |s.workers| == 1
    && (forall id | id in s.rows :: RowExact(s.rows[id], s.runs[id], s.now))
    && WorkerOk(s, 0)
    && (forall i | 0 <= i < |s.workers[0].toClaim| ::
          SnapOk(s, s.workers[0].toClaim[i]) && ToClaimExact(s, s.workers[0].toClaim[i]))
    && (forall i | 0 <= i < |s.workers[0].claimed| ::
          SnapOk(s, s.workers[0].claimed[i]) && ClaimedExact(s, s.workers[0], i))
  }

  lemma QueueDiffer(l: Local, i: nat, j: nat)
    requires Ascending(Queue(l)) && i < j < |Queue(l)|
    ensures Queue(l)[i].id != Queue(l)[j].id
  {
  }

  lemma ClaimKeepsToClaim(s: Sys, step: Step, i: nat)
    requires Exact(s) && step.Claim? && Enabled(s, step) && i + 1 < |s.workers[0].toClaim|
    ensures var t := Apply(s, step); var l' := t.workers[0];
            i < |l'.toClaim| && SnapOk(t, l'.toClaim[i]) && ToClaimExact(t, l'.toClaim[i])
  {
    var l := s.workers[0];
    QueueDiffer(l, |l.claimed|, |l.claimed| + i + 1);
    assert SnapOk(s, l.toClaim[i + 1]) && ToClaimExact(s, l.toClaim[i + 1]);
  }

  lemma ClaimKeepsClaimedExact(s: Sys, step: Step, i: nat)
    requires Exact(s) && step.Claim? && Enabled(s, step) && i < |Apply(s, step).workers[0].claimed|
    requires Inv(Apply(s, step))
    ensures var t := Apply(s, step); var l' := t.workers[0];
            SnapOk(t, l'.claimed[i]) && ClaimedExact(t, l', i)
  {
    var l := s.workers[0];
    assert WorkerOk(Apply(s, step), 0);
    if i < |l.claimed| {
      QueueDiffer(l, i, |l.claimed|);
      assert SnapOk(s, l.claimed[i]) && ClaimedExact(s, l, i);
    } else {
      assert SnapOk(s, l.toClaim[0]) && ToClaimExact(s, l.toClaim[0]);
    }
  }

  lemma ClaimKeepsExact(s: Sys, step: Step)
    requires Exact(s) && step.Claim? && Enabled(s, step)
    ensures Exact(Apply(s, step))
  {
    StepKeepsInv(s, step);
    var t := Apply(s, step);
    var l, l' := s.workers[0], t.workers[0];
    var snap := l.toClaim[0];
    assert SnapOk(s, snap) && ToClaimExact(s, snap) && RowExact(s.rows[snap.id], s.runs[snap.id], s.now);
    assert WorkerOk(t, 0);
    forall i | 0 <= i < |l'.toClaim|
      ensures SnapOk(t, l'.toClaim[i]) && ToClaimExact(t, l'.toClaim[i])
    {
      ClaimKeepsToClaim(s, step, i);
    }
    forall i | 0 <= i < |l'.claimed|
      ensures SnapOk(t, l'.claimed[i]) && ClaimedExact(t, l', i)
    {
      ClaimKeepsClaimedExact(s, step, i);
    }
  }

  lemma EndKeepsRow(s: Sys, step: Step)
    requires Exact(s) && step.End? && Enabled(s, step)
    ensures var t, id := Apply(s, step), s.workers[0].claimed[0].id;
            id in t.rows && id in t.runs && RowExact(t.rows[id], t.runs[id], t.now)
  {
    var l := s.workers[0];
    var id := l.claimed[0].id;
    assert SnapOk(s, l.claimed[0]) && ClaimedExact(s, l, 0) && RowExact(s.rows[id], s.runs[id], s.now);
    assert OwnedBy(s, 0, id) && ResultOk(s, l, 0);
    AllFailed(s.runs[id]);
  }

  lemma EndKeepsClaimed(s: Sys, step: Step, i: nat)
    requires Exact(s) && step.End? && Enabled(s, step) && i < |s.workers[0].claimed|
    requires Inv(Apply(s, step))
    ensures var t := Apply(s, step); var l' := t.workers[0];
            i < |l'.claimed| && SnapOk(t, l'.claimed[i]) && ClaimedExact(t, l', i)
  {
    var l := s.workers[0];
    if i > 0 { ClaimedDiffer(l, 0, i); }
    assert WorkerOk(Apply(s, step), 0);
    assert SnapOk(s, l.claimed[i]) && ClaimedExact(s, l, i);
  }

  lemma EndKeepsExact(s: Sys, step: Step)
    requires Exact(s) && step.End? && Enabled(s, step)
    ensures Exact(Apply(s, step))
  {
    StepKeepsInv(s, step);
    var t := Apply(s, step);
    var l' := t.workers[0];
    EndKeepsRow(s, step);
    assert WorkerOk(t, 0) && l'.toClaim == [];
    forall i | 0 <= i < |l'.claimed|
      ensures SnapOk(t, l'.claimed[i]) && ClaimedExact(t, l', i)
    {
      EndKeepsClaimed(s, step, i);
    }
  }

  lemma {:induction false} AllFailed(rs: seq<Run>)
    requires Oks(rs) == 0
    ensures forall k | 0 <= k < |rs| :: !rs[k].ok
    decreases |rs|
  {
    if rs != [] {
      AllFailed(rs[..|rs| - 1]);
    }
  }

  lemma FinishKeepsExact(s: Sys, step: Step)
    requires Exact(s) && step.Finish? && Enabled(s, step)
    ensures Exact(Apply(s, step))
  {
    StepKeepsInv(s, step);
    var t := Apply(s, step);
    var l, l' := s.workers[0], t.workers[0];
    var id := l.claimed[0].id;
    assert SnapOk(s, l.claimed[0]) && ClaimedExact(s, l, 0) && RowExact(s.rows[id], s.runs[id], s.now);
    assert WorkerOk(t, 0) && OwnedBy(s, 0, id);
    assert RowExact(t.rows[id], t.runs[id], t.now);
    forall i | 0 <= i < |l'.claimed|
      ensures SnapOk(t, l'.claimed[i]) && ClaimedExact(t, l', i)
    {
      ClaimedDiffer(l, 0, i + 1);
      assert SnapOk(s, l.claimed[i + 1]) && ClaimedExact(s, l, i + 1);
    }
  }

  lemma SelectKeepsExact(s: Sys, step: Step)
    requires Exact(s) && step.Select? && Enabled(s, step)
    ensures Exact(Apply(s, step))
  {
    StepKeepsInv(s, step);
    var t := Apply(s, step);
    var r := SelectDue(s.rows, s.now, step.limit, step.unscanned);
    assert WorkerOk(t, 0);
    forall i | 0 <= i < |r|
      ensures SnapOk(t, r[i]) && ToClaimExact(t, r[i])
    {
      assert r[i] in r && RowExact(s.rows[r[i].id], s.runs[r[i].id], s.now);
    }
  }

  lemma TickKeepsExact(s: Sys, step: Step)
    requires Exact(s) && step.Tick? && Enabled(s, step)
    ensures Exact(Apply(s, step))
  {
    StepKeepsInv(s, step);
    var t := Apply(s, step);
    var l := s.workers[0];
    assert WorkerOk(t, 0);
    assert forall i | 0 <= i < |l.toClaim| :: SnapOk(s, l.toClaim[i]) && ToClaimExact(s, l.toClaim[i]);
    assert forall i | 0 <= i < |l.claimed| :: SnapOk(s, l.claimed[i]) && ClaimedExact(s, l, i);
    assert forall id | id in s.rows :: RowExact(s.rows[id], s.runs[id], s.now);
  }

  lemma WriteKeepsExact(s: Sys, step: Step)
    requires Exact(s) && step.Write? && Enabled(s, step)
    ensures Exact(Apply(s, step))
  {
    StepKeepsInv(s, step);
    var t := Apply(s, step);
    var l := s.workers[0];
    assert WorkerOk(t, 0);
    assert forall i | 0 <= i < |l.toClaim| :: SnapOk(s, l.toClaim[i]) && ToClaimExact(s, l.toClaim[i]);
    assert forall i | 0 <= i < |l.claimed| :: SnapOk(s, l.claimed[i]) && ClaimedExact(s, l, i);
    assert forall id | id in s.rows :: RowExact(s.rows[id], s.runs[id], s.now);
  }

  lemma BeginKeepsExact(s: Sys, step: Step)
    requires Exact(s) && step.Begin? && Enabled(s, step)
    ensures Exact(Apply(s, step))
  {
    StepKeepsInv(s, step);
    var t := Apply(s, step);
    var l := s.workers[0];
    assert WorkerOk(t, 0);
    assert forall i | 0 <= i < |l.claimed| :: SnapOk(s, l.claimed[i]) && ClaimedExact(s, l, i);
    assert forall id | id in s.rows :: RowExact(s.rows[id], s.runs[id], s.now);
  }

  lemma StepKeepsExact(s: Sys, step: Step)
    requires Exact(s) && Enabled(s, step)
    ensures Exact(Apply(s, step))
  {
    match step
    case Select(_, _, _) => SelectKeepsExact(s, step);
    case Claim(_, _) => ClaimKeepsExact(s, step);
    case End(_, _) => EndKeepsExact(s, step);
    case Finish(_, _) => FinishKeepsExact(s, step);
    case Tick(_) => TickKeepsExact(s, step);
    case Write(_) => WriteKeepsExact(s, step);
    case Begin(_) => BeginKeepsExact(s, step);
  }

  lemma {:induction false} RunKeepsExact(s: Sys, steps: seq<Step>)
    requires Exact(s) && After(s, steps).Some?
    ensures Exact(After(s, steps).value)
    decreases |steps|
  {
    if steps != [] {
      RunKeepsExact(s, steps[..|steps| - 1]);
      StepKeepsExact(After(s, steps[..|steps| - 1]).value, steps[|steps| - 1]);
    }
  }

  lemma ReachableExact(s: Sys)
    requires Reachable(1, s)
    ensures Exact(s)
  {
    var now, steps :| After(Start(1, now), steps) == Some(s);
    RunKeepsExact(Start(1, now), steps);
  }

  /** The count in the table is the number of failed handlings unless a result is outstanding,
      and a message is handled at most MAX_RETRY + 1 times. */
  lemma CountsAreExact(s: Sys, id: int)
    requires Reachable(1, s) && id in s.rows
    ensures id in s.runs && |s.runs[id]| <= MAX_RETRY + 1
    ensures s.rows[id].status != Processing ==> s.rows[id].retryCount == Fails(s.runs[id])
    ensures s.rows[id].status == Failed <==> Fails(s.runs[id]) == MAX_RETRY + 1 && s.rows[id].status != Processing
    ensures |s.workers| == 1
    ensures forall i | 0 <= i < |s.workers[0].claimed| && s.workers[0].claimed[i].id == id ::
              s.workers[0].phase.Handling? ==> |s.runs[id]| <= MAX_RETRY
  {
    ReachableExact(s);
    assert RowExact(s.rows[id], s.runs[id], s.now) && RowOk(s.rows[id], s.runs[id]);
    forall i | 0 <= i < |s.workers[0].claimed| && s.workers[0].claimed[i].id == id && s.workers[0].phase.Handling?
      ensures |s.runs[id]| <= MAX_RETRY
    {
      assert SnapOk(s, s.workers[0].claimed[i]) && ClaimedExact(s, s.workers[0], i);
    }
  }

  /** The wait before the handling after the k-th failure. */
  lemma HandlingsAreSpaced(s: Sys, id: int, k: nat)
    requires Reachable(1, s) && id in s.rows && id in s.runs && k + 1 < |s.runs[id]|
    ensures !s.runs[id][k].ok
    ensures s.runs[id][k].end + Backoff(k) <= s.runs[id][k + 1].start <= s.runs[id][k + 1].end
  {
    ReachableExact(s);
    assert RowExact(s.rows[id], s.runs[id], s.now);
  }

  function TotalBackoff(k: nat): int {
    if k == 0 then 0 else TotalBackoff(k - 1) + Backoff(k - 1)
  }

  lemma {:induction false} SpacedFromFirst(rs: seq<Run>, k: nat)
    requires Spaced(rs) && k < |rs|
    ensures rs[0].end + TotalBackoff(k) <= rs[k].end
  {
    if k > 0 {
      SpacedFromFirst(rs, k - 1);
    }
  }

  /** A message is given up 303 seconds after its first failure at the earliest. */
  lemma GivingUpTakesFiveMinutes(s: Sys, id: int)
    requires Reachable(1, s) && id in s.rows && s.rows[id].status == Failed
    ensures id in s.runs && |s.runs[id]| == MAX_RETRY + 1
    ensures s.runs[id][0].end + 303 <= s.runs[id][MAX_RETRY].end <= s.now
  {
    ReachableExact(s);
    assert RowExact(s.rows[id], s.runs[id], s.now) && RowOk(s.rows[id], s.runs[id]);
    SpacedFromFirst(s.runs[id], MAX_RETRY);
    assert TotalBackoff(3) == 7;
    assert TotalBackoff(6) == 63;
    assert TotalBackoff(9) == 243;
  }

  function PowerOfTwo(k: nat): nat {
    if k == 0 then 1 else 2 * PowerOfTwo(k - 1)
  }

  lemma {:induction false} PowerGrows(k: nat)
    requires k >= 6
    ensures PowerOfTwo(k) >= 64
  {
    if k > 6 {
      PowerGrows(k - 1);
    } else {
      assert PowerOfTwo(3) == 8;
      assert PowerOfTwo(6) == 64;
    }
  }

  /** The table of waits is doubling capped at a minute; negative counts wait as zero does. */
  lemma BackoffIsCappedDoubling(k: int)
    ensures Backoff(k) == Min(PowerOfTwo(Max(k, 0)), 60)
  {
    if k >= 6 {
      PowerGrows(k);
    } else if k >= 3 {
      assert PowerOfTwo(3) == 8;
    }
  }
}
