/** What every step of every worker keeps, for any number of workers and any interleaving. */
module OutboxSafety {
  import opened Common
  import opened Outbox

  function Queue(l: Local): seq<Snap> {
    l.claimed + l.toClaim
  }

  ghost predicate Ascending(q: seq<Snap>) {
    forall i, j | 0 <= i < j < |q| :: q[i].id < q[j].id
  }

  /** A scanned row is known to the table, and its count is covered by failures that happened. */
  ghost predicate SnapOk(s: Sys, snap: Snap) {
    && snap.id in s.rows && snap.id in s.runs
    && 0 <= snap.retryCount <= MAX_RETRY
    && snap.retryCount <= Fails(s.runs[snap.id])
  }

  ghost predicate OwnedBy(s: Sys, w: nat, id: int) {
    id in s.rows && s.rows[id].status == Processing && s.rows[id].workerId == Some(w)
  }

  /** The result of the handler for the first claimed row, and no result yet for the others. */
  ghost predicate ResultOk(s: Sys, l: Local, i: nat)
    requires i < |l.claimed| && SnapOk(s, l.claimed[i])
  {
    var rs := s.runs[l.claimed[i].id];
    if i == 0 && l.phase == Handled(true) then Oks(rs) == 1
    else
      && Oks(rs) == 0
      && (i == 0 && l.phase == Handled(false) ==> l.claimed[i].retryCount + 1 <= Fails(rs))
  }

  ghost predicate WorkerOk(s: Sys, w: nat)
    requires w < |s.workers|
  {
    var l := s.workers[w];
    && Ascending(Queue(l))
    && (forall i | 0 <= i < |l.toClaim| :: SnapOk(s, l.toClaim[i]))
    && (forall i | 0 <= i < |l.claimed| ::
          SnapOk(s, l.claimed[i]) && OwnedBy(s, w, l.claimed[i].id) && ResultOk(s, l, i))
    && (l.phase != Waiting ==> l.claimed != [] && l.toClaim == [])
  }

  ghost predicate RowOk(row: Row, rs: seq<Run>) {
    && 0 <= row.retryCount <= Fails(rs)
    && match row.status
       case Pending => row.retryCount <= MAX_RETRY && Oks(rs) == 0
       case Processing => row.retryCount <= MAX_RETRY && row.workerId.Some? && Oks(rs) <= 1
       case Done => row.retryCount <= MAX_RETRY && Oks(rs) == 1
       case Failed => row.retryCount == MAX_RETRY + 1 && Oks(rs) == 0
  }

  ghost predicate Inv(s: Sys) {
    && s.runs.Keys == s.rows.Keys
    && (forall id | id in s.rows :: RowOk(s.rows[id], s.runs[id]))
    && (forall w | 0 <= w < |s.workers| :: WorkerOk(s, w))
  }

  lemma AscendingWithout(q: seq<Snap>, k: nat)
    requires Ascending(q) && k < |q|
    ensures Ascending(q[..k] + q[k + 1..])
  {
  }

  /** Claimed rows of one worker differ. */
  lemma ClaimedDiffer(l: Local, i: nat, j: nat)
    requires Ascending(Queue(l)) && i < j < |l.claimed|
    ensures l.claimed[i].id < l.claimed[j].id
  {
    assert Queue(l)[i] == l.claimed[i] && Queue(l)[j] == l.claimed[j];
  }

  lemma Counts(rs: seq<Run>, r: Run)
    ensures Fails(rs + [r]) == Fails(rs) + if r.ok then 0 else 1
    ensures Oks(rs + [r]) == Oks(rs) + if r.ok then 1 else 0
  {
    assert (rs + [r])[..|rs|] == rs;
  }

  /** No claimed row of another worker is the one `w` owns. */
  lemma OthersDoNotOwn(s: Sys, w: nat, v: nat, id: int)
    requires Inv(s) && w < |s.workers| && v < |s.workers| && v != w && OwnedBy(s, w, id)
    ensures forall i | 0 <= i < |s.workers[v].claimed| :: s.workers[v].claimed[i].id != id
  {
    assert WorkerOk(s, v);
  }

  lemma SelectedIsOk(s: Sys, limit: nat, unscanned: set<int>, i: nat)
    requires Inv(s) && i < |SelectDue(s.rows, s.now, limit, unscanned)|
    ensures SnapOk(s, SelectDue(s.rows, s.now, limit, unscanned)[i])
  {
    var r := SelectDue(s.rows, s.now, limit, unscanned);
    assert r[i] in r && r[i].id in s.rows && RowOk(s.rows[r[i].id], s.runs[r[i].id]);
  }

  lemma SelectKeepsInv(s: Sys, step: Step)
    requires Inv(s) && step.Select? && Enabled(s, step)
    ensures Inv(Apply(s, step))
  {
    var t := Apply(s, step);
    forall v | 0 <= v < |t.workers|
      ensures WorkerOk(t, v)
    {
      assert WorkerOk(s, v);
      if v == step.w {
        var r := t.workers[v].toClaim;
        assert Queue(t.workers[v]) == r;
        forall i | 0 <= i < |r|
          ensures SnapOk(t, r[i])
        {
          SelectedIsOk(s, step.limit, step.unscanned, i);
        }
      } else {
        assert t.workers[v] == s.workers[v];
      }
    }
  }

  lemma ClaimKeepsOther(s: Sys, step: Step, v: nat)
    requires Inv(s) && step.Claim? && Enabled(s, step) && v < |s.workers| && v != step.w
    ensures WorkerOk(Apply(s, step), v)
  {
    var t := Apply(s, step);
    var m := s.workers[v];
    assert WorkerOk(s, v);
    assert t.workers[v] == m && t.runs == s.runs;
    assert forall i | 0 <= i < |m.toClaim| :: SnapOk(s, m.toClaim[i]);
    forall i | 0 <= i < |m.claimed|
      ensures SnapOk(t, m.claimed[i]) && OwnedBy(t, v, m.claimed[i].id) && ResultOk(t, m, i)
    {
      assert SnapOk(s, m.claimed[i]) && OwnedBy(s, v, m.claimed[i].id) && ResultOk(s, m, i);
    }
  }

  lemma ClaimKeepsQueue(l: Local, l': Local)
    requires l.toClaim != [] && Ascending(Queue(l)) && l'.toClaim == l.toClaim[1..]
    requires l'.claimed == l.claimed || l'.claimed == l.claimed + [l.toClaim[0]]
    ensures Ascending(Queue(l'))
  {
    var q := Queue(l);
    if l'.claimed == l.claimed {
      assert Queue(l') == q[..|l.claimed|] + q[|l.claimed| + 1..];
      AscendingWithout(q, |l.claimed|);
    } else {
      assert Queue(l') == q;
    }
  }

  /** The claimed row's old entry does not matter to the worker's other claimed rows. */
  lemma ClaimKeepsClaimed(s: Sys, step: Step, i: nat)
    requires Inv(s) && step.Claim? && Enabled(s, step) && i < |s.workers[step.w].claimed|
    ensures var t := Apply(s, step); var l' := t.workers[step.w];
            i < |l'.claimed| && SnapOk(t, l'.claimed[i]) && OwnedBy(t, step.w, l'.claimed[i].id) && ResultOk(t, l', i)
  {
    var l := s.workers[step.w];
    assert WorkerOk(s, step.w) && SnapOk(s, l.toClaim[0]);
    assert SnapOk(s, l.claimed[i]) && OwnedBy(s, step.w, l.claimed[i].id) && ResultOk(s, l, i);
  }

  lemma ClaimKeepsSelf(s: Sys, step: Step)
    requires Inv(s) && step.Claim? && Enabled(s, step)
    ensures WorkerOk(Apply(s, step), step.w)
  {
    var t := Apply(s, step);
    var w := step.w;
    var l, l' := s.workers[w], t.workers[w];
    assert WorkerOk(s, w) && SnapOk(s, l.toClaim[0]);
    ClaimKeepsQueue(l, l');
    forall i | 0 <= i < |l'.toClaim|
      ensures SnapOk(t, l'.toClaim[i])
    {
      assert l'.toClaim[i] == l.toClaim[i + 1] && SnapOk(s, l.toClaim[i + 1]);
    }
    forall i | 0 <= i < |l'.claimed|
      ensures SnapOk(t, l'.claimed[i]) && OwnedBy(t, w, l'.claimed[i].id) && ResultOk(t, l', i)
    {
      if i < |l.claimed| { ClaimKeepsClaimed(s, step, i); } else { ClaimAddsClaimed(s, step); }
    }
  }

  lemma ClaimAddsClaimed(s: Sys, step: Step)
    requires Inv(s) && step.Claim? && Enabled(s, step)
    requires |Apply(s, step).workers[step.w].claimed| > |s.workers[step.w].claimed|
    ensures var t := Apply(s, step); var l' := t.workers[step.w]; var i := |s.workers[step.w].claimed|;
            i < |l'.claimed| && SnapOk(t, l'.claimed[i]) && OwnedBy(t, step.w, l'.claimed[i].id) && ResultOk(t, l', i)
  {
    var snap := s.workers[step.w].toClaim[0];
    assert WorkerOk(s, step.w) && SnapOk(s, snap) && RowOk(s.rows[snap.id], s.runs[snap.id]);
  }

  lemma ClaimKeepsInv(s: Sys, step: Step)
    requires Inv(s) && step.Claim? && Enabled(s, step)
    ensures Inv(Apply(s, step))
  {
    var t := Apply(s, step);
    assert WorkerOk(s, step.w) && SnapOk(s, s.workers[step.w].toClaim[0]);
    forall v | 0 <= v < |t.workers|
      ensures WorkerOk(t, v)
    {
      if v == step.w { ClaimKeepsSelf(s, step); } else { ClaimKeepsOther(s, step, v); }
    }
  }

  lemma SnapKept(s: Sys, t: Sys, snap: Snap)
    requires SnapOk(s, snap) && snap.id in t.rows && snap.id in t.runs
    requires Fails(s.runs[snap.id]) <= Fails(t.runs[snap.id])
    ensures SnapOk(t, snap)
  {
  }

  /** The handler's end adds to the runs of one row and changes nothing else another worker sees. */
  lemma EndAdds(s: Sys, step: Step, id: int)
    requires Inv(s) && step.End? && Enabled(s, step) && id in s.runs
    ensures var t := Apply(s, step);
            && t.rows == s.rows && id in t.runs && Fails(s.runs[id]) <= Fails(t.runs[id])
            && (id != s.workers[step.w].claimed[0].id ==> t.runs[id] == s.runs[id])
  {
    var l := s.workers[step.w];
    Counts(s.runs[l.claimed[0].id], Run(l.phase.start, s.now, step.ok));
  }

  lemma EndKeepsOther(s: Sys, step: Step, v: nat)
    requires Inv(s) && step.End? && Enabled(s, step) && v < |s.workers| && v != step.w
    ensures WorkerOk(Apply(s, step), v)
  {
    var t := Apply(s, step);
    var m := s.workers[v];
    var id := s.workers[step.w].claimed[0].id;
    assert WorkerOk(s, v) && WorkerOk(s, step.w);
    OthersDoNotOwn(s, step.w, v, id);
    forall i | 0 <= i < |m.toClaim|
      ensures SnapOk(t, m.toClaim[i])
    {
      EndAdds(s, step, m.toClaim[i].id);
      SnapKept(s, t, m.toClaim[i]);
    }
    forall i | 0 <= i < |m.claimed|
      ensures SnapOk(t, m.claimed[i]) && OwnedBy(t, v, m.claimed[i].id) && ResultOk(t, m, i)
    {
      assert m.claimed[i].id != id && SnapOk(s, m.claimed[i]) && ResultOk(s, m, i);
      EndAdds(s, step, m.claimed[i].id);
    }
  }

  lemma EndKeepsSelf(s: Sys, step: Step)
    requires Inv(s) && step.End? && Enabled(s, step)
    ensures WorkerOk(Apply(s, step), step.w)
  {
    var t := Apply(s, step);
    var l, l' := s.workers[step.w], Apply(s, step).workers[step.w];
    var id := l.claimed[0].id;
    assert WorkerOk(s, step.w);
    assert Queue(l') == Queue(l);
    Counts(s.runs[id], Run(l.phase.start, s.now, step.ok));
    forall i | 0 <= i < |l.claimed|
      ensures SnapOk(t, l.claimed[i]) && OwnedBy(t, step.w, l.claimed[i].id) && ResultOk(t, l', i)
    {
      if i > 0 { ClaimedDiffer(l, 0, i); }
      assert SnapOk(s, l.claimed[i]) && ResultOk(s, l, i);
      EndAdds(s, step, l.claimed[i].id);
    }
  }

  lemma EndKeepsInv(s: Sys, step: Step)
    requires Inv(s) && step.End? && Enabled(s, step)
    ensures Inv(Apply(s, step))
  {
    var t := Apply(s, step);
    var l := s.workers[step.w];
    assert WorkerOk(s, step.w) && ResultOk(s, l, 0);
    Counts(s.runs[l.claimed[0].id], Run(l.phase.start, s.now, step.ok));
    forall v | 0 <= v < |t.workers|
      ensures WorkerOk(t, v)
    {
      if v == step.w { EndKeepsSelf(s, step); } else { EndKeepsOther(s, step, v); }
    }
  }

  lemma FinishKeepsInv(s: Sys, step: Step)
    requires Inv(s) && step.Finish? && Enabled(s, step)
    ensures Inv(Apply(s, step))
  {
    var t := Apply(s, step);
    var w := step.w;
    var l := s.workers[w];
    var id := l.claimed[0].id;
    assert WorkerOk(s, w) && ResultOk(s, l, 0);
    forall v | 0 <= v < |t.workers|
      ensures WorkerOk(t, v)
    {
      assert WorkerOk(s, v);
      if v == w {
        assert Queue(t.workers[w]) == Queue(l)[1..];
        forall i | 0 <= i < |t.workers[w].claimed|
          ensures SnapOk(t, t.workers[w].claimed[i]) && OwnedBy(t, w, t.workers[w].claimed[i].id)
          ensures ResultOk(t, t.workers[w], i)
        {
          ClaimedDiffer(l, 0, i + 1);
          assert SnapOk(s, l.claimed[i + 1]) && ResultOk(s, l, i + 1);
        }
      } else {
        OthersDoNotOwn(s, w, v, id);
      }
    }
  }

  lemma StepKeepsInv(s: Sys, step: Step)
    requires Inv(s) && Enabled(s, step)
    ensures Inv(Apply(s, step))
  {
    var t := Apply(s, step);
    match step
    case Select(_, _, _) => SelectKeepsInv(s, step);
    case Claim(_, _) => ClaimKeepsInv(s, step);
    case End(_, _) => EndKeepsInv(s, step);
    case Finish(_, _) => FinishKeepsInv(s, step);
    case _ =>
      forall v | 0 <= v < |t.workers|
        ensures WorkerOk(t, v)
      {
        assert WorkerOk(s, v);
      }
  }

  lemma {:induction false} RunKeepsInv(s: Sys, steps: seq<Step>)
    requires Inv(s) && After(s, steps).Some?
    ensures Inv(After(s, steps).value)
    decreases |steps|
  {
    if steps != [] {
      RunKeepsInv(s, steps[..|steps| - 1]);
      StepKeepsInv(After(s, steps[..|steps| - 1]).value, steps[|steps| - 1]);
    }
  }

  // ---- What holds in every reachable state ----

  ghost predicate Reachable(n: nat, s: Sys) {
    exists now, steps :: After(Start(n, now), steps) == Some(s)
  }

  lemma ReachableInv(n: nat, s: Sys)
    requires Reachable(n, s)
    ensures Inv(s) && |s.workers| == n
  {
    var now, steps :| After(Start(n, now), steps) == Some(s);
    RunKeepsInv(Start(n, now), steps);
    WorkersFixed(Start(n, now), steps);
  }

  lemma {:induction false} WorkersFixed(s: Sys, steps: seq<Step>)
    requires After(s, steps).Some?
    ensures |After(s, steps).value.workers| == |s.workers|
    decreases |steps|
  {
    if steps != [] {
      WorkersFixed(s, steps[..|steps| - 1]);
    }
  }

  lemma RunExtends(n: nat, now: int, steps: seq<Step>, s: Sys, step: Step)
    requires After(Start(n, now), steps) == Some(s) && Enabled(s, step)
    ensures After(Start(n, now), steps + [step]) == Some(Apply(s, step))
    ensures Reachable(n, Apply(s, step)) && |Apply(s, step).workers| == |s.workers|
  {
    assert (steps + [step])[..|steps|] == steps;
    assert After(Start(n, now), steps + [step]) == Some(Apply(s, step));
  }

  /** A row has at most one unfinished claimer, and the table names it. */
  lemma AtMostOneClaimer(n: nat, s: Sys, v: nat, i: nat, w: nat, j: nat)
    requires Reachable(n, s) && v < n && w < n && |s.workers| == n
    requires i < |s.workers[v].claimed| && j < |s.workers[w].claimed|
    ensures s.workers[v].claimed[i].id in s.rows
    ensures s.rows[s.workers[v].claimed[i].id].status == Processing
    ensures s.rows[s.workers[v].claimed[i].id].workerId == Some(v)
    ensures s.workers[v].claimed[i].id == s.workers[w].claimed[j].id ==> v == w && i == j
  {
    ReachableInv(n, s);
    assert WorkerOk(s, v) && WorkerOk(s, w);
    assert OwnedBy(s, v, s.workers[v].claimed[i].id) && OwnedBy(s, w, s.workers[w].claimed[j].id);
    if v == w && i < j { ClaimedDiffer(s.workers[v], i, j); }
    if v == w && j < i { ClaimedDiffer(s.workers[v], j, i); }
  }

  /** A retry count is paid for by failures: no message is given up before MAX_RETRY + 1 of them,
      however stale the counts the workers scanned. */
  lemma RetriesArePaidFor(n: nat, s: Sys, id: int)
    requires Reachable(n, s) && id in s.rows
    ensures id in s.runs
    ensures 0 <= s.rows[id].retryCount <= Fails(s.runs[id])
    ensures s.rows[id].status == Failed ==> Fails(s.runs[id]) >= s.rows[id].retryCount == MAX_RETRY + 1
  {
    ReachableInv(n, s);
    assert RowOk(s.rows[id], s.runs[id]);
  }

  /** No message is handled successfully twice; one that was is done, or stays claimed for good
      because the write of `done` has not been made. */
  lemma SucceedsAtMostOnce(n: nat, s: Sys, id: int)
    requires Reachable(n, s) && id in s.rows
    ensures id in s.runs && Oks(s.runs[id]) <= 1
    ensures s.rows[id].status == Done ==> Oks(s.runs[id]) == 1
    ensures Oks(s.runs[id]) == 1 ==> s.rows[id].status == Done || s.rows[id].status == Processing
  {
    ReachableInv(n, s);
    assert RowOk(s.rows[id], s.runs[id]);
  }

  /** A row nobody will ever take up again: finished, or claimed by a worker that lost it. */
  ghost predicate AtRest(s: Sys, id: int) {
    && id in s.rows && id in s.runs
    && s.rows[id].status != Pending
    && forall w, i | 0 <= w < |s.workers| && 0 <= i < |s.workers[w].claimed| :: s.workers[w].claimed[i].id != id
  }

  lemma StepKeepsRest(s: Sys, step: Step, id: int)
    requires Inv(s) && Enabled(s, step) && AtRest(s, id)
    ensures AtRest(Apply(s, step), id)
    ensures Apply(s, step).rows[id] == s.rows[id] && Apply(s, step).runs[id] == s.runs[id]
  {
    if step.Finish? || step.End? || step.Begin? || step.Claim? {
      assert WorkerOk(s, step.w);
    }
  }

  lemma {:induction false} RestIsForever(s: Sys, steps: seq<Step>, id: int)
    requires Inv(s) && AtRest(s, id) && After(s, steps).Some?
    ensures AtRest(After(s, steps).value, id)
    ensures After(s, steps).value.rows[id] == s.rows[id] && After(s, steps).value.runs[id] == s.runs[id]
    decreases |steps|
  {
    if steps != [] {
      RestIsForever(s, steps[..|steps| - 1], id);
      RunKeepsInv(s, steps[..|steps| - 1]);
      StepKeepsRest(After(s, steps[..|steps| - 1]).value, steps[|steps| - 1], id);
    }
  }

  /** `done` and `failed` are never left, and such a message is never handled again, although the
      statements that write a result do not look at the status. */
  lemma FinishedStaysFinished(n: nat, s: Sys, steps: seq<Step>, id: int)
    requires Reachable(n, s) && id in s.rows && After(s, steps).Some?
    requires s.rows[id].status == Done || s.rows[id].status == Failed
    ensures id in s.runs && id in After(s, steps).value.rows && id in After(s, steps).value.runs
    ensures After(s, steps).value.rows[id] == s.rows[id]
    ensures After(s, steps).value.runs[id] == s.runs[id]
  {
    ReachableInv(n, s);
    forall w, i | 0 <= w < |s.workers| && 0 <= i < |s.workers[w].claimed|
      ensures s.workers[w].claimed[i].id != id
    {
      assert WorkerOk(s, w) && OwnedBy(s, w, s.workers[w].claimed[i].id);
    }
    RestIsForever(s, steps, id);
  }
}
