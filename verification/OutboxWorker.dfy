/** One worker's polling pass as its code runs it, with the rest of the deployment stepping
    between any two of its statements. */
module OutboxWorker {
  import opened Common
  import opened Outbox
  import opened OutboxSafety

  /** The worker that takes a step; the clock and the writers take the others. */
  function TakenBy(step: Step): Option<nat> {
    match step
    case Tick(_) => None
    case Write(_) => None
    case Select(w, _, _) => Some(w)
    case Claim(w, _) => Some(w)
    case Begin(w) => Some(w)
    case End(w, _) => Some(w)
    case Finish(w, _) => Some(w)
  }

  function Own(steps: seq<Step>, w: nat): seq<Step>
    decreases |steps|
  {
    if steps == [] then []
    else
      var last := steps[|steps| - 1];
      Own(steps[..|steps| - 1], w) + if TakenBy(last) == Some(w) then [last] else []
  }

  lemma OwnExtends(steps: seq<Step>, step: Step, w: nat)
    ensures Own(steps + [step], w) == Own(steps, w) + if TakenBy(step) == Some(w) then [step] else []
  {
    assert (steps + [step])[..|steps|] == steps;
  }

  /** What a pass contributes to the run whose query succeeds: the query, a claim for each row it
      scanned, and a handler call with its result for each claim that succeeded. */
  ghost predicate IsFullPass(own: seq<Step>, w: nat, scanned: nat, claimed: nat) {
    && claimed <= scanned
    && |own| == 1 + scanned + 3 * claimed
    && own[0].Select?
    && (forall i | 1 <= i <= scanned :: own[i].Claim?)
    && (forall i | 0 <= i < claimed ::
          && own[1 + scanned + 3 * i].Begin?
          && own[2 + scanned + 3 * i].End?
          && own[3 + scanned + 3 * i].Finish?)
    && (forall i | 0 <= i < |own| :: TakenBy(own[i]) == Some(w))
  }

  lemma PassStarts(w: nat, step: Step)
    requires step.Select? && step.w == w
    ensures IsFullPass([step], w, 0, 0)
  {
  }

  lemma PassClaims(own: seq<Step>, w: nat, scanned: nat, dbOk: bool)
    requires IsFullPass(own, w, scanned, 0)
    ensures IsFullPass(own + [Claim(w, dbOk)], w, scanned + 1, 0)
  {
  }

  lemma PassProcesses(own: seq<Step>, w: nat, scanned: nat, claimed: nat, ok: bool, dbOk: bool)
    requires IsFullPass(own, w, scanned, claimed) && claimed < scanned
    ensures IsFullPass(own + [Begin(w), End(w, ok), Finish(w, dbOk)], w, scanned, claimed + 1)
  {
  }

  lemma ClaimedIsKnown(n: nat, s: Sys, w: nat)
    requires Reachable(n, s) && w < |s.workers| && s.workers[w].claimed != []
    ensures s.workers[w].claimed[0].id in s.rows && s.workers[w].claimed[0].id in s.runs
  {
    ReachableInv(n, s);
    assert WorkerOk(s, w) && SnapOk(s, s.workers[w].claimed[0]);
  }

  lemma WaitingIsKnown(n: nat, s: Sys, w: nat)
    requires Reachable(n, s) && w < |s.workers| && s.workers[w].toClaim != []
    ensures s.workers[w].toClaim[0].id in s.rows
  {
    ReachableInv(n, s);
    assert WorkerOk(s, w) && SnapOk(s, s.workers[w].toClaim[0]);
  }

  /** The rows tried are those the query must return. */
  lemma TriedExactly(met: Sys, limit: nat, failed: set<int>, answer: seq<Snap>, tried: seq<int>)
    requires answer == SelectDue(met.rows, met.now, limit, failed)
    requires |tried| == |answer| && forall i | 0 <= i < |tried| :: tried[i] == answer[i].id
    ensures forall i, j | 0 <= i < j < |tried| :: tried[i] < tried[j]
    ensures forall i | 0 <= i < |tried| :: tried[i] in met.rows
    ensures forall id | id in met.rows ::
              id in tried <==>
                && met.rows[id].status == Pending
                && (met.rows[id].nextRetryAt == None || met.rows[id].nextRetryAt.value <= met.now)
                && id !in failed && |WaitingBefore(met.rows, met.now, id)| < limit
  {
    forall i | 0 <= i < |tried|
      ensures tried[i] in met.rows
    {
      assert answer[i] in answer;
    }
    forall id | id in met.rows
      ensures id in tried <==>
                && met.rows[id].status == Pending
                && (met.rows[id].nextRetryAt == None || met.rows[id].nextRetryAt.value <= met.now)
                && id !in failed && |WaitingBefore(met.rows, met.now, id)| < limit
    {
      SelectDueExactly(met.rows, met.now, limit, failed, id);
      if HasId(answer, id) {
        var i :| 0 <= i < |answer| && answer[i].id == id;
        assert tried[i] == id;
      }
    }
  }

  class MemoryOutboxWorker {
    const w: nat
    const batchSize: nat
    /** The whole deployment: table, clock, and every worker's local variables. */
    var sys: Sys
    ghost const n: nat
    ghost const startTime: int
    ghost var steps: seq<Step>
    ghost var own: seq<Step>

    ghost predicate Valid()
      reads this
    {
      && w < n && batchSize > 0
      && After(Start(n, startTime), steps) == Some(sys)
      && own == Own(steps, w)
      && Reachable(n, sys) && |sys.workers| == n
    }

    constructor (w: nat, batchSize: int, n: nat, now: int)
      requires w < n
      ensures Valid() && this.w == w && this.n == n && sys == Start(n, now) && own == []
      ensures this.batchSize == if batchSize <= 0 then 10 else batchSize
    {
      this.w := w;
      this.batchSize := if batchSize <= 0 then 10 else batchSize;
      this.n := n;
      startTime := now;
      sys := Start(n, now);
      steps := [];
      own := [];
      new;
      assert After(Start(n, now), []) == Some(sys);
    }

    method Take(step: Step)
      requires Valid() && Enabled(sys, step)
      modifies this`sys, this`steps, this`own
      ensures Valid() && sys == Apply(old(sys), step) && steps == old(steps) + [step]
      ensures own == old(own) + if TakenBy(step) == Some(w) then [step] else []
    {
      RunExtends(n, startTime, steps, sys, step);
      OwnExtends(steps, step, w);
      sys := Apply(sys, step);
      steps := steps + [step];
      own := own + if TakenBy(step) == Some(w) then [step] else [];
    }

    /** The other workers, the writers and the clock take any number of steps. */
    method Interfere()
      requires Valid()
      modifies this`sys, this`steps, this`own
      ensures Valid() && own == old(own) && old(steps) <= steps
      ensures sys.workers[w] == old(sys.workers[w])
    {
      var count: int := *;
      for i := 0 to Max(count, 0)
        invariant Valid() && own == old(own) && old(steps) <= steps
        invariant sys.workers[w] == old(sys.workers[w])
      {
        var step: Step := *;
        if TakenBy(step) != Some(w) && Enabled(sys, step) {
          Take(step);
        }
      }
    }

    /** One pass. `met` is the deployment as the query meets it, `failed` the rows that do not scan, and
        `tried` the rows the pass tries to claim, in order. */
    method ProcessBatch() returns (queryOk: bool, ghost pass: seq<Step>, ghost met: Sys, ghost failed: set<int>, ghost tried: seq<int>)
      requires Valid() && sys.workers[w] == IDLE
      modifies this`sys, this`steps, this`own
      ensures Valid() && sys.workers[w] == IDLE
      ensures old(steps) <= steps && own == old(own) + pass
      ensures !queryOk ==> pass == []
      ensures queryOk ==> Reachable(n, met) && exists claimed: nat :: IsFullPass(pass, w, |tried|, claimed)
      ensures queryOk ==> forall i, j | 0 <= i < j < |tried| :: tried[i] < tried[j]
      ensures queryOk ==> forall i | 0 <= i < |tried| :: tried[i] in met.rows
      ensures queryOk ==> forall id | id in met.rows ::
                id in tried <==>
                  && met.rows[id].status == Pending
                  && (met.rows[id].nextRetryAt == None || met.rows[id].nextRetryAt.value <= met.now)
                  && id !in failed && |WaitingBefore(met.rows, met.now, id)| < batchSize
    {
      ghost var earlier := own;
      Interfere();
      pass, met, failed, tried := [], sys, {}, [];
      queryOk := *;
      if !queryOk {
        return;
      }
      var unscanned: set<int> := *;
      failed := unscanned;
      var outboxRows := SelectDue(sys.rows, sys.now, batchSize, unscanned);
      Take(Select(w, batchSize, unscanned));
      pass := [Select(w, batchSize, unscanned)];
      PassStarts(w, Select(w, batchSize, unscanned));

      var claimed;
      claimed, pass, tried := ClaimAll(outboxRows, earlier, pass);
      pass := ProcessAll(claimed, |outboxRows|, earlier, pass);
      TriedExactly(met, batchSize, unscanned, outboxRows, tried);
    }

    /** Tries to claim each row of the answer, in order. */
    method ClaimAll(outboxRows: seq<Snap>, ghost earlier: seq<Step>, ghost before: seq<Step>)
      returns (claimed: seq<Snap>, ghost pass: seq<Step>, ghost tried: seq<int>)
      requires Valid() && sys.workers[w] == Local(outboxRows, [], Waiting)
      requires own == earlier + before && IsFullPass(before, w, 0, 0)
      modifies this`sys, this`steps, this`own
      ensures Valid() && old(steps) <= steps && |claimed| <= |outboxRows|
      ensures sys.workers[w] == Local([], claimed, Waiting)
      ensures own == earlier + pass && IsFullPass(pass, w, |outboxRows|, 0)
      ensures |tried| == |outboxRows| && forall i | 0 <= i < |tried| :: tried[i] == outboxRows[i].id
    {
      claimed, pass, tried := [], before, [];
      for i := 0 to |outboxRows|
        invariant Valid() && old(steps) <= steps && own == earlier + pass
        invariant sys.workers[w] == Local(outboxRows[i..], claimed, Waiting)
        invariant |claimed| <= i && IsFullPass(pass, w, i, 0)
        invariant |tried| == i && forall j | 0 <= j < i :: tried[j] == outboxRows[j].id
      {
        var affected, dbOk, id := ClaimRow(outboxRows[i..], claimed);
        PassClaims(pass, w, i, dbOk);
        pass, tried := pass + [Claim(w, dbOk)], tried + [id];
        if affected {
          claimed := claimed + [outboxRows[i]];
        }
      }
    }

    method ProcessAll(claimed: seq<Snap>, ghost scanned: nat, ghost earlier: seq<Step>, ghost before: seq<Step>)
      returns (ghost pass: seq<Step>)
      requires Valid() && sys.workers[w] == Local([], claimed, Waiting)
      requires |claimed| <= scanned && own == earlier + before && IsFullPass(before, w, scanned, 0)
      modifies this`sys, this`steps, this`own
      ensures Valid() && old(steps) <= steps && sys.workers[w] == IDLE
      ensures own == earlier + pass && IsFullPass(pass, w, scanned, |claimed|)
    {
      pass := before;
      for i := 0 to |claimed|
        invariant Valid() && old(steps) <= steps && own == earlier + pass
        invariant sys.workers[w] == Local([], claimed[i..], Waiting)
        invariant IsFullPass(pass, w, scanned, i)
      {
        ghost var ok, dbOk := ProcessOne(claimed[i..]);
        PassProcesses(pass, w, scanned, i, ok, dbOk);
        pass := pass + [Begin(w), End(w, ok), Finish(w, dbOk)];
      }
    }

    /** The compare-and-swap for the first of the rows still to claim. */
    method ClaimRow(toClaim: seq<Snap>, claimed: seq<Snap>) returns (affected: bool, dbOk: bool, ghost id: int)
      requires Valid() && toClaim != [] && sys.workers[w] == Local(toClaim, claimed, Waiting)
      modifies this`sys, this`steps, this`own
      ensures Valid() && old(steps) <= steps && own == old(own) + [Claim(w, dbOk)]
      ensures sys.workers[w] ==
              Local(toClaim[1..], if affected then claimed + [toClaim[0]] else claimed, Waiting)
      ensures id == toClaim[0].id && id in sys.rows
      ensures affected ==> sys.rows[id].status == Processing && sys.rows[id].workerId == Some(w)
      ensures !affected && dbOk ==> sys.rows[id].status != Pending
    {
      Interfere();
      WaitingIsKnown(n, sys, w);
      id := toClaim[0].id;
      dbOk := *;
      affected := dbOk && CanClaim(sys.rows, toClaim[0].id);
      Take(Claim(w, dbOk));
    }

    /** The handler and the write of its result, for the first of the rows still to process. */
    method ProcessOne(queue: seq<Snap>) returns (ok: bool, dbOk: bool)
      requires Valid() && queue != [] && sys.workers[w] == Local([], queue, Waiting)
      modifies this`sys, this`steps, this`own
      ensures Valid() && sys.workers[w] == Local([], queue[1..], Waiting)
      ensures old(steps) <= steps && own == old(own) + [Begin(w), End(w, ok), Finish(w, dbOk)]
    {
      Interfere();
      ClaimedIsKnown(n, sys, w);
      Take(Begin(w));
      Interfere();
      ClaimedIsKnown(n, sys, w);
      ok := *;
      Take(End(w, ok));
      Interfere();
      ClaimedIsKnown(n, sys, w);
      dbOk := *;
      Take(Finish(w, dbOk));
    }
  }
}
