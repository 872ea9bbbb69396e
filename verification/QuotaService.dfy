/** The session calls as the code runs them, with any other calls stepping in between. */
module QuotaService {
  import opened Common
  import opened Quota
  import opened QuotaSettlement

  /** Rows and accounts are only added, and an account keeps what it was opened for. */
  ghost predicate Grows(s: Sys, t: Sys) {
    && |s.ledger| <= |t.ledger| && |s.jobs| <= |t.jobs|
    && (forall sid | sid in s.sessions :: sid in t.sessions)
    && (forall sid | 0 <= sid < |s.ledger| ::
          t.ledger[sid].key == s.ledger[sid].key && t.ledger[sid].initial == s.ledger[sid].initial)
  }

  /** Calls lo up to hi have not moved. */
  ghost predicate SameJobs(s: Sys, t: Sys, lo: nat, hi: nat) {
    hi <= |s.jobs| && hi <= |t.jobs| && forall j | lo <= j < hi :: t.jobs[j] == s.jobs[j]
  }

  /** So have all of these but call j. */
  ghost predicate SameOtherJobs(s: Sys, t: Sys, j: nat, lo: nat, hi: nat) {
    hi <= |s.jobs| && hi <= |t.jobs| && forall k | lo <= k < hi && k != j :: t.jobs[k] == s.jobs[k]
  }

  function JobOf(step: Step): int {
    match step
    case Insert(j, _) => j
    case Read(j, _) => j
    case Decr(j, _) => j
    case Delete(j, _) => j
    case Update(j, _) => j
    case _ => -1
  }

  /** Neither calls nor rows nor accounts are taken away, and calls stay but for call `j`. */
  ghost predicate GrowsBut(s: Sys, t: Sys, j: int) {
    Grows(s, t) && forall k | 0 <= k < |s.jobs| && k != j :: t.jobs[k] == s.jobs[k]
  }

  lemma CreateGrows(build: Build, s: Sys, key: Key, initial: int)
    ensures GrowsBut(s, DoCreate(build, s, key, initial), -1)
    ensures DoCreate(build, s, key, initial).sessions == s.sessions
  {
  }

  lemma SettleGrows(env: Env, s: Sys, step: Step)
    requires Enabled(env, s, step) && (step.Read? || step.Decr? || step.Delete?)
    ensures GrowsBut(s, Apply(env, s, step), JobOf(step)) && Apply(env, s, step).sessions == s.sessions
  {
    match step
    case Read(j, ok) => assert Apply(env, s, step) == DoRead(s, j, ok);
    case Decr(j, ok) => assert Apply(env, s, step) == DoDecr(s, j, ok);
    case Delete(j, ok) => assert Apply(env, s, step) == DoDelete(s, j, ok);
  }

  lemma UpdateGrows(build: Build, s: Sys, j: nat, ok: bool)
    requires AtPhase(s, j, Updating) && s.jobs[j].sid in s.sessions
    ensures GrowsBut(s, DoUpdate(build, s, j, ok), j)
    ensures DoUpdate(build, s, j, ok).sessions.Keys == s.sessions.Keys
  {
  }

  lemma StepGrows(env: Env, s: Sys, step: Step)
    requires Enabled(env, s, step)
    ensures GrowsBut(s, Apply(env, s, step), JobOf(step))
    ensures !step.Insert? ==> Apply(env, s, step).sessions.Keys == s.sessions.Keys
  {
    match step
    case BeginCreate(key, requested, default) => CreateGrows(env.build, s, key, Reserved(requested, default));
    case Insert(_, _) =>
    case Update(j, ok) => UpdateGrows(env.build, s, j, ok);
    case Read(_, _) => SettleGrows(env, s, step);
    case Decr(_, _) => SettleGrows(env, s, step);
    case Delete(_, _) => SettleGrows(env, s, step);
    case _ =>
  }

  ghost predicate RowsOpened(s: Sys) {
    forall sid | sid in s.sessions :: sid < |s.ledger|
  }

  lemma InsertKeepsOpened(s: Sys, j: nat, ok: bool)
    requires RowsOpened(s) && AtPhase(s, j, Inserting)
    ensures RowsOpened(DoInsert(s, j, ok))
  {
  }

  lemma {:induction false} RowsHaveAccounts(env: Env, steps: seq<Step>)
    requires After(env, steps).Some?
    ensures RowsOpened(After(env, steps).value)
    decreases |steps|
  {
    if steps != [] {
      RowsHaveAccounts(env, steps[..|steps| - 1]);
      var s, step := After(env, steps[..|steps| - 1]).value, steps[|steps| - 1];
      if step.Insert? {
        InsertKeepsOpened(s, step.j, step.ok);
      } else {
        StepGrows(env, s, step);
      }
    }
  }

  lemma RowHasAccount(env: Env, s: Sys, sid: nat)
    requires Reachable(env, s) && sid in s.sessions
    ensures sid < |s.ledger|
  {
    var steps :| After(env, steps) == Some(s);
    RowsHaveAccounts(env, steps);
  }

  /** The call's own next statement stays possible while others step. */
  lemma StillEnabled(env: Env, s: Sys, t: Sys, step: Step)
    requires 0 <= JobOf(step) < |s.jobs| && Enabled(env, s, step)
    requires Grows(s, t) && t.jobs[JobOf(step)] == s.jobs[JobOf(step)]
    ensures Enabled(env, t, step)
  {
  }

  /** In orderly runs a call that finishes leaves its session at rest, with its final charge; a
      failed creation leaves none. */
  lemma LastStatement(env: Env, s: Sys, step: Step)
    requires Orderly(env) && Reachable(env, s) && Enabled(env, s, step)
    requires 0 <= JobOf(step) < |s.jobs| && s.jobs[JobOf(step)].phase != Over
    requires Apply(env, s, step).jobs[JobOf(step)].phase == Over
    ensures var t := Apply(env, s, step);
            var sid := s.jobs[JobOf(step)].sid;
            && sid < |t.ledger| && t.ledger[sid].charge == Expected(t, sid)
            && (!step.Insert? && s.jobs[JobOf(step)].kind.CreateCall? ==> sid !in t.sessions)
  {
    var steps :| After(env, steps) == Some(s);
    RunKeepsSound(env, steps);
    StepKeepsSound(env, s, step);
    StepGrows(env, s, step);
    var t := Apply(env, s, step);
    var j := JobOf(step);
    var sid := s.jobs[j].sid;
    assert JobOk(s, s.jobs[j]);
    assert |t.jobs| == |s.jobs| && t.jobs[j].phase == Over;
    assert !Busy(t, sid);
    assert RestOk(t, sid);
  }

  datatype EndResult = NotFound | Conflict | Internal | EndedWith(refunded: Usage)

  datatype CreateResult = Rejected | InsertFailed | Created(sid: nat)

  /** Where the refund leaves a call: only a clean-up that could not read gives up there. */
  predicate RefundEnds(env: Env, job: Job) {
    match job.kind
    case CreateCall => job.phase == Over
    case EndCall(_) => job.phase == Updating
    case CleanupCall => job.phase == Updating || (job.phase == Over && !env.reliable)
  }

  /** A failed creation has neither row nor charge. */
  predicate NothingLeft(s: Sys, sid: nat) {
    sid < |s.ledger| && s.ledger[sid].charge == 0 && sid !in s.sessions
  }

  /** Call first + k is the clean-up of the k-th stale session. */
  ghost predicate BatchJob(s: Sys, stale: seq<nat>, first: nat, k: nat, phase: Phase) {
    && k < |stale| && first + k < |s.jobs|
    && s.jobs[first + k].sid == stale[k] && s.jobs[first + k].kind == CleanupCall
    && s.jobs[first + k].phase == phase
    && stale[k] < |s.ledger| && stale[k] in s.sessions
  }

  lemma BatchStarts(s: Sys, t: Sys, stale: seq<nat>, first: nat, i: nat)
    requires i < |stale| && |s.jobs| == first + i && stale[i] in s.sessions && stale[i] < |s.ledger|
    requires t == DoBegin(s, CleanupCall, stale[i], s.sessions[stale[i]].quotaUsed)
    requires forall k | 0 <= k < i :: BatchJob(s, stale, first, k, Reading)
    ensures forall k | 0 <= k < i + 1 :: BatchJob(t, stale, first, k, Reading)
  {
    forall k | 0 <= k < i + 1
      ensures BatchJob(t, stale, first, k, Reading)
    {
      assert k < i ==> BatchJob(s, stale, first, k, Reading);
    }
  }

  lemma BatchMoves(s: Sys, t: Sys, stale: seq<nat>, first: nat, i: nat)
    requires i < |stale| && Grows(s, t) && SameOtherJobs(s, t, first + i, first, first + |stale|)
    requires t.jobs[first + i] == s.jobs[first + i].(phase := Over)
    requires forall k | 0 <= k < i :: BatchJob(s, stale, first, k, Over)
    requires forall k | i <= k < |stale| :: BatchJob(s, stale, first, k, Reading)
    ensures forall k | 0 <= k < i + 1 :: BatchJob(t, stale, first, k, Over)
    ensures forall k | i + 1 <= k < |stale| :: BatchJob(t, stale, first, k, Reading)
  {
    forall k | 0 <= k < i + 1
      ensures BatchJob(t, stale, first, k, Over)
    {
      assert if k < i then BatchJob(s, stale, first, k, Over) else BatchJob(s, stale, first, k, Reading);
    }
    forall k | i + 1 <= k < |stale|
      ensures BatchJob(t, stale, first, k, Reading)
    {
      assert BatchJob(s, stale, first, k, Reading);
    }
  }

  /** The clean-ups of the first i stale sessions are over. */
  ghost predicate BatchDone(env: Env, s: Sys, stale: seq<nat>, first: nat, i: nat)
    requires i <= |stale|
  {
    && first + |stale| <= |s.jobs|
    && (forall k | 0 <= k < i :: BatchJob(s, stale, first, k, Over))
    && (forall k | i <= k < |stale| :: BatchJob(s, stale, first, k, Reading))
    && AllEnded(env, s, stale[..i])
  }

  lemma NextStaleIsFree(s: Sys, t: Sys, stale: seq<nat>, i: nat)
    requires i < |stale| && !Busy(s, stale[i]) && |t.jobs| == |s.jobs| + i
    requires forall k | 0 <= k < |s.jobs| :: t.jobs[k] == s.jobs[k]
    requires forall k | 0 <= k < i :: BatchJob(t, stale, |s.jobs|, k, Reading)
    requires forall i, k | 0 <= i < k < |stale| :: stale[i] != stale[k]
    ensures !Busy(t, stale[i])
  {
    forall j | 0 <= j < |t.jobs|
      ensures t.jobs[j].sid != stale[i] || t.jobs[j].phase == Over
    {
      if j >= |s.jobs| {
        assert BatchJob(t, stale, |s.jobs|, j - |s.jobs|, Reading);
      }
    }
  }

  /** Ended, and charged what its usage comes to. */
  ghost predicate EndedAndCharged(s: Sys, sid: nat) {
    && sid in s.sessions && s.sessions[sid].status == Ended
    && sid < |s.ledger| && s.ledger[sid].charge == Expected(s, sid)
  }

  lemma ClosedIsCharged(s: Sys, sid: nat)
    requires Sound(s) && sid in s.sessions && !Open(s, sid)
    ensures sid < |s.ledger| && s.ledger[sid].charge == Expected(s, sid) && !Busy(s, sid)
  {
    forall j | 0 <= j < |s.jobs| && s.jobs[j].phase != Over
      ensures s.jobs[j].sid != sid
    {
      assert JobOk(s, s.jobs[j]);
    }
    assert RestOk(s, sid);
  }

  lemma StepKeepsClosed(env: Env, s: Sys, step: Step, sid: nat)
    requires Sound(s) && Enabled(env, s, step) && sid in s.sessions && !Open(s, sid)
    ensures var t := Apply(env, s, step);
            sid in t.sessions && t.sessions[sid] == s.sessions[sid]
  {
    ClosedIsCharged(s, sid);
    if step.Read? || step.Decr? || step.Delete? {
      SettleGrows(env, s, step);
    } else if step.BeginCreate? {
      CreateGrows(env.build, s, step.key, Reserved(step.requested, step.default));
    }
  }

  /** In orderly runs no later step touches a closed session's row. */
  lemma {:induction false} RunKeepsClosed(env: Env, steps: seq<Step>, more: seq<Step>, sid: nat)
    requires Orderly(env) && After(env, steps).Some? && After(env, steps + more).Some?
    requires var s := After(env, steps).value; sid in s.sessions && !Open(s, sid)
    ensures var s, t := After(env, steps).value, After(env, steps + more).value;
            sid in t.sessions && t.sessions[sid] == s.sessions[sid]
  {
    if more == [] {
      assert steps + more == steps;
    } else {
      var n := |more| - 1;
      assert (steps + more)[..|steps + more| - 1] == steps + more[..n];
      RunKeepsClosed(env, steps, more[..n], sid);
      RunKeepsSound(env, steps + more[..n]);
      StepKeepsClosed(env, After(env, steps + more[..n]).value, more[n], sid);
    }
  }

  lemma StaysEndedAndCharged(env: Env, steps: seq<Step>, later: seq<Step>, sid: nat)
    requires Orderly(env) && steps <= later && After(env, steps).Some? && After(env, later).Some?
    requires EndedAndCharged(After(env, steps).value, sid)
    ensures EndedAndCharged(After(env, later).value, sid)
  {
    assert steps + later[|steps|..] == later;
    RunKeepsClosed(env, steps, later[|steps|..], sid);
    RunKeepsSound(env, later);
    ClosedIsCharged(After(env, later).value, sid);
  }

  /** In orderly runs. */
  ghost predicate AllEnded(env: Env, s: Sys, sids: seq<nat>) {
    Orderly(env) ==> forall i | 0 <= i < |sids| :: EndedAndCharged(s, sids[i])
  }

  lemma AllStayEnded(env: Env, steps: seq<Step>, later: seq<Step>, sids: seq<nat>)
    requires steps <= later && After(env, steps).Some? && After(env, later).Some?
    requires AllEnded(env, After(env, steps).value, sids)
    ensures AllEnded(env, After(env, later).value, sids)
  {
    forall i | 0 <= i < |sids| && Orderly(env)
      ensures EndedAndCharged(After(env, later).value, sids[i])
    {
      StaysEndedAndCharged(env, steps, later, sids[i]);
    }
  }

  /** What is settled and reported: the usage of the session's own dimension, and the rest of the
      reserved amount in that dimension alone. */
  predicate SettledAs(row: Session, usage: Option<Usage>, used: int, refunded: Usage) {
    var rest := if row.initial > used then row.initial - used else 0;
    match row.key.dim
    case LlmTokensIn =>
      && used == (if usage.None? then 0 else usage.value.llmTokensIn)
      && refunded.llmTokensIn == rest && refunded.llmTokensOut == refunded.ttsChars == refunded.asrSeconds == 0
    case LlmTokensOut =>
      && used == (if usage.None? then 0 else usage.value.llmTokensOut)
      && refunded.llmTokensOut == rest && refunded.llmTokensIn == refunded.ttsChars == refunded.asrSeconds == 0
    case TtsChars =>
      && used == (if usage.None? then 0 else usage.value.ttsChars)
      && refunded.ttsChars == rest && refunded.llmTokensIn == refunded.llmTokensOut == refunded.asrSeconds == 0
    case AsrSeconds =>
      && used == (if usage.None? then 0 else usage.value.asrSeconds)
      && refunded.asrSeconds == rest && refunded.llmTokensIn == refunded.llmTokensOut == refunded.ttsChars == 0
  }

  lemma CreationDecided(build: Build, s: Sys, key: Key, initial: int)
    ensures DoCreate(build, s, key, initial) != s <==> Admits(build, s, key, initial)
  {
    var t := DoCreate(build, s, key, initial);
    assert t == s || |t.jobs| == |s.jobs| + 1;
  }

  class SessionService {
    const env: Env
    const defaultInitial: int
    var sys: Sys
    ghost var steps: seq<Step>

    ghost predicate Valid()
      reads this
    {
      After(env, steps) == Some(sys) && Reachable(env, sys) && defaultInitial > 0
    }

    constructor (env: Env, defaultInitial: int)
      ensures Valid() && this.env == env && sys == START
      ensures this.defaultInitial == if defaultInitial <= 0 then 5000 else defaultInitial
    {
      this.env := env;
      this.defaultInitial := if defaultInitial <= 0 then 5000 else defaultInitial;
      sys := START;
      steps := [];
      new;
      StartIsReachable(env);
    }

    method Take(step: Step)
      requires Valid() && Enabled(env, sys, step)
      modifies this
      ensures Valid() && sys == Apply(env, old(sys), step) && steps == old(steps) + [step]
    {
      ReachableStep(env, sys, step);
      sys := Apply(env, sys, step);
      steps := steps + [step];
      assert steps[..|steps| - 1] == old(steps);
    }

    /** Other calls take any number of steps; calls lo up to hi are the caller's own. */
    method Interfere(lo: nat, hi: nat)
      requires Valid() && hi <= |sys.jobs|
      modifies this
      ensures Valid() && old(steps) <= steps
      ensures Grows(old(sys), sys) && SameJobs(old(sys), sys, lo, hi)
    {
      var count: int := *;
      for i := 0 to Max(count, 0)
        invariant Valid() && old(steps) <= steps
        invariant Grows(old(sys), sys) && SameJobs(old(sys), sys, lo, hi)
      {
        var step: Step := *;
        if !(lo <= JobOf(step) < hi) && Enabled(env, sys, step) {
          StepGrows(env, sys, step);
          Take(step);
        }
      }
    }

    /** Whether a call to the stores succeeds. */
    method Succeeds() returns (ok: bool)
      ensures env.reliable ==> ok
    {
      ok := *;
      ok := ok || env.reliable;
    }

    /** The next statement of call JobOf(step), after other calls stepped; `mid` is the state it
        meets. Calls lo up to hi belong to the same goroutine and wait for it. */
    method Next(step: Step, lo: nat, hi: nat) returns (ghost mid: Sys)
      requires Valid() && lo <= JobOf(step) < hi <= |sys.jobs| && Enabled(env, sys, step)
      modifies this
      ensures Valid() && old(steps) <= steps && Grows(old(sys), sys) && Grows(old(sys), mid)
      ensures Reachable(env, mid) && Enabled(env, mid, step) && sys == Apply(env, mid, step)
      ensures JobOf(step) < |mid.jobs| && mid.jobs[JobOf(step)] == old(sys.jobs[JobOf(step)])
      ensures SameOtherJobs(old(sys), sys, JobOf(step), lo, hi)
    {
      Interfere(lo, hi);
      StillEnabled(env, old(sys), sys, step);
      mid := sys;
      StepGrows(env, sys, step);
      Take(step);
    }

    /** The counter is decremented and the snapshot removed. */
    method TakeBack(j: nat, lo: nat, hi: nat)
      requires Valid() && lo <= j < hi <= |sys.jobs| && sys.jobs[j].phase.Refunding? && sys.jobs[j].sid < |sys.ledger|
      modifies this
      ensures Valid() && old(steps) <= steps && Grows(old(sys), sys) && j < |sys.jobs|
      ensures sys.jobs[j] == old(sys.jobs[j]).(phase := AfterRefund(old(sys.jobs[j]).kind))
      ensures SameOtherJobs(old(sys), sys, j, lo, hi)
      ensures Orderly(env) && sys.jobs[j].kind.CreateCall? ==> NothingLeft(sys, sys.jobs[j].sid)
    {
      var ok := Succeeds();
      ghost var mid := Next(Decr(j, ok), lo, hi);
      ok := Succeeds();
      mid := Next(Delete(j, ok), lo, hi);
      if Orderly(env) && sys.jobs[j].phase == Over {
        LastStatement(env, mid, Delete(j, ok));
      }
    }

    /** QuotaSnapshotRefund for call j. */
    method SnapshotRefund(j: nat, lo: nat, hi: nat)
      requires Valid() && lo <= j < hi <= |sys.jobs| && AtPhase(sys, j, Reading)
      modifies this
      ensures Valid() && old(steps) <= steps && Grows(old(sys), sys) && j < |sys.jobs|
      ensures sys.jobs[j] == old(sys.jobs[j]).(phase := sys.jobs[j].phase)
      ensures SameOtherJobs(old(sys), sys, j, lo, hi)
      ensures RefundEnds(env, sys.jobs[j])
      ensures Orderly(env) && sys.jobs[j].kind.CreateCall? ==> NothingLeft(sys, sys.jobs[j].sid)
    {
      var ok := Succeeds();
      ghost var mid := Next(Read(j, ok), lo, hi);
      if sys.jobs[j].phase.Refunding? {
        TakeBack(j, lo, hi);
      } else if Orderly(env) && sys.jobs[j].phase == Over {
        LastStatement(env, mid, Read(j, ok));
      }
    }

    method Create(key: Key, requested: int) returns (r: CreateResult)
      requires Valid()
      modifies this
      ensures Valid() && old(steps) <= steps && Grows(old(sys), sys)
      ensures r.Rejected? <==> !Admits(env.build, old(sys), key, if requested > 0 then requested else defaultInitial)
      ensures r.Rejected? ==> sys == old(sys)
      ensures r.Created? ==> r.sid == |old(sys.ledger)| && r.sid in sys.sessions && r.sid < |sys.ledger|
      ensures r.Created? ==>
                var amount := if requested > 0 then requested else defaultInitial;
                && sys.sessions[r.sid] == Session(key, amount, Active, 0)
                && sys.ledger[r.sid].key == key && sys.ledger[r.sid].initial == amount
      ensures r.InsertFailed? && Orderly(env) ==> NothingLeft(sys, |old(sys.ledger)|)
    {
      var j, sid := |sys.jobs|, |sys.ledger|;
      var reserved := BeginCreation(key, Reserved(requested, defaultInitial));
      if !reserved {
        return Rejected;
      }
      var ok: bool := *;
      ghost var mid := Next(Insert(j, ok), j, j + 1);
      if ok {
        return Created(sid);
      }
      SnapshotRefund(j, j, j + 1);
      r := InsertFailed;
    }

    /** The id, the script and its reply. */
    method BeginCreation(key: Key, initial: int) returns (reserved: bool)
      requires Valid() && initial > 0
      modifies this
      ensures Valid() && old(steps) <= steps && Grows(old(sys), sys)
      ensures sys == DoCreate(env.build, old(sys), key, initial) && (!reserved ==> sys == old(sys))
      ensures reserved == Admits(env.build, old(sys), key, initial)
      ensures reserved ==>
                && sys.jobs == old(sys.jobs) + [Job(CreateCall, |old(sys.ledger)|, initial, 0, Inserting)]
                && |sys.ledger| == |old(sys.ledger)| + 1
                && sys.ledger[|old(sys.ledger)|].key == key && sys.ledger[|old(sys.ledger)|].initial == initial
    {
      var before := sys;
      CreationDecided(env.build, sys, key, initial);
      StepGrows(env, sys, BeginCreate(key, initial, initial));
      Take(BeginCreate(key, initial, initial));
      reserved := sys != before;
    }

    method End(sid: nat, usage: Option<Usage>, failed: bool) returns (r: EndResult)
      requires Valid() && (env.exclusive ==> !Busy(sys, sid))
      requires env.plainUsage && Open(sys, sid) ==> ExtractDimUsage(usage, sys.sessions[sid].key.dim) >= 0
      modifies this
      ensures Valid() && old(steps) <= steps && Grows(old(sys), sys)
      ensures r.NotFound? <==> sid !in old(sys.sessions)
      ensures r.Conflict? <==>
                && sid in old(sys.sessions)
                && old(sys.sessions[sid]).status != Creating && old(sys.sessions[sid]).status != Active
      ensures r.NotFound? || r.Conflict? ==> sys == old(sys)
      ensures env.reliable ==> !r.Internal?
      ensures r.EndedWith? ==> sid in sys.sessions && !Open(sys, sid)
      ensures r.EndedWith? ==>
                && SettledAs(old(sys.sessions[sid]), usage, sys.sessions[sid].quotaUsed, r.refunded)
                && sys.sessions[sid].status == (if failed then Ended else Settled)
      ensures r.EndedWith? && Orderly(env) ==>
                && sid < |sys.ledger| && sys.ledger[sid].charge == Expected(sys, sid)
                && (sys.ledger[sid].metered ==>
                      sys.ledger[sid].charge == Min(sys.ledger[sid].initial, sys.sessions[sid].quotaUsed))
    {
      if sid !in sys.sessions {
        return NotFound;
      }
      var row := sys.sessions[sid];
      if !Open(sys, sid) {
        return Conflict;
      }
      var actual := ExtractDimUsage(usage, row.key.dim);
      var j := |sys.jobs|;
      BeginSettlement(sid, usage, failed);
      SnapshotRefund(j, j, j + 1);
      var ok := WriteEnd(j);
      r := if ok then EndedWith(BuildRefundUsage(row.key.dim, Max(row.initial - actual, 0))) else Internal;
    }

    method BeginSettlement(sid: nat, usage: Option<Usage>, failed: bool)
      requires Valid() && Enabled(env, sys, BeginEnd(sid, usage, failed))
      modifies this
      ensures Valid() && old(steps) <= steps && Grows(old(sys), sys)
      ensures sys == DoBegin(old(sys), EndCall(failed), sid, ExtractDimUsage(usage, old(sys).sessions[sid].key.dim))
      ensures sid < |sys.ledger|
    {
      RowHasAccount(env, sys, sid);
      StepGrows(env, sys, BeginEnd(sid, usage, failed));
      Take(BeginEnd(sid, usage, failed));
    }

    /** UpdateEnd. */
    method WriteEnd(j: nat) returns (ok: bool)
      requires Valid() && AtPhase(sys, j, Updating) && sys.jobs[j].kind.EndCall? && sys.jobs[j].sid in sys.sessions
      modifies this
      ensures Valid() && old(steps) <= steps && Grows(old(sys), sys)
      ensures env.reliable ==> ok
      ensures var job := old(sys.jobs[j]);
              && job.sid in sys.sessions && job.sid < |sys.ledger|
              && (ok ==> sys.sessions[job.sid].quotaUsed == job.actual
                         && sys.sessions[job.sid].status == if job.kind.failed then Ended else Settled)
              && (Orderly(env) ==> sys.ledger[job.sid].charge == Expected(sys, job.sid))
    {
      ok := Succeeds();
      ghost var mid := Next(Update(j, ok), j, j + 1);
      if Orderly(env) {
        LastStatement(env, mid, Update(j, ok));
      }
    }

    /** One round of the clean-up over the rows its query returned: in orderly runs every one of them
        ends with its final charge, whatever other calls do meanwhile. */
    method CleanupStaleSessions(stale: seq<nat>)
      requires Valid() && |stale| <= 100
      requires forall i | 0 <= i < |stale| :: Open(sys, stale[i]) && (env.exclusive ==> !Busy(sys, stale[i]))
      requires forall i, k | 0 <= i < k < |stale| :: stale[i] != stale[k]
      modifies this
      ensures Valid() && old(steps) <= steps && Grows(old(sys), sys)
      ensures |old(sys.jobs)| + |stale| <= |sys.jobs|
      ensures forall i | 0 <= i < |stale| :: BatchJob(sys, stale, |old(sys.jobs)|, i, Over)
      ensures AllEnded(env, sys, stale)
    {
      var first := |sys.jobs|;
      QueryStale(stale);
      for i := 0 to |stale|
        invariant Valid() && old(steps) <= steps && Grows(old(sys), sys)
        invariant BatchDone(env, sys, stale, first, i)
      {
        CleanupNext(stale, first, i);
      }
      assert stale[..|stale|] == stale;
    }

    method CleanupNext(stale: seq<nat>, first: nat, i: nat)
      requires Valid() && i < |stale| && BatchDone(env, sys, stale, first, i)
      modifies this
      ensures Valid() && old(steps) <= steps && Grows(old(sys), sys)
      ensures BatchDone(env, sys, stale, first, i + 1)
    {
      assert BatchJob(sys, stale, first, i, Reading);
      CleanupOne(first + i, first, first + |stale|);
      BatchMoves(old(sys), sys, stale, first, i);
      AllStayEnded(env, old(steps), steps, stale[..i]);
      assert stale[..i + 1] == stale[..i] + [stale[i]];
    }

    /** SELECT: every stale row is read at once. */
    method QueryStale(stale: seq<nat>)
      requires Valid()
      requires forall i | 0 <= i < |stale| :: Open(sys, stale[i]) && (env.exclusive ==> !Busy(sys, stale[i]))
      requires forall i, k | 0 <= i < k < |stale| :: stale[i] != stale[k]
      modifies this
      ensures Valid() && old(steps) <= steps && Grows(old(sys), sys)
      ensures sys.sessions == old(sys.sessions) && sys.ledger == old(sys.ledger)
      ensures |sys.jobs| == |old(sys.jobs)| + |stale|
      ensures forall i | 0 <= i < |stale| :: BatchJob(sys, stale, |old(sys.jobs)|, i, Reading)
    {
      for i := 0 to |stale|
        invariant Valid() && old(steps) <= steps
        invariant sys.sessions == old(sys.sessions) && sys.ledger == old(sys.ledger)
        invariant |sys.jobs| == |old(sys.jobs)| + i
        invariant forall k | 0 <= k < |old(sys.jobs)| :: sys.jobs[k] == old(sys.jobs)[k]
        invariant forall k | 0 <= k < i :: BatchJob(sys, stale, |old(sys.jobs)|, k, Reading)
      {
        if env.exclusive {
          NextStaleIsFree(old(sys), sys, stale, i);
        }
        RowHasAccount(env, sys, stale[i]);
        ghost var before := sys;
        Take(BeginCleanup(stale[i]));
        BatchStarts(before, sys, stale, |old(sys.jobs)|, i);
      }
    }

    /** The refund and the closing of one stale session. */
    method CleanupOne(j: nat, lo: nat, hi: nat)
      requires Valid() && lo <= j < hi <= |sys.jobs|
      requires AtPhase(sys, j, Reading) && sys.jobs[j].kind.CleanupCall? && sys.jobs[j].sid in sys.sessions
      modifies this
      ensures Valid() && old(steps) <= steps && Grows(old(sys), sys)
      ensures SameOtherJobs(old(sys), sys, j, lo, hi) && sys.jobs[j] == old(sys.jobs[j]).(phase := Over)
      ensures Orderly(env) ==> EndedAndCharged(sys, old(sys.jobs[j]).sid)
    {
      SnapshotRefund(j, lo, hi);
      if sys.jobs[j].phase == Over {
        return;
      }
      var ok := Succeeds();
      ghost var mid := Next(Update(j, ok), lo, hi);
      if Orderly(env) {
        LastStatement(env, mid, Update(j, ok));
      }
    }
  }
}
