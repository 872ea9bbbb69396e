/** What each session is charged, when settlements of one session do not overlap and their calls
    succeed. */
module QuotaSettlement {
  import opened Common
  import opened Quota

  ghost predicate RowMatches(s: Sys, sid: nat)
    requires sid < |s.ledger|
  {
    sid in s.sessions ==>
      s.sessions[sid].key == s.ledger[sid].key && s.sessions[sid].initial == s.ledger[sid].initial
  }

  /** The reserved amount is charged in full and its snapshot is there. */
  ghost predicate Reserving(s: Sys, sid: nat)
    requires sid < |s.ledger|
  {
    s.ledger[sid].charge == s.ledger[sid].initial && sid in s.snaps && s.snaps[sid] == s.ledger[sid].initial
  }

  ghost predicate ChargeFits(s: Sys, job: Job)
    requires job.sid < |s.ledger|
  {
    var e := s.ledger[job.sid];
    match job.phase
    case Refunding(amount) => amount == e.initial - job.actual > 0 && Reserving(s, job.sid)
    case Deleting => e.charge == job.actual < e.initial
    case Updating => e.charge == Min(e.initial, job.actual)
    case _ => Reserving(s, job.sid)
  }

  /** A call in progress on session `job.sid`. */
  ghost predicate JobOk(s: Sys, job: Job) {
    && job.sid < |s.ledger| && RowMatches(s, job.sid)
    && job.initial == s.ledger[job.sid].initial > 0
    && (if job.kind.CreateCall? then
          job.sid !in s.sessions && job.actual == 0 && job.phase != Updating
        else
          Open(s, job.sid) && job.phase != Inserting
          && (job.kind.CleanupCall? ==> job.actual == s.sessions[job.sid].quotaUsed))
    && (if s.ledger[job.sid].metered then ChargeFits(s, job)
        else s.ledger[job.sid].charge == 0 && job.sid !in s.snaps
             && job.phase != Deleting && !job.phase.Refunding?)
  }

  /** What a session is charged when no call on it is in progress. */
  function Expected(s: Sys, sid: nat): int
    requires sid < |s.ledger|
  {
    if !s.ledger[sid].metered || sid !in s.sessions then 0
    else if Open(s, sid) then s.ledger[sid].initial
    else Min(s.ledger[sid].initial, s.sessions[sid].quotaUsed)
  }

  ghost predicate RestOk(s: Sys, sid: nat)
    requires sid < |s.ledger|
  {
    && RowMatches(s, sid)
    && s.ledger[sid].initial > 0
    && s.ledger[sid].charge == Expected(s, sid)
    && (!s.ledger[sid].metered ==> sid !in s.snaps)
    && (s.ledger[sid].metered && Open(s, sid) ==> Reserving(s, sid))
  }

  ghost predicate Sound(s: Sys) {
    && (forall j | 0 <= j < |s.jobs| :: s.jobs[j].phase == Over || JobOk(s, s.jobs[j]))
    && (forall sid | 0 <= sid < |s.ledger| :: Busy(s, sid) || RestOk(s, sid))
    && (forall i, j | 0 <= i < j < |s.jobs| && s.jobs[i].phase != Over && s.jobs[j].phase != Over ::
          s.jobs[i].sid != s.jobs[j].sid)
    && (forall sid | sid in s.sessions :: sid < |s.ledger|)
    && (forall sid | sid in s.snaps :: sid < |s.ledger|)
  }

  /** Everything that concerns other sessions is the same. */
  ghost predicate SameElsewhere(s: Sys, t: Sys, sid: nat) {
    && |t.ledger| == |s.ledger|
    && (forall x: nat | x < |s.ledger| && x != sid :: t.ledger[x] == s.ledger[x])
    && (forall x: nat | x != sid :: x in t.sessions <==> x in s.sessions)
    && (forall x: nat | x != sid && x in s.sessions :: t.sessions[x] == s.sessions[x])
    && (forall x: nat | x != sid :: x in t.snaps <==> x in s.snaps)
    && (forall x: nat | x != sid && x in s.snaps :: t.snaps[x] == s.snaps[x])
  }

  lemma OneSessionMoves(s: Sys, t: Sys, j: nat, job: Job)
    requires Sound(s) && j < |s.jobs| && s.jobs[j].phase != Over
    requires t.jobs == s.jobs[j := job] && job.sid == s.jobs[j].sid
    requires SameElsewhere(s, t, job.sid) && job.sid < |s.ledger|
    requires if job.phase == Over then RestOk(t, job.sid) else JobOk(t, job)
    ensures Sound(t)
  {
    forall i | 0 <= i < |t.jobs|
      ensures t.jobs[i].phase == Over || JobOk(t, t.jobs[i])
    {
      if i != j && t.jobs[i].phase != Over {
        assert JobOk(s, s.jobs[i]) && s.jobs[i].sid != job.sid;
      }
    }
    forall sid | 0 <= sid < |t.ledger|
      ensures Busy(t, sid) || RestOk(t, sid)
    {
      if sid == job.sid {
        if job.phase != Over { assert t.jobs[j].sid == sid && t.jobs[j].phase != Over; }
      } else if Busy(s, sid) {
        var i :| 0 <= i < |s.jobs| && s.jobs[i].sid == sid && s.jobs[i].phase != Over;
        assert t.jobs[i] == s.jobs[i];
      } else {
        assert RestOk(s, sid);
      }
    }
  }

  lemma InsertKeepsSound(s: Sys, j: nat, ok: bool)
    requires Sound(s) && AtPhase(s, j, Inserting)
    ensures Sound(DoInsert(s, j, ok))
  {
    var t := DoInsert(s, j, ok);
    assert JobOk(s, s.jobs[j]);
    OneSessionMoves(s, t, j, t.jobs[j]);
  }

  lemma ReadKeepsSound(s: Sys, j: nat)
    requires Sound(s) && AtPhase(s, j, Reading)
    ensures Sound(DoRead(s, j, true))
  {
    var t := DoRead(s, j, true);
    assert JobOk(s, s.jobs[j]);
    OneSessionMoves(s, t, j, t.jobs[j]);
  }

  lemma DecrKeepsSound(s: Sys, j: nat)
    requires Sound(s) && j < |s.jobs| && s.jobs[j].phase.Refunding? && s.jobs[j].sid < |s.ledger|
    ensures Sound(DoDecr(s, j, true))
  {
    var t := DoDecr(s, j, true);
    assert JobOk(s, s.jobs[j]);
    OneSessionMoves(s, t, j, t.jobs[j]);
  }

  lemma DeleteKeepsSound(s: Sys, j: nat)
    requires Sound(s) && AtPhase(s, j, Deleting)
    ensures Sound(DoDelete(s, j, true))
  {
    var t := DoDelete(s, j, true);
    assert JobOk(s, s.jobs[j]);
    OneSessionMoves(s, t, j, t.jobs[j]);
  }

  lemma UpdateKeepsSound(build: Build, s: Sys, j: nat)
    requires Sound(s) && AtPhase(s, j, Updating) && s.jobs[j].sid in s.sessions && build.cleanupColumn
    ensures Sound(DoUpdate(build, s, j, true))
  {
    var t := DoUpdate(build, s, j, true);
    assert JobOk(s, s.jobs[j]);
    OneSessionMoves(s, t, j, t.jobs[j]);
  }

  /** A call starts on a session nobody works on. */
  lemma OneSessionStarts(s: Sys, t: Sys, job: Job)
    requires Sound(s) && t.jobs == s.jobs + [job] && job.phase != Over
    requires t.sessions == s.sessions && t.snaps == s.snaps && t.ledger == s.ledger
    requires !Busy(s, job.sid) && JobOk(t, job)
    ensures Sound(t)
  {
    forall i | 0 <= i < |t.jobs|
      ensures t.jobs[i].phase == Over || JobOk(t, t.jobs[i])
    {
      if i < |s.jobs| && t.jobs[i].phase != Over {
        assert JobOk(s, s.jobs[i]);
      }
    }
    forall sid | 0 <= sid < |t.ledger|
      ensures Busy(t, sid) || RestOk(t, sid)
    {
      if sid == job.sid {
        assert t.jobs[|s.jobs|].sid == sid && t.jobs[|s.jobs|].phase != Over;
      } else if Busy(s, sid) {
        var i :| 0 <= i < |s.jobs| && s.jobs[i].sid == sid && s.jobs[i].phase != Over;
        assert t.jobs[i] == s.jobs[i];
      } else {
        assert RestOk(s, sid);
      }
    }
  }

  lemma BeginKeepsSound(s: Sys, kind: Kind, sid: nat, actual: int)
    requires Sound(s) && Open(s, sid) && !Busy(s, sid) && !kind.CreateCall?
    requires kind.CleanupCall? ==> actual == s.sessions[sid].quotaUsed
    ensures Sound(DoBegin(s, kind, sid, actual))
  {
    var t := DoBegin(s, kind, sid, actual);
    assert RestOk(s, sid);
    OneSessionStarts(s, t, t.jobs[|s.jobs|]);
  }

  lemma CreateKeepsJob(build: Build, s: Sys, key: Key, initial: int, i: nat)
    requires Sound(s) && initial > 0 && i < |DoCreate(build, s, key, initial).jobs|
    ensures var t := DoCreate(build, s, key, initial);
            t.jobs[i].phase == Over || JobOk(t, t.jobs[i])
  {
    var t := DoCreate(build, s, key, initial);
    if i < |s.jobs| && t.jobs[i].phase != Over {
      assert JobOk(s, s.jobs[i]);
    }
  }

  lemma CreateKeepsRest(build: Build, s: Sys, key: Key, initial: int, sid: nat)
    requires Sound(s) && sid < |DoCreate(build, s, key, initial).ledger|
    ensures var t := DoCreate(build, s, key, initial);
            Busy(t, sid) || RestOk(t, sid)
  {
    var t := DoCreate(build, s, key, initial);
    if sid == |s.ledger| {
      assert t.jobs[|s.jobs|].sid == sid && t.jobs[|s.jobs|].phase != Over;
    } else if Busy(s, sid) {
      var i :| 0 <= i < |s.jobs| && s.jobs[i].sid == sid && s.jobs[i].phase != Over;
      assert t.jobs[i] == s.jobs[i];
    } else {
      assert RestOk(s, sid);
    }
  }

  lemma CreateKeepsSound(build: Build, s: Sys, key: Key, initial: int)
    requires Sound(s) && initial > 0
    ensures Sound(DoCreate(build, s, key, initial))
  {
    var t := DoCreate(build, s, key, initial);
    if t != s {
      forall i | 0 <= i < |t.jobs|
        ensures t.jobs[i].phase == Over || JobOk(t, t.jobs[i])
      {
        CreateKeepsJob(build, s, key, initial, i);
      }
      forall sid | 0 <= sid < |t.ledger|
        ensures Busy(t, sid) || RestOk(t, sid)
      {
        CreateKeepsRest(build, s, key, initial, sid);
      }
      forall i, j | 0 <= i < j < |t.jobs| && t.jobs[i].phase != Over && t.jobs[j].phase != Over
        ensures t.jobs[i].sid != t.jobs[j].sid
      {
        assert JobOk(s, s.jobs[i]);
      }
    }
  }

  /** Counters and limits play no part. */
  lemma CountersKeepSound(s: Sys, t: Sys)
    requires Sound(s)
    requires t.jobs == s.jobs && t.sessions == s.sessions && t.snaps == s.snaps && t.ledger == s.ledger
    ensures Sound(t)
  {
    forall j | 0 <= j < |t.jobs|
      ensures t.jobs[j].phase == Over || JobOk(t, t.jobs[j])
    {
      assert s.jobs[j].phase == Over || JobOk(s, s.jobs[j]);
    }
    forall sid | 0 <= sid < |t.ledger|
      ensures Busy(t, sid) || RestOk(t, sid)
    {
      assert Busy(s, sid) || RestOk(s, sid);
    }
  }

  predicate Orderly(env: Env) {
    env.exclusive && env.reliable && env.build.cleanupColumn
  }

  lemma StepKeepsSound(env: Env, s: Sys, step: Step)
    requires Orderly(env) && Sound(s) && Enabled(env, s, step)
    ensures Sound(Apply(env, s, step))
  {
    match step
    case BeginCreate(key, requested, default) => CreateKeepsSound(env.build, s, key, Reserved(requested, default));
    case BeginEnd(sid, usage, failed) =>
      BeginKeepsSound(s, EndCall(failed), sid, ExtractDimUsage(usage, s.sessions[sid].key.dim));
    case BeginCleanup(sid) => BeginKeepsSound(s, CleanupCall, sid, s.sessions[sid].quotaUsed);
    case Insert(j, ok) => InsertKeepsSound(s, j, ok);
    case Read(j, _) => ReadKeepsSound(s, j);
    case Decr(j, _) => DecrKeepsSound(s, j);
    case Delete(j, _) => DeleteKeepsSound(s, j);
    case Update(j, _) => UpdateKeepsSound(env.build, s, j);
    case _ => CountersKeepSound(s, Apply(env, s, step));
  }

  lemma {:induction false} RunKeepsSound(env: Env, steps: seq<Step>)
    requires Orderly(env) && After(env, steps).Some?
    ensures Sound(After(env, steps).value)
    decreases |steps|
  {
    if steps != [] {
      RunKeepsSound(env, steps[..|steps| - 1]);
      StepKeepsSound(env, After(env, steps[..|steps| - 1]).value, steps[|steps| - 1]);
    }
  }
}
