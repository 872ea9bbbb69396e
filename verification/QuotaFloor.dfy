/** When sessions can push a counter below the plain deductions. */
module QuotaFloor {
  import opened Common
  import opened Quota
  import opened QuotaLedger
  import opened QuotaSettlement
  import opened QuotaTheorems

  ghost predicate CoversBase(s: Sys) {
    forall key :: Get(s.base, key) <= Get(s.used, key)
  }

  // ---- What keeps every charge from going below zero ----

  predicate Undisturbed(env: Env) {
    env.exclusive && env.reliable && env.plainUsage
  }

  /** A snapshot that is still to be read never promises back more than is charged. */
  predicate Covered(s: Sys, sid: nat)
    requires sid < |s.ledger|
  {
    s.ledger[sid].charge >= 0 && (sid in s.snaps ==> s.snaps[sid] <= s.ledger[sid].charge)
  }

  predicate JobSolvent(s: Sys, job: Job) {
    && job.sid < |s.ledger| && job.actual >= 0 && s.ledger[job.sid].charge >= 0
    && match job.phase
       case Deleting => true
       case Refunding(amount) => amount <= s.ledger[job.sid].charge
       case _ => Covered(s, job.sid)
  }

  ghost predicate Solvent(s: Sys) {
    && (forall j | 0 <= j < |s.jobs| :: s.jobs[j].phase == Over || JobSolvent(s, s.jobs[j]))
    && (forall sid | 0 <= sid < |s.ledger| :: Busy(s, sid) || Covered(s, sid))
    && (forall i, j | 0 <= i < j < |s.jobs| && s.jobs[i].phase != Over && s.jobs[j].phase != Over ::
          s.jobs[i].sid != s.jobs[j].sid)
    && (forall sid | sid in s.sessions :: sid < |s.ledger| && s.sessions[sid].quotaUsed >= 0)
    && (forall sid | sid in s.snaps :: sid < |s.ledger|)
  }

  lemma BusyElsewhere(s: Sys, t: Sys, j: nat, sid: nat)
    requires j < |s.jobs| && s.jobs[j].sid != sid && |t.jobs| >= |s.jobs| && Busy(s, sid)
    requires forall i | 0 <= i < |s.jobs| && i != j :: t.jobs[i] == s.jobs[i]
    ensures Busy(t, sid)
  {
    var i :| 0 <= i < |s.jobs| && s.jobs[i].sid == sid && s.jobs[i].phase != Over;
    assert t.jobs[i] == s.jobs[i];
  }

  lemma OneSessionMovesSolvently(s: Sys, t: Sys, j: nat, job: Job)
    requires Solvent(s) && j < |s.jobs| && s.jobs[j].phase != Over
    requires t.jobs == s.jobs[j := job] && job.sid == s.jobs[j].sid && job.sid < |s.ledger|
    requires SameElsewhere(s, t, job.sid) && (job.sid in t.sessions ==> t.sessions[job.sid].quotaUsed >= 0)
    requires if job.phase == Over then Covered(t, job.sid) else JobSolvent(t, job)
    ensures Solvent(t)
  {
    forall i | 0 <= i < |t.jobs|
      ensures t.jobs[i].phase == Over || JobSolvent(t, t.jobs[i])
    {
      if i != j && t.jobs[i].phase != Over {
        assert JobSolvent(s, s.jobs[i]) && s.jobs[i].sid != job.sid;
      }
    }
    forall sid | 0 <= sid < |t.ledger|
      ensures Busy(t, sid) || Covered(t, sid)
    {
      if sid == job.sid {
        if job.phase != Over { assert t.jobs[j].sid == sid && t.jobs[j].phase != Over; }
      } else if Busy(s, sid) {
        BusyElsewhere(s, t, j, sid);
      } else {
        assert Covered(s, sid);
      }
    }
  }

  lemma InsertKeepsSolvent(s: Sys, j: nat, ok: bool)
    requires Solvent(s) && AtPhase(s, j, Inserting)
    ensures Solvent(DoInsert(s, j, ok))
  {
    var t := DoInsert(s, j, ok);
    assert JobSolvent(s, s.jobs[j]);
    OneSessionMovesSolvently(s, t, j, t.jobs[j]);
  }

  lemma ReadKeepsSolvent(s: Sys, j: nat)
    requires Solvent(s) && AtPhase(s, j, Reading)
    ensures Solvent(DoRead(s, j, true))
  {
    var t := DoRead(s, j, true);
    assert JobSolvent(s, s.jobs[j]);
    OneSessionMovesSolvently(s, t, j, t.jobs[j]);
  }

  lemma DecrKeepsSolvent(s: Sys, j: nat)
    requires Solvent(s) && j < |s.jobs| && s.jobs[j].phase.Refunding? && s.jobs[j].sid < |s.ledger|
    ensures Solvent(DoDecr(s, j, true))
  {
    var t := DoDecr(s, j, true);
    assert JobSolvent(s, s.jobs[j]);
    OneSessionMovesSolvently(s, t, j, t.jobs[j]);
  }

  lemma DeleteKeepsSolvent(s: Sys, j: nat)
    requires Solvent(s) && AtPhase(s, j, Deleting)
    ensures Solvent(DoDelete(s, j, true))
  {
    var t := DoDelete(s, j, true);
    assert JobSolvent(s, s.jobs[j]);
    OneSessionMovesSolvently(s, t, j, t.jobs[j]);
  }

  lemma UpdateKeepsSolvent(build: Build, s: Sys, j: nat)
    requires Solvent(s) && AtPhase(s, j, Updating) && s.jobs[j].sid in s.sessions
    ensures Solvent(DoUpdate(build, s, j, true))
  {
    var t := DoUpdate(build, s, j, true);
    assert JobSolvent(s, s.jobs[j]);
    OneSessionMovesSolvently(s, t, j, t.jobs[j]);
  }

  lemma StartKeepsSolvent(s: Sys, kind: Kind, sid: nat, actual: int)
    requires Solvent(s) && sid in s.sessions && !Busy(s, sid) && actual >= 0
    ensures Solvent(DoBegin(s, kind, sid, actual))
  {
    var t := DoBegin(s, kind, sid, actual);
    forall i | 0 <= i < |t.jobs|
      ensures t.jobs[i].phase == Over || JobSolvent(t, t.jobs[i])
    {
      if i < |s.jobs| {
        assert t.jobs[i].phase == Over || JobSolvent(s, s.jobs[i]);
      } else {
        assert Covered(s, sid);
      }
    }
    forall x | 0 <= x < |t.ledger|
      ensures Busy(t, x) || Covered(t, x)
    {
      if Busy(s, x) {
        var i :| 0 <= i < |s.jobs| && s.jobs[i].sid == x && s.jobs[i].phase != Over;
        assert t.jobs[i] == s.jobs[i];
      } else {
        assert Covered(s, x);
      }
    }
  }

  lemma CreateKeepsSolventJobs(build: Build, s: Sys, key: Key, initial: int, i: nat)
    requires Solvent(s) && initial > 0 && i < |DoCreate(build, s, key, initial).jobs|
    ensures var t := DoCreate(build, s, key, initial);
            t.jobs[i].phase == Over || JobSolvent(t, t.jobs[i])
  {
    var t := DoCreate(build, s, key, initial);
    if i < |s.jobs| && t.jobs[i].phase != Over {
      assert JobSolvent(s, s.jobs[i]);
    }
  }

  lemma CreateKeepsCover(build: Build, s: Sys, key: Key, initial: int, sid: nat)
    requires Solvent(s) && initial > 0 && sid < |DoCreate(build, s, key, initial).ledger|
    ensures var t := DoCreate(build, s, key, initial);
            Busy(t, sid) || Covered(t, sid)
  {
    var t := DoCreate(build, s, key, initial);
    if sid < |s.ledger| && Busy(s, sid) {
      var i :| 0 <= i < |s.jobs| && s.jobs[i].sid == sid && s.jobs[i].phase != Over;
      assert t.jobs[i] == s.jobs[i];
    } else if sid < |s.ledger| {
      assert Covered(s, sid);
    }
  }

  lemma CreateKeepsSolvent(build: Build, s: Sys, key: Key, initial: int)
    requires Solvent(s) && initial > 0
    ensures Solvent(DoCreate(build, s, key, initial))
  {
    var t := DoCreate(build, s, key, initial);
    forall i | 0 <= i < |t.jobs|
      ensures t.jobs[i].phase == Over || JobSolvent(t, t.jobs[i])
    {
      CreateKeepsSolventJobs(build, s, key, initial, i);
    }
    forall sid | 0 <= sid < |t.ledger|
      ensures Busy(t, sid) || Covered(t, sid)
    {
      CreateKeepsCover(build, s, key, initial, sid);
    }
    forall i, j | 0 <= i < j < |t.jobs| && t.jobs[i].phase != Over && t.jobs[j].phase != Over
      ensures t.jobs[i].sid != t.jobs[j].sid
    {
      assert JobSolvent(s, s.jobs[i]);
    }
  }

  /** Counters and limits play no part. */
  lemma CountersKeepSolvent(s: Sys, t: Sys)
    requires Solvent(s)
    requires t.jobs == s.jobs && t.sessions == s.sessions && t.snaps == s.snaps && t.ledger == s.ledger
    ensures Solvent(t)
  {
    forall j | 0 <= j < |t.jobs|
      ensures t.jobs[j].phase == Over || JobSolvent(t, t.jobs[j])
    {
      assert s.jobs[j].phase == Over || JobSolvent(s, s.jobs[j]);
    }
    forall sid | 0 <= sid < |t.ledger|
      ensures Busy(t, sid) || Covered(t, sid)
    {
      assert Busy(s, sid) || Covered(s, sid);
    }
  }

  /** No column is needed for that: a clean-up that cannot close its session has removed the snapshot. */
  lemma StepKeepsSolvent(env: Env, s: Sys, step: Step)
    requires Undisturbed(env) && Solvent(s) && Enabled(env, s, step)
    ensures Solvent(Apply(env, s, step))
  {
    match step
    case BeginCreate(key, requested, default) => CreateKeepsSolvent(env.build, s, key, Reserved(requested, default));
    case BeginEnd(sid, usage, failed) =>
      StartKeepsSolvent(s, EndCall(failed), sid, ExtractDimUsage(usage, s.sessions[sid].key.dim));
    case BeginCleanup(sid) => StartKeepsSolvent(s, CleanupCall, sid, s.sessions[sid].quotaUsed);
    case SetLimit(_, _) => CountersKeepSolvent(s, Apply(env, s, step));
    case Deduct(_, _) => CountersKeepSolvent(s, Apply(env, s, step));
    case Refund(_, _) => CountersKeepSolvent(s, Apply(env, s, step));
    case Insert(j, ok) => InsertKeepsSolvent(s, j, ok);
    case Read(j, _) => ReadKeepsSolvent(s, j);
    case Decr(j, _) => DecrKeepsSolvent(s, j);
    case Delete(j, _) => DeleteKeepsSolvent(s, j);
    case Update(j, _) => UpdateKeepsSolvent(env.build, s, j);
  }

  lemma {:induction false} RunKeepsSolvent(env: Env, steps: seq<Step>)
    requires Undisturbed(env) && After(env, steps).Some?
    ensures Solvent(After(env, steps).value)
    decreases |steps|
  {
    if steps != [] {
      RunKeepsSolvent(env, steps[..|steps| - 1]);
      StepKeepsSolvent(env, After(env, steps[..|steps| - 1]).value, steps[|steps| - 1]);
    }
  }

  lemma UndisturbedRunsCoverBase(env: Env, s: Sys)
    requires Undisturbed(env) && Reachable(env, s)
    ensures CoversBase(s)
  {
    var steps :| After(env, steps) == Some(s);
    RunKeepsSolvent(env, steps);
    forall e | e in s.ledger
      ensures e.charge >= 0
    {
      var sid: nat :| sid < |s.ledger| && s.ledger[sid] == e;
      if Busy(s, sid) {
        var j :| 0 <= j < |s.jobs| && s.jobs[j].sid == sid && s.jobs[j].phase != Over;
        assert JobSolvent(s, s.jobs[j]);
      } else {
        assert Covered(s, sid);
      }
    }
    forall key
      ensures Get(s.base, key) <= Get(s.used, key)
    {
      RunKeepsAccount(env, steps, key);
      SumOfNonNegative(s.ledger, key);
    }
  }

  lemma UnmeteredCoversBase(env: Env, s: Sys)
    requires !Meters(env.build) && Reachable(env, s)
    ensures CoversBase(s)
  {
    var steps :| After(env, steps) == Some(s);
    RunKeepsUnmetered(env, steps);
    forall key
      ensures Get(s.base, key) <= Get(s.used, key)
    {
      RunKeepsAccount(env, steps, key);
      SumOfNonNegative(s.ledger, key);
    }
  }

  // ---- Runs that break it ----

  /** A negative report refunds more than was reserved. */
  lemma NegativeReportBreaksIt(env: Env)
    requires Meters(env.build) && !env.plainUsage
    ensures exists s :: Reachable(env, s) && !CoversBase(s)
  {
    var s := OpenOne(env);
    assert !Busy(s, 0);
    s := Go(env, s, BeginEnd(0, Some(Usage(-5, 0, 0, 0)), false));
    s := Go(env, s, Read(1, true));
    s := Go(env, s, Decr(1, true));
    assert Get(s.used, SOME_KEY) == -5 && Get(s.base, SOME_KEY) == 0;
  }

  lemma OverlapRefundsTwice(env: Env)
    requires Meters(env.build) && !env.exclusive
    ensures exists s :: Reachable(env, s) && !CoversBase(s)
  {
    var s := RefundTwice(env);
    assert Get(s.used, SOME_KEY) == -10 && Get(s.base, SOME_KEY) == 0;
  }

  lemma RefundOnce(env: Env) returns (s: Sys)
    requires Meters(env.build)
    ensures Reachable(env, s)
    ensures s.ledger == [Entry(SOME_KEY, 10, true, 0)] && s.sessions == map[0 := Session(SOME_KEY, 10, Active, 0)]
    ensures s.used == map[SOME_KEY := 0] && s.base == map[] && s.snaps == map[0 := 10]
    ensures s.jobs == [Job(CreateCall, 0, 10, 0, Over), Job(EndCall(false), 0, 10, 0, Deleting)]
  {
    s := EndReads(env);
    s := Go(env, s, Decr(1, true));
  }

  /** End refunds a session, but neither removes its snapshot nor closes it. */
  lemma EndInVain(env: Env) returns (s: Sys)
    requires Meters(env.build) && !env.reliable
    ensures Reachable(env, s)
    ensures s.ledger == [Entry(SOME_KEY, 10, true, 0)] && s.sessions == map[0 := Session(SOME_KEY, 10, Active, 0)]
    ensures s.used == map[SOME_KEY := 0] && s.base == map[] && s.snaps == map[0 := 10]
    ensures s.jobs == [Job(CreateCall, 0, 10, 0, Over), Job(EndCall(false), 0, 10, 0, Over)]
  {
    s := RefundOnce(env);
    s := Go(env, s, Delete(1, false));
    s := Go(env, s, Update(1, false));
  }

  /** So the next End refunds it again. */
  lemma FailureRefundsTwice(env: Env)
    requires Meters(env.build) && !env.reliable
    ensures exists s :: Reachable(env, s) && !CoversBase(s)
  {
    var s := EndInVain(env);
    assert !Busy(s, 0);
    s := Go(env, s, BeginEnd(0, None, false));
    s := Go(env, s, Read(2, true));
    s := Go(env, s, Decr(2, true));
    assert Get(s.used, SOME_KEY) == -10 && Get(s.base, SOME_KEY) == 0;
  }

  /** Sessions never push a counter below the plain deductions, in any run, exactly when no session is
      metered at all, or settlements of one session do not overlap, their calls succeed, and the usage
      reported at the end is not negative. */
  lemma LowerBoundNeedsOrder(env: Env)
    ensures (forall s :: Reachable(env, s) ==> CoversBase(s)) <==> !Meters(env.build) || Undisturbed(env)
  {
    if !Meters(env.build) {
      forall s | Reachable(env, s)
        ensures CoversBase(s)
      {
        UnmeteredCoversBase(env, s);
      }
    } else if Undisturbed(env) {
      forall s | Reachable(env, s)
        ensures CoversBase(s)
      {
        UndisturbedRunsCoverBase(env, s);
      }
    } else if !env.exclusive {
      OverlapRefundsTwice(env);
    } else if !env.reliable {
      FailureRefundsTwice(env);
    } else {
      NegativeReportBreaksIt(env);
    }
  }
}
