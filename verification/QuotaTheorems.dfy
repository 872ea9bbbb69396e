/** The quota laws, and exactly when the code meets them. */
module QuotaTheorems {
  import opened Common
  import opened Quota
  import opened QuotaLedger
  import opened QuotaSettlement

  // ---- The scripts ----

  /** A reply is decoded as what the script decided, and a grant never reads as a refusal. */
  lemma DeductDecides(s: Sys, key: Key, amount: int)
    ensures var o := DecodeDeduct(DeductReply(s, key, amount));
            && (o.Unlimited? <==> Limit(s, key) < 0)
            && (o.Exceeded? <==> 0 <= Limit(s, key) < Get(s.used, key) + amount)
            && (o.Granted? <==> 0 <= Limit(s, key) && Get(s.used, key) + amount <= Limit(s, key))
            && (o.Granted? ==> o.remaining == Limit(s, key) - (Get(s.used, key) + amount) >= 0)
  {
  }

  /** A counter that is not of the key, and everything but the counters, stays. */
  ghost predicate OnlyCounter(s: Sys, t: Sys, key: Key) {
    && (forall k | k != key :: Get(t.used, k) == Get(s.used, k))
    && t.limits == s.limits && t.snaps == s.snaps && t.sessions == s.sessions && t.jobs == s.jobs && t.ledger == s.ledger
  }

  /** A plain deduction adds its amount when that stays within the limit; a plain refund takes its amount
      off, however low that goes. */
  lemma PlainCallsMoveCounters(env: Env, s: Sys, key: Key, amount: int)
    ensures var t := Apply(env, s, Deduct(key, amount));
            var fits := key in s.limits && 0 <= s.limits[key] && Get(s.used, key) + amount <= s.limits[key];
            Get(t.used, key) == Get(s.used, key) + (if fits then amount else 0) && OnlyCounter(s, t, key)
    ensures amount >= 0 ==>
              var t := Apply(env, s, Refund(key, amount));
              Get(t.used, key) == Get(s.used, key) - amount && OnlyCounter(s, t, key)
  {
    DeductDecides(s, key, amount);
  }

  /** Create reserves quota or opens an unmetered session exactly in these cases; in every other
      one it changes nothing. */
  lemma CreateDecides(build: Build, s: Sys, key: Key, initial: int)
    ensures var t := DoCreate(build, s, key, initial);
            && (t != s <==> Admits(build, s, key, initial))
            && (t != s ==> Get(t.used, key) == Get(s.used, key) + if Limit(s, key) < 0 then 0 else initial)
            && (t != s && Limit(s, key) >= 0 ==> Get(t.used, key) <= Limit(s, key))
  {
    var t := DoCreate(build, s, key, initial);
    assert t == s || |t.jobs| == |s.jobs| + 1;
  }

  // ---- Sums ----

  /** The first n sessions' expected charges against one counter. */
  function ExpectedSum(s: Sys, key: Key, n: nat): int
    requires n <= |s.ledger|
  {
    if n == 0 then 0
    else ExpectedSum(s, key, n - 1) + if s.ledger[n - 1].key == key then Expected(s, n - 1) else 0
  }

  lemma {:induction false} SumAsExpected(s: Sys, key: Key, n: nat)
    requires n <= |s.ledger| && forall sid: nat | sid < n :: s.ledger[sid].charge == Expected(s, sid)
    ensures Sum(s.ledger[..n], key) == ExpectedSum(s, key, n)
  {
    if n > 0 {
      assert s.ledger[..n][..n - 1] == s.ledger[..n - 1];
      SumAsExpected(s, key, n - 1);
    }
  }

  lemma {:induction false} SumOfNonNegative(ledger: seq<Entry>, key: Key)
    requires forall e | e in ledger :: e.charge >= 0
    ensures Sum(ledger, key) >= 0
    decreases |ledger|
  {
    if ledger != [] {
      assert ledger[|ledger| - 1] in ledger;
      SumOfNonNegative(ledger[..|ledger| - 1], key);
    }
  }

  // ---- Conservation ----

  ghost predicate Quiet(s: Sys) {
    forall j | 0 <= j < |s.jobs| :: s.jobs[j].phase == Over
  }

  /** With no call in progress a counter is the plain deductions, the reserved amounts of open
      metered sessions, and the smaller of reserved and reported amounts of the ended ones. */
  ghost predicate Conserved(s: Sys) {
    Quiet(s) ==> forall key :: Get(s.used, key) == Get(s.base, key) + ExpectedSum(s, key, |s.ledger|)
  }

  lemma OrderlyRunsConserve(env: Env, s: Sys)
    requires Orderly(env) && Reachable(env, s)
    ensures Conserved(s)
  {
    var steps :| After(env, steps) == Some(s);
    RunKeepsSound(env, steps);
    if Quiet(s) {
      forall key
        ensures Get(s.used, key) == Get(s.base, key) + ExpectedSum(s, key, |s.ledger|)
      {
        RunKeepsAccount(env, steps, key);
        forall sid: nat | sid < |s.ledger|
          ensures s.ledger[sid].charge == Expected(s, sid)
        {
          assert !Busy(s, sid) && RestOk(s, sid);
        }
        SumAsExpected(s, key, |s.ledger|);
        assert s.ledger[..|s.ledger|] == s.ledger;
      }
    }
  }

  /** In every run, overlapping or failing as it may, no counter passes the highest limit loaded. */
  lemma UsedStaysWithinLimit(env: Env, s: Sys, key: Key)
    requires Reachable(env, s)
    ensures Get(s.used, key) <= Get(s.ceiling, key)
    ensures Get(s.used, key) == Get(s.base, key) + Sum(s.ledger, key)
  {
    var steps :| After(env, steps) == Some(s);
    RunKeepsAccount(env, steps, key);
  }

  // ---- Builds that reserve nothing ----

  /** The build can reserve quota for a session. */
  predicate Meters(build: Build) {
    build.formatsIds && build.amountBound
  }

  ghost predicate Unmetered(s: Sys) {
    && (forall sid: nat | sid < |s.ledger| :: !s.ledger[sid].metered && s.ledger[sid].charge == 0)
    && s.snaps == map[]
    && (forall j | 0 <= j < |s.jobs| :: !s.jobs[j].phase.Refunding?)
  }

  lemma StepKeepsUnmetered(env: Env, s: Sys, step: Step)
    requires !Meters(env.build) && Unmetered(s) && Enabled(env, s, step)
    ensures Unmetered(Apply(env, s, step))
  {
    var t := Apply(env, s, step);
    match step
    case BeginCreate(_, _, _) =>
    case Read(j, ok) => assert !PhaseAfterRead(s, s.jobs[j], ok).Refunding?;
    case _ =>
  }

  lemma {:induction false} RunKeepsUnmetered(env: Env, steps: seq<Step>)
    requires !Meters(env.build) && After(env, steps).Some?
    ensures Unmetered(After(env, steps).value)
    decreases |steps|
  {
    if steps != [] {
      RunKeepsUnmetered(env, steps[..|steps| - 1]);
      StepKeepsUnmetered(env, After(env, steps[..|steps| - 1]).value, steps[|steps| - 1]);
    }
  }

  lemma UnmeteredConserves(env: Env, s: Sys)
    requires !Meters(env.build) && Reachable(env, s)
    ensures Conserved(s)
  {
    var steps :| After(env, steps) == Some(s);
    RunKeepsUnmetered(env, steps);
    forall key
      ensures Get(s.used, key) == Get(s.base, key) + ExpectedSum(s, key, |s.ledger|)
    {
      RunKeepsAccount(env, steps, key);
      SumAsExpected(s, key, |s.ledger|);
      assert s.ledger[..|s.ledger|] == s.ledger;
    }
  }

  /** As the repository stands no session is ever created and no quota ever reserved. */
  lemma AsWrittenCreatesNothing(env: Env, s: Sys)
    requires env.build == AS_WRITTEN && Reachable(env, s)
    ensures s.sessions == map[] && s.snaps == map[] && s.ledger == [] && s.jobs == []
    ensures forall key :: Get(s.used, key) == Get(s.base, key)
  {
    var steps :| After(env, steps) == Some(s);
    NothingCreated(env, steps);
    forall key
      ensures Get(s.used, key) == Get(s.base, key)
    {
      RunKeepsAccount(env, steps, key);
    }
  }

  lemma {:induction false} NothingCreated(env: Env, steps: seq<Step>)
    requires env.build == AS_WRITTEN && After(env, steps).Some?
    ensures var s := After(env, steps).value;
            s.sessions == map[] && s.snaps == map[] && s.ledger == [] && s.jobs == []
    decreases |steps|
  {
    if steps != [] {
      NothingCreated(env, steps[..|steps| - 1]);
    }
  }

  // ---- Runs that break the law ----

  lemma Go(env: Env, s: Sys, step: Step) returns (t: Sys)
    requires Reachable(env, s) && Enabled(env, s, step)
    ensures t == Apply(env, s, step) && Reachable(env, t)
  {
    t := Apply(env, s, step);
    ReachableStep(env, s, step);
  }

  const SOME_KEY := Key(1, LlmTokensIn)

  /** One open session holding 10 of a limit of 100, no call in progress. */
  ghost predicate OneSession(s: Sys) {
    && s.ledger == [Entry(SOME_KEY, 10, true, 10)] && s.snaps == map[0 := 10]
    && s.sessions == map[0 := Session(SOME_KEY, 10, Active, 0)]
    && s.jobs == [Job(CreateCall, 0, 10, 0, Over)]
    && s.used == map[SOME_KEY := 10] && s.base == map[]
  }

  lemma GrantsTen(build: Build, s: Sys)
    requires Meters(build) && s == START.(limits := map[SOME_KEY := 100], ceiling := map[SOME_KEY := 100])
    ensures DoCreate(build, s, SOME_KEY, 10)
         == s.(used := map[SOME_KEY := 10], snaps := map[0 := 10], ledger := [Entry(SOME_KEY, 10, true, 10)],
               jobs := [Job(CreateCall, 0, 10, 0, Inserting)])
  {
  }

  lemma ReserveOne(env: Env) returns (s: Sys)
    requires Meters(env.build)
    ensures Reachable(env, s)
    ensures s.ledger == [Entry(SOME_KEY, 10, true, 10)] && s.snaps == map[0 := 10] && s.sessions == map[]
    ensures s.jobs == [Job(CreateCall, 0, 10, 0, Inserting)] && s.used == map[SOME_KEY := 10] && s.base == map[]
  {
    StartIsReachable(env);
    s := Go(env, START, SetLimit(SOME_KEY, 100));
    assert s == START.(limits := map[SOME_KEY := 100], ceiling := map[SOME_KEY := 100]);
    GrantsTen(env.build, s);
    s := Go(env, s, BeginCreate(SOME_KEY, 10, 5000));
  }

  lemma OpenOne(env: Env) returns (s: Sys)
    requires Meters(env.build)
    ensures Reachable(env, s) && OneSession(s)
  {
    s := ReserveOne(env);
    s := Go(env, s, Insert(0, true));
  }

  /** Two calls of End on one session, each at its own statement. */
  ghost predicate TwoEnds(s: Sys, charge: int, first: Phase, second: Phase) {
    && s.ledger == [Entry(SOME_KEY, 10, true, charge)] && s.snaps == map[0 := 10]
    && s.sessions == map[0 := Session(SOME_KEY, 10, Active, 0)]
    && s.jobs == [Job(CreateCall, 0, 10, 0, Over), Job(EndCall(false), 0, 10, 0, first), Job(EndCall(false), 0, 10, 0, second)]
    && s.used == map[SOME_KEY := charge] && s.base == map[]
  }

  lemma BeginTwice(env: Env) returns (s: Sys)
    requires Meters(env.build) && !env.exclusive
    ensures Reachable(env, s) && TwoEnds(s, 10, Reading, Reading)
  {
    s := OpenOne(env);
    s := Go(env, s, BeginEnd(0, None, false));
    s := Go(env, s, BeginEnd(0, None, false));
  }

  /** Both read the snapshot before either removes it. */
  lemma ReadTwice(env: Env) returns (s: Sys)
    requires Meters(env.build) && !env.exclusive
    ensures Reachable(env, s) && TwoEnds(s, 10, Refunding(10), Refunding(10))
  {
    s := BeginTwice(env);
    s := Go(env, s, Read(1, true));
    assert TwoEnds(s, 10, Refunding(10), Reading);
    s := Go(env, s, Read(2, true));
  }

  lemma RefundTwice(env: Env) returns (s: Sys)
    requires Meters(env.build) && !env.exclusive
    ensures Reachable(env, s) && TwoEnds(s, -10, Deleting, Deleting)
  {
    s := ReadTwice(env);
    s := Go(env, s, Decr(1, true));
    assert TwoEnds(s, 0, Deleting, Refunding(10));
    s := Go(env, s, Decr(2, true));
  }

  lemma OverlapDeletes(env: Env) returns (s: Sys)
    requires Meters(env.build) && !env.exclusive
    ensures Reachable(env, s)
    ensures s.ledger == [Entry(SOME_KEY, 10, true, -10)] && s.sessions == map[0 := Session(SOME_KEY, 10, Active, 0)]
    ensures s.used == map[SOME_KEY := -10] && s.base == map[]
    ensures var job := Job(EndCall(false), 0, 10, 0, Updating);
            s.jobs == [Job(CreateCall, 0, 10, 0, Over), job, job]
  {
    s := RefundTwice(env);
    s := Go(env, s, Delete(1, true));
    s := Go(env, s, Delete(2, true));
  }

  lemma OverlapBreaksIt(env: Env)
    requires Meters(env.build) && !env.exclusive
    ensures exists s :: Reachable(env, s) && !Conserved(s)
  {
    var s := OverlapDeletes(env);
    s := Go(env, s, Update(1, true));
    s := Go(env, s, Update(2, true));
    assert Quiet(s) && Get(s.used, SOME_KEY) == -10;
    assert ExpectedSum(s, SOME_KEY, 1) == 0;
  }

  /** A call of End or of the clean-up has read the snapshot. */
  ghost predicate OneReader(s: Sys, kind: Kind) {
    && s.ledger == [Entry(SOME_KEY, 10, true, 10)] && s.snaps == map[0 := 10]
    && s.sessions == map[0 := Session(SOME_KEY, 10, Active, 0)]
    && s.jobs == [Job(CreateCall, 0, 10, 0, Over), Job(kind, 0, 10, 0, Refunding(10))]
    && s.used == map[SOME_KEY := 10] && s.base == map[]
  }

  lemma EndReads(env: Env) returns (s: Sys)
    requires Meters(env.build)
    ensures Reachable(env, s) && OneReader(s, EndCall(false))
  {
    s := OpenOne(env);
    assert !Busy(s, 0);
    s := Go(env, s, BeginEnd(0, None, false));
    s := Go(env, s, Read(1, true));
  }

  lemma CleanupReads(env: Env) returns (s: Sys)
    requires Meters(env.build)
    ensures Reachable(env, s) && OneReader(s, CleanupCall)
  {
    s := OpenOne(env);
    assert !Busy(s, 0);
    s := Go(env, s, BeginCleanup(0));
    s := Go(env, s, Read(1, true));
  }

  /** End's decrement is lost; the snapshot is removed all the same. */
  lemma FailureBreaksIt(env: Env)
    requires Meters(env.build) && !env.reliable
    ensures exists s :: Reachable(env, s) && !Conserved(s)
  {
    var s := EndReads(env);
    s := Go(env, s, Decr(1, false));
    s := Go(env, s, Delete(1, true));
    s := Go(env, s, Update(1, true));
    assert Quiet(s) && |s.ledger| == 1 && Get(s.used, SOME_KEY) == 10;
    assert ExpectedSum(s, SOME_KEY, 1) == 0;
  }

  /** The clean-up refunds a session and cannot close it. */
  lemma MissingColumnBreaksIt(env: Env)
    requires Meters(env.build) && !env.build.cleanupColumn
    ensures exists s :: Reachable(env, s) && !Conserved(s)
  {
    var s := CleanupReads(env);
    s := Go(env, s, Decr(1, true));
    s := Go(env, s, Delete(1, true));
    s := Go(env, s, Update(1, true));
    assert Quiet(s) && |s.ledger| == 1 && Get(s.used, SOME_KEY) == 0;
    assert ExpectedSum(s, SOME_KEY, 1) == 10;
  }

  /** Quota is conserved in every run exactly when no session is metered at all, or settlements of
      one session do not overlap, their calls succeed, and the clean-up can close a session. */
  lemma ConservationNeedsOrder(env: Env)
    ensures (forall s :: Reachable(env, s) ==> Conserved(s)) <==> !Meters(env.build) || Orderly(env)
  {
    if !Meters(env.build) {
      forall s | Reachable(env, s)
        ensures Conserved(s)
      {
        UnmeteredConserves(env, s);
      }
    } else if Orderly(env) {
      forall s | Reachable(env, s)
        ensures Conserved(s)
      {
        OrderlyRunsConserve(env, s);
      }
    } else if !env.exclusive {
      OverlapBreaksIt(env);
    } else if !env.reliable {
      FailureBreaksIt(env);
    } else {
      MissingColumnBreaksIt(env);
    }
  }

  // ---- Reports ----

  /** The refund report names the settled dimension and no other. */
  lemma RefundReport(dim: Dim, other: Dim, amount: int)
    ensures ExtractDimUsage(Some(BuildRefundUsage(dim, amount)), other) == if other == dim then amount else 0
  {
  }

  /** Field by field. */
  lemma UsageFields(u: Usage, dim: Dim, amount: int)
    ensures ExtractDimUsage(None, dim) == 0
    ensures ExtractDimUsage(Some(u), LlmTokensIn) == u.llmTokensIn && ExtractDimUsage(Some(u), LlmTokensOut) == u.llmTokensOut
    ensures ExtractDimUsage(Some(u), TtsChars) == u.ttsChars && ExtractDimUsage(Some(u), AsrSeconds) == u.asrSeconds
    ensures var r := BuildRefundUsage(dim, amount);
            && r.llmTokensIn == (if dim == LlmTokensIn then amount else 0)
            && r.llmTokensOut == (if dim == LlmTokensOut then amount else 0)
            && r.ttsChars == (if dim == TtsChars then amount else 0)
            && r.asrSeconds == (if dim == AsrSeconds then amount else 0)
  {
  }
}
