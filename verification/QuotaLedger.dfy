/** Conservation of quota over whole runs. */
module QuotaLedger {
  import opened Quota

  // ---- Sums ----

  function Sum(ledger: seq<Entry>, key: Key): int {
    if ledger == [] then 0
    else
      var last := ledger[|ledger| - 1];
      Sum(ledger[..|ledger| - 1], key) + if last.key == key then last.charge else 0
  }

  lemma SumAppend(ledger: seq<Entry>, e: Entry, key: Key)
    ensures Sum(ledger + [e], key) == Sum(ledger, key) + if e.key == key then e.charge else 0
  {
    assert (ledger + [e])[..|ledger|] == ledger;
  }

  lemma {:induction false} SumUpdate(ledger: seq<Entry>, i: nat, e: Entry, key: Key)
    requires i < |ledger| && e.key == ledger[i].key
    ensures Sum(ledger[i := e], key) == Sum(ledger, key) + if e.key == key then e.charge - ledger[i].charge else 0
    decreases |ledger|
  {
    var m := |ledger| - 1;
    if i == m {
      assert ledger[i := e][..m] == ledger[..m];
    } else {
      assert ledger[i := e][..m] == ledger[..m][i := e];
      SumUpdate(ledger[..m], i, e, key);
    }
  }

  // ---- Whatever happens ----

  /** A counter is what the plain calls and the sessions are charged together. */
  ghost predicate Accounted(s: Sys, key: Key) {
    Get(s.used, key) == Get(s.base, key) + Sum(s.ledger, key)
  }

  /** A counter never passes the highest limit that was loaded. */
  ghost predicate Capped(s: Sys, key: Key) {
    && Get(s.used, key) <= Get(s.ceiling, key)
    && Limit(s, key) <= Get(s.ceiling, key)
    && 0 <= Get(s.ceiling, key)
  }

  ghost predicate RefundsArePositive(s: Sys) {
    forall j | 0 <= j < |s.jobs| :: s.jobs[j].phase.Refunding? ==> s.jobs[j].phase.amount > 0
  }

  lemma CreateKeepsAccount(build: Build, s: Sys, key: Key, initial: int, k: Key)
    requires Accounted(s, k) && Capped(s, k)
    ensures Accounted(DoCreate(build, s, key, initial), k) && Capped(DoCreate(build, s, key, initial), k)
  {
    match Admit(build, s, key, initial)
    case Granted(_) => SumAppend(s.ledger, Entry(key, initial, true, initial), k);
    case Unlimited => SumAppend(s.ledger, Entry(key, initial, false, 0), k);
    case _ =>
  }

  lemma DeductKeepsAccount(s: Sys, key: Key, amount: int, k: Key)
    requires Accounted(s, k) && Capped(s, k)
    ensures Accounted(DoDeduct(s, key, amount), k) && Capped(DoDeduct(s, key, amount), k)
  {
  }

  lemma DecrKeepsAccount(s: Sys, j: nat, ok: bool, k: Key)
    requires Accounted(s, k) && Capped(s, k) && RefundsArePositive(s)
    requires j < |s.jobs| && s.jobs[j].phase.Refunding? && s.jobs[j].sid < |s.ledger|
    ensures Accounted(DoDecr(s, j, ok), k) && Capped(DoDecr(s, j, ok), k)
  {
    var t := DoDecr(s, j, ok);
    var sid := s.jobs[j].sid;
    SumUpdate(s.ledger, sid, t.ledger[sid], k);
  }

  lemma StepKeepsAccount(env: Env, s: Sys, step: Step, k: Key)
    requires Accounted(s, k) && Capped(s, k) && RefundsArePositive(s) && Enabled(env, s, step)
    ensures Accounted(Apply(env, s, step), k) && Capped(Apply(env, s, step), k)
  {
    match step
    case Deduct(key, amount) => DeductKeepsAccount(s, key, amount, k);
    case BeginCreate(key, requested, default) => CreateKeepsAccount(env.build, s, key, Reserved(requested, default), k);
    case Decr(j, ok) => DecrKeepsAccount(s, j, ok, k);
    case _ =>
  }

  lemma StepKeepsRefundsPositive(env: Env, s: Sys, step: Step)
    requires RefundsArePositive(s) && Enabled(env, s, step)
    ensures RefundsArePositive(Apply(env, s, step))
  {
    var t := Apply(env, s, step);
    assert |t.jobs| >= |s.jobs|;
    forall j | 0 <= j < |t.jobs|
      ensures t.jobs[j].phase.Refunding? ==> t.jobs[j].phase.amount > 0
    {
      if j < |s.jobs| {
        assert s.jobs[j].phase.Refunding? ==> s.jobs[j].phase.amount > 0;
      }
    }
  }

  lemma {:induction false} RunKeepsAccount(env: Env, steps: seq<Step>, key: Key)
    requires After(env, steps).Some?
    ensures Accounted(After(env, steps).value, key) && Capped(After(env, steps).value, key)
    ensures RefundsArePositive(After(env, steps).value)
    decreases |steps|
  {
    if steps != [] {
      RunKeepsAccount(env, steps[..|steps| - 1], key);
      var s := After(env, steps[..|steps| - 1]).value;
      StepKeepsAccount(env, s, steps[|steps| - 1], key);
      StepKeepsRefundsPositive(env, s, steps[|steps| - 1]);
    }
  }
}
