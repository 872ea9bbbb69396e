/** Session quota: the Redis counters, the per-session snapshot, and the session rows, as the
    calls that create, end and clean up sessions change them one statement at a time.

    One calendar month is modelled; key expiry is not part of this model. */
module Quota {
  import opened Common

  datatype Dim = LlmTokensIn | LlmTokensOut | TtsChars | AsrSeconds

  /** A used counter of one tenant, in one dimension. */
  datatype Key = Key(tenant: int, dim: Dim)

  datatype Usage = Usage(llmTokensIn: int, llmTokensOut: int, ttsChars: int, asrSeconds: int)

  function ExtractDimUsage(usage: Option<Usage>, dim: Dim): int {
    match usage
    case None => 0
    case Some(u) =>
      match dim
      case LlmTokensIn => u.llmTokensIn
      case LlmTokensOut => u.llmTokensOut
      case TtsChars => u.ttsChars
      case AsrSeconds => u.asrSeconds
  }

  function BuildRefundUsage(dim: Dim, amount: int): Usage {
    var u := Usage(0, 0, 0, 0);
    match dim
    case LlmTokensIn => u.(llmTokensIn := amount)
    case LlmTokensOut => u.(llmTokensOut := amount)
    case TtsChars => u.(ttsChars := amount)
    case AsrSeconds => u.(asrSeconds := amount)
  }

  /** The places where the code differs from what its comments promise. */
  datatype Build = Build(
    formatsIds: bool,       // session ids are formatted in a base from 2 to 36
    amountBound: bool,      // the snapshot script binds `amount` to its argument
    scalarDecoded: bool,    // the script's scalar replies -1 and -2 are decoded
    cleanupColumn: bool)    // the column the clean-up writes exists

  /** The repository as it stands: base 0, no binding, replies read as lists, no such column. */
  const AS_WRITTEN := Build(false, false, false, false)

  /** What a run may contain. */
  datatype Env = Env(
    build: Build,
    exclusive: bool,        // a settlement starts only when no other of its session is unfinished
    reliable: bool,         // the calls of a settlement succeed
    plainUsage: bool)       // reported usage is not negative

  datatype Status = Creating | Active | Ended | Settled

  datatype Session = Session(key: Key, initial: int, status: Status, quotaUsed: int)

  datatype Kind = CreateCall | EndCall(failed: bool) | CleanupCall

  datatype Phase = Inserting | Reading | Refunding(amount: int) | Deleting | Updating | Over

  /** One call in progress on one session. */
  datatype Job = Job(kind: Kind, sid: nat, initial: int, actual: int, phase: Phase)

  /** The account of a session: what it is charged now. The original keeps no such record. */
  datatype Entry = Entry(key: Key, initial: int, metered: bool, charge: int)

  /** Session ids are numbered in order of creation, so they index the ledger. `base` sums the
      plain deductions and refunds; `ceiling` is the highest limit ever loaded. */
  datatype Sys = Sys(
    used: map<Key, int>, limits: map<Key, int>, snaps: map<nat, int>,
    sessions: map<nat, Session>, jobs: seq<Job>,
    base: map<Key, int>, ceiling: map<Key, int>, ledger: seq<Entry>)

  const START := Sys(map[], map[], map[], map[], [], map[], map[], [])

  datatype Step =
    | SetLimit(key: Key, limit: int)
    | Deduct(key: Key, amount: int)
    | Refund(key: Key, amount: int)
    | BeginCreate(key: Key, requested: int, default: int)
    | BeginEnd(sid: nat, usage: Option<Usage>, failed: bool)
    | BeginCleanup(sid: nat)
    | Insert(j: nat, ok: bool)
    | Read(j: nat, ok: bool)
    | Decr(j: nat, ok: bool)
    | Delete(j: nat, ok: bool)
    | Update(j: nat, ok: bool)

  // ---- The scripts ----

  function Get(m: map<Key, int>, key: Key): int {
    if key in m then m[key] else 0
  }

  /** A missing limit reads as -1. */
  function Limit(s: Sys, key: Key): int {
    if key in s.limits then s.limits[key] else -1
  }

  datatype Reply = ScriptError | Code(n: int) | Pair(remaining: int, snapshot: int)

  function DeductReply(s: Sys, key: Key, amount: int): Reply {
    if Limit(s, key) < 0 then Code(-2)
    else if Get(s.used, key) + amount > Limit(s, key) then Code(-1)
    else Code(Limit(s, key) - Get(s.used, key) - amount)
  }

  function SnapshotReply(build: Build, s: Sys, key: Key, amount: int): Reply {
    if Limit(s, key) < 0 then Code(-2)
    else if !build.amountBound then ScriptError
    else if Get(s.used, key) + amount > Limit(s, key) then Code(-1)
    else Pair(Limit(s, key) - Get(s.used, key) - amount, amount)
  }

  datatype Outcome = Granted(remaining: int) | Unlimited | Exceeded | Fault

  function DecodeDeduct(reply: Reply): Outcome {
    match reply
    case Code(n) => if n == -2 then Unlimited else if n == -1 then Exceeded else Granted(n)
    case _ => Fault
  }

  function DecodeSnapshot(build: Build, reply: Reply): Outcome {
    match reply
    case ScriptError => Fault
    case Code(n) => if !build.scalarDecoded then Fault else if n == -2 then Unlimited else Exceeded
    case Pair(remaining, _) =>
      if remaining == -2 then Unlimited else if remaining == -1 then Exceeded else Granted(remaining)
  }

  // ---- The calls ----

  /** The amount reserved for a session: the request's, or the configured default. */
  function Reserved(requested: int, default: int): int {
    if requested <= 0 then default else requested
  }

  predicate Busy(s: Sys, sid: nat) {
    exists j :: 0 <= j < |s.jobs| && s.jobs[j].sid == sid && s.jobs[j].phase != Over
  }

  predicate Open(s: Sys, sid: nat) {
    sid in s.sessions && (s.sessions[sid].status == Creating || s.sessions[sid].status == Active)
  }

  predicate AtPhase(s: Sys, j: nat, phase: Phase) {
    j < |s.jobs| && s.jobs[j].phase == phase && s.jobs[j].sid < |s.ledger|
  }

  predicate Enabled(env: Env, s: Sys, step: Step) {
    match step
    case SetLimit(_, _) => true
    case Deduct(_, _) => true
    case Refund(_, amount) => amount >= 0
    case BeginCreate(_, _, default) => default > 0
    case BeginEnd(sid, usage, _) =>
      && Open(s, sid) && (env.exclusive ==> !Busy(s, sid))
      && (env.plainUsage ==> ExtractDimUsage(usage, s.sessions[sid].key.dim) >= 0)
    case BeginCleanup(sid) => Open(s, sid) && (env.exclusive ==> !Busy(s, sid))
    case Insert(j, _) => AtPhase(s, j, Inserting)
    case Read(j, ok) => AtPhase(s, j, Reading) && (env.reliable ==> ok)
    case Decr(j, ok) =>
      && j < |s.jobs| && s.jobs[j].phase.Refunding? && s.jobs[j].sid < |s.ledger|
      && (env.reliable ==> ok)
    case Delete(j, ok) => AtPhase(s, j, Deleting) && (env.reliable ==> ok)
    case Update(j, ok) => AtPhase(s, j, Updating) && s.jobs[j].sid in s.sessions && (env.reliable ==> ok)
  }

  /** Where a job stands after the refund, done or not: a failed creation is finished. */
  function AfterRefund(kind: Kind): Phase {
    if kind.CreateCall? then Over else Updating
  }

  function PhaseAfterRead(s: Sys, job: Job, ok: bool): Phase {
    if job.kind.CleanupCall? && job.initial - job.actual <= 0 then Updating
    else if !ok then (if job.kind.EndCall? then Updating else Over)
    else if job.sid !in s.snaps || s.snaps[job.sid] - job.actual <= 0 then AfterRefund(job.kind)
    else Refunding(s.snaps[job.sid] - job.actual)
  }

  /** Counters, limits and accounts are the same. */
  predicate SameAccounts(s: Sys, t: Sys) {
    t.used == s.used && t.limits == s.limits && t.base == s.base && t.ceiling == s.ceiling && t.ledger == s.ledger
  }

  /** Call j now stands at `phase`; the others are where they were. */
  predicate Moved(s: Sys, t: Sys, j: nat, phase: Phase) {
    j < |s.jobs| && t.jobs == s.jobs[j := s.jobs[j].(phase := phase)]
  }

  function Move(s: Sys, j: nat, phase: Phase): Sys
    requires j < |s.jobs|
  {
    s.(jobs := s.jobs[j := s.jobs[j].(phase := phase)])
  }

  function DoSetLimit(s: Sys, key: Key, limit: int): Sys {
    s.(limits := s.limits[key := limit], ceiling := s.ceiling[key := Max(Get(s.ceiling, key), limit)])
  }

  function DoRefund(s: Sys, key: Key, amount: int): Sys {
    s.(used := s.used[key := Get(s.used, key) - amount], base := s.base[key := Get(s.base, key) - amount])
  }

  function DoDeduct(s: Sys, key: Key, amount: int): Sys {
    if DecodeDeduct(DeductReply(s, key, amount)).Granted? then
      s.(used := s.used[key := Get(s.used, key) + amount], base := s.base[key := Get(s.base, key) + amount])
    else s
  }

  /** Create's decision: format the id, run the script, decode its reply. */
  function Admit(build: Build, s: Sys, key: Key, initial: int): (o: Outcome)
    ensures o.Granted? ==> build.formatsIds && build.amountBound
    ensures o.Granted? ==> 0 <= o.remaining == Limit(s, key) - Get(s.used, key) - initial
    ensures o.Unlimited? ==> build.formatsIds && Limit(s, key) < 0
  {
    if !build.formatsIds then Fault
    else DecodeSnapshot(build, SnapshotReply(build, s, key, initial))
  }

  /** A session is opened unmetered where the key has no limit, and else when the amount fits. */
  predicate Admits(build: Build, s: Sys, key: Key, amount: int) {
    build.formatsIds
    && if key !in s.limits || s.limits[key] < 0 then build.scalarDecoded
       else build.amountBound && Get(s.used, key) + amount <= s.limits[key]
  }

  /** Create up to the row's INSERT. */
  function DoCreate(build: Build, s: Sys, key: Key, initial: int): Sys {
    var sid := |s.ledger|;
    var t := s.(jobs := s.jobs + [Job(CreateCall, sid, initial, 0, Inserting)]);
    match Admit(build, s, key, initial)
    case Granted(_) =>
      t.(used := s.used[key := Get(s.used, key) + initial], snaps := s.snaps[sid := initial],
         ledger := s.ledger + [Entry(key, initial, true, initial)])
    case Unlimited => t.(ledger := s.ledger + [Entry(key, initial, false, 0)])
    case _ => s
  }

  function DoInsert(s: Sys, j: nat, ok: bool): (t: Sys)
    requires AtPhase(s, j, Inserting)
    ensures SameAccounts(s, t) && Moved(s, t, j, if ok then Over else Reading)
  {
    var e := s.ledger[s.jobs[j].sid];
    if ok then Move(s, j, Over).(sessions := s.sessions[s.jobs[j].sid := Session(e.key, e.initial, Active, 0)])
    else Move(s, j, Reading)
  }

  /** A settlement starts from the session's row as it is now. */
  function DoBegin(s: Sys, kind: Kind, sid: nat, actual: int): (t: Sys)
    requires sid in s.sessions
    ensures SameAccounts(s, t)
  {
    s.(jobs := s.jobs + [Job(kind, sid, s.sessions[sid].initial, actual, Reading)])
  }

  function DoRead(s: Sys, j: nat, ok: bool): (t: Sys)
    requires AtPhase(s, j, Reading)
    ensures SameAccounts(s, t) && Moved(s, t, j, PhaseAfterRead(s, s.jobs[j], ok))
  {
    Move(s, j, PhaseAfterRead(s, s.jobs[j], ok))
  }

  function DoDecr(s: Sys, j: nat, ok: bool): (t: Sys)
    requires j < |s.jobs| && s.jobs[j].phase.Refunding? && s.jobs[j].sid < |s.ledger|
    ensures Moved(s, t, j, Deleting)
  {
    var amount, sid := s.jobs[j].phase.amount, s.jobs[j].sid;
    var e := s.ledger[sid];
    var m := Move(s, j, Deleting);
    if ok then
      m.(used := s.used[e.key := Get(s.used, e.key) - amount],
         ledger := s.ledger[sid := e.(charge := e.charge - amount)])
    else m
  }

  function DoDelete(s: Sys, j: nat, ok: bool): (t: Sys)
    requires j < |s.jobs|
    ensures SameAccounts(s, t) && Moved(s, t, j, AfterRefund(s.jobs[j].kind))
  {
    var m := Move(s, j, AfterRefund(s.jobs[j].kind));
    if ok then m.(snaps := s.snaps - {s.jobs[j].sid}) else m
  }

  function DoUpdate(build: Build, s: Sys, j: nat, ok: bool): (t: Sys)
    requires AtPhase(s, j, Updating) && s.jobs[j].sid in s.sessions
    ensures SameAccounts(s, t) && Moved(s, t, j, Over)
  {
    var job := s.jobs[j];
    var row := s.sessions[job.sid];
    var m := Move(s, j, Over);
    match job.kind
    case EndCall(failed) =>
      if ok then
        m.(sessions := s.sessions[job.sid :=
             row.(status := if failed then Ended else Settled, quotaUsed := job.actual)])
      else m
    case _ =>
      if ok && build.cleanupColumn then
        m.(sessions := s.sessions[job.sid := row.(status := Ended)])
      else m
  }

  function Apply(env: Env, s: Sys, step: Step): Sys
    requires Enabled(env, s, step)
  {
    match step
    case SetLimit(key, limit) => DoSetLimit(s, key, limit)
    case Deduct(key, amount) => DoDeduct(s, key, amount)
    case Refund(key, amount) => DoRefund(s, key, amount)
    case BeginCreate(key, requested, default) => DoCreate(env.build, s, key, Reserved(requested, default))
    case BeginEnd(sid, usage, failed) =>
      DoBegin(s, EndCall(failed), sid, ExtractDimUsage(usage, s.sessions[sid].key.dim))
    case BeginCleanup(sid) => DoBegin(s, CleanupCall, sid, s.sessions[sid].quotaUsed)
    case Insert(j, ok) => DoInsert(s, j, ok)
    case Read(j, ok) => DoRead(s, j, ok)
    case Decr(j, ok) => DoDecr(s, j, ok)
    case Delete(j, ok) => DoDelete(s, j, ok)
    case Update(j, ok) => DoUpdate(env.build, s, j, ok)
  }

  ghost function After(env: Env, steps: seq<Step>): Option<Sys>
    decreases |steps|
  {
    if steps == [] then Some(START)
    else
      match After(env, steps[..|steps| - 1])
      case None => None
      case Some(t) =>
        var step := steps[|steps| - 1];
        if Enabled(env, t, step) then Some(Apply(env, t, step)) else None
  }

  ghost predicate Reachable(env: Env, s: Sys) {
    exists steps :: After(env, steps) == Some(s)
  }

  lemma StartIsReachable(env: Env)
    ensures Reachable(env, START)
  {
    assert After(env, []) == Some(START);
  }

  lemma ReachableStep(env: Env, s: Sys, step: Step)
    requires Reachable(env, s) && Enabled(env, s, step)
    ensures Reachable(env, Apply(env, s, step))
  {
    var steps :| After(env, steps) == Some(s);
    assert (steps + [step])[..|steps|] == steps;
    assert After(env, steps + [step]) == Some(Apply(env, s, step));
  }
}
