/** The transactional outbox: rows of a table claimed by any number of polling workers.

    Each SQL statement is one atomic step. Between two statements of one worker any other
    worker, writer or the clock may step. Times are whole seconds. */
module Outbox {
  import opened Common

  const MAX_RETRY := 10

  const BACKOFF_SECONDS: seq<int> := [1, 2, 4, 8, 16, 32, 60]

  /** Seconds to wait after a failure, by the number of failures before it. */
  function Backoff(retryCount: int): int {
    var k := if retryCount < 0 then 0 else retryCount;
    if k >= |BACKOFF_SECONDS| then BACKOFF_SECONDS[|BACKOFF_SECONDS| - 1] else BACKOFF_SECONDS[k]
  }

  datatype Status = Pending | Processing | Done | Failed

  datatype Row = Row(status: Status, workerId: Option<nat>, retryCount: int, nextRetryAt: Option<int>)

  /** A row as a worker's SELECT scanned it; `retryCount` may be stale when it is used. */
  datatype Snap = Snap(id: int, retryCount: int)

  /** Where a worker stands with the first of its claimed rows. */
  datatype Phase = Waiting | Handling(start: int) | Handled(ok: bool)

  /** The local variables of one pass of processBatch: rows still to claim, rows claimed and
      not yet finished. Both empty: the worker is between two passes. */
  datatype Local = Local(toClaim: seq<Snap>, claimed: seq<Snap>, phase: Phase)

  const IDLE := Local([], [], Waiting)

  /** One completed call of the handler. */
  datatype Run = Run(start: int, end: int, ok: bool)

  /** `runs` is the history of completed handler calls, per row. */
  datatype Sys = Sys(now: int, rows: map<int, Row>, workers: seq<Local>, runs: map<int, seq<Run>>)

  datatype Step =
    | Tick(seconds: nat)
    | Write(id: int)
    | Select(w: nat, limit: nat, unscanned: set<int>)
    | Claim(w: nat, dbOk: bool)
    | Begin(w: nat)
    | End(w: nat, ok: bool)
    | Finish(w: nat, dbOk: bool)

  // ---- The SQL statements ----

  predicate Due(row: Row, now: int) {
    row.status == Pending && (row.nextRetryAt == None || row.nextRetryAt.value <= now)
  }

  function DueIds(rows: map<int, Row>, now: int): set<int> {
    set id | id in rows && Due(rows[id], now)
  }

  lemma HasLeast(ids: set<int>)
    requires ids != {}
    ensures exists m :: m in ids && forall x | x in ids :: m <= x
  {
    Inhabited(ids);
    var x :| x in ids;
    var rest := ids - {x};
    if rest == {} {
      assert forall y | y in ids :: y == x by { assert ids == rest + {x}; }
    } else {
      HasLeast(rest);
      var m :| m in rest && forall y | y in rest :: m <= y;
      assert forall y | y in ids :: y == x || y in rest;
      assert Min(m, x) in ids && forall y | y in ids :: Min(m, x) <= y;
    }
  }

  function Least(ids: set<int>): (m: int)
    requires ids != {}
    ensures m in ids && forall x | x in ids :: m <= x
  {
    HasLeast(ids);
    var m :| m in ids && forall x | x in ids :: m <= x;
    m
  }

  /** ORDER BY id LIMIT n. */
  function FirstIds(ids: set<int>, n: nat): (r: seq<int>)
    ensures |r| == Min(n, |ids|)
    ensures forall i, j | 0 <= i < j < |r| :: r[i] < r[j]
    ensures forall x | x in r :: x in ids
    ensures forall i | 0 <= i < |r| :: r[i] in ids
    ensures |r| == n || forall x | x in ids :: x in r
    decreases n
  {
    if n == 0 || ids == {} then []
    else
      var m := Least(ids);
      var rest := FirstIds(ids - {m}, n - 1);
      assert forall i | 0 <= i < |rest| :: rest[i] in rest && rest[i] in ids - {m};
      [m] + rest
  }

  /** The rows the loop over the result set keeps: those whose Scan succeeds. */
  function Scanned(ids: seq<int>, rows: map<int, Row>, unscanned: set<int>): (r: seq<Snap>)
    requires forall i | 0 <= i < |ids| :: ids[i] in rows
    ensures forall s | s in r :: s.id in ids && s.id in rows && s.retryCount == rows[s.id].retryCount
    ensures (forall i, j | 0 <= i < j < |ids| :: ids[i] < ids[j]) ==>
              forall i, j | 0 <= i < j < |r| :: r[i].id < r[j].id
  {
    if ids == [] then []
    else
      var rest := Scanned(ids[1..], rows, unscanned);
      if ids[0] in unscanned then rest else [Snap(ids[0], rows[ids[0]].retryCount)] + rest
  }

  function SelectDue(rows: map<int, Row>, now: int, limit: nat, unscanned: set<int>): (r: seq<Snap>)
    ensures forall s | s in r ::
              s.id in rows && Due(rows[s.id], now) && s.retryCount == rows[s.id].retryCount
    ensures forall i, j | 0 <= i < j < |r| :: r[i].id < r[j].id
  {
    Scanned(FirstIds(DueIds(rows, now), limit), rows, unscanned)
  }

  // ---- What a query must return ----

  /** The rows that are pending, and not waiting for a later time, with ids below `id`. */
  ghost function WaitingBefore(rows: map<int, Row>, now: int, id: int): set<int> {
    set x | x in rows && rows[x].status == Pending
            && (rows[x].nextRetryAt == None || rows[x].nextRetryAt.value <= now) && x < id
  }

  ghost predicate HasId(r: seq<Snap>, id: int) {
    exists i :: 0 <= i < |r| && r[i].id == id
  }

  lemma {:induction false} FirstIdsExactly(ids: set<int>, n: nat, id: int)
    requires id in ids
    ensures id in FirstIds(ids, n) <==> |set x | x in ids && x < id| < n
    decreases n
  {
    var below := set x | x in ids && x < id;
    if n > 0 {
      var m := Least(ids);
      if id == m {
        assert below == {};
      } else {
        FirstIdsExactly(ids - {m}, n - 1, id);
        assert below == (set x | x in ids - {m} && x < id) + {m};
      }
    }
  }

  lemma {:induction false} ScannedExactly(ids: seq<int>, rows: map<int, Row>, unscanned: set<int>, id: int)
    requires forall i | 0 <= i < |ids| :: ids[i] in rows
    ensures HasId(Scanned(ids, rows, unscanned), id) <==> id in ids && id !in unscanned
  {
    if ids != [] {
      var rest := Scanned(ids[1..], rows, unscanned);
      ScannedExactly(ids[1..], rows, unscanned, id);
      if ids[0] !in unscanned {
        var r := [Snap(ids[0], rows[ids[0]].retryCount)] + rest;
        assert Scanned(ids, rows, unscanned) == r && r[0].id == ids[0];
        assert forall i | 0 < i < |r| :: r[i] == rest[i - 1];
        assert forall i | 0 <= i < |rest| :: rest[i] == r[i + 1];
      }
    }
  }

  /** The answer has exactly the pending rows that wait for no later time, whose scan succeeds, and
      which have fewer than `limit` such rows before them. */
  lemma SelectDueExactly(rows: map<int, Row>, now: int, limit: nat, unscanned: set<int>, id: int)
    requires id in rows
    ensures HasId(SelectDue(rows, now, limit, unscanned), id) <==>
              && rows[id].status == Pending && (rows[id].nextRetryAt == None || rows[id].nextRetryAt.value <= now)
              && id !in unscanned && |WaitingBefore(rows, now, id)| < limit
  {
    var ids := DueIds(rows, now);
    ScannedExactly(FirstIds(ids, limit), rows, unscanned, id);
    if id in ids {
      FirstIdsExactly(ids, limit, id);
      assert (set x | x in ids && x < id) == WaitingBefore(rows, now, id);
    }
  }

  /** The compare-and-swap; it looks at the status only. */
  predicate CanClaim(rows: map<int, Row>, id: int) {
    id in rows && rows[id].status == Pending
  }

  function Claimed(row: Row, w: nat): Row {
    row.(status := Processing, workerId := Some(w))
  }

  /** The row after processOne or markFailed wrote its result. */
  function Finished(row: Row, snap: Snap, ok: bool, now: int): Row {
    var newRetry := snap.retryCount + 1;
    if ok then row.(status := Done)
    else if newRetry > MAX_RETRY then row.(status := Failed, retryCount := newRetry)
    else row.(status := Pending, retryCount := newRetry,
              nextRetryAt := Some(now + Backoff(snap.retryCount)))
  }

  // ---- The protocol ----

  predicate Enabled(s: Sys, step: Step) {
    match step
    case Tick(_) => true
    case Write(id) => id !in s.rows
    case Select(w, limit, _) => w < |s.workers| && s.workers[w] == IDLE && limit > 0
    case Claim(w, _) => w < |s.workers| && s.workers[w].toClaim != []
    case Begin(w) =>
      && w < |s.workers|
      && s.workers[w].toClaim == [] && s.workers[w].claimed != [] && s.workers[w].phase == Waiting
      && s.workers[w].claimed[0].id in s.runs
    case End(w, _) =>
      && w < |s.workers|
      && s.workers[w].claimed != [] && s.workers[w].phase.Handling?
      && s.workers[w].claimed[0].id in s.runs
    case Finish(w, _) =>
      && w < |s.workers|
      && s.workers[w].claimed != [] && s.workers[w].phase.Handled?
      && s.workers[w].claimed[0].id in s.rows
  }

  function Apply(s: Sys, step: Step): Sys
    requires Enabled(s, step)
  {
    match step
    case Tick(d) => s.(now := s.now + d)
    case Write(id) =>
      s.(rows := s.rows[id := Row(Pending, None, 0, None)], runs := s.runs[id := []])
    case Select(w, limit, unscanned) =>
      s.(workers := s.workers[w := IDLE.(toClaim := SelectDue(s.rows, s.now, limit, unscanned))])
    case Claim(w, dbOk) =>
      var l := s.workers[w];
      var snap := l.toClaim[0];
      if dbOk && CanClaim(s.rows, snap.id) then
        s.(rows := s.rows[snap.id := Claimed(s.rows[snap.id], w)],
           workers := s.workers[w := l.(toClaim := l.toClaim[1..], claimed := l.claimed + [snap])])
      else
        s.(workers := s.workers[w := l.(toClaim := l.toClaim[1..])])
    case Begin(w) =>
      s.(workers := s.workers[w := s.workers[w].(phase := Handling(s.now))])
    case End(w, ok) =>
      var l := s.workers[w];
      var id := l.claimed[0].id;
      s.(workers := s.workers[w := l.(phase := Handled(ok))],
         runs := s.runs[id := s.runs[id] + [Run(l.phase.start, s.now, ok)]])
    case Finish(w, dbOk) =>
      var l := s.workers[w];
      var snap := l.claimed[0];
      s.(rows := if dbOk then s.rows[snap.id := Finished(s.rows[snap.id], snap, l.phase.ok, s.now)]
                 else s.rows,
         workers := s.workers[w := l.(claimed := l.claimed[1..], phase := Waiting)])
  }

  /** The state that `steps` lead to; None when one of them is not enabled where it is taken. */
  function After(s: Sys, steps: seq<Step>): Option<Sys>
    decreases |steps|
  {
    if steps == [] then Some(s)
    else
      match After(s, steps[..|steps| - 1])
      case None => None
      case Some(t) =>
        var step := steps[|steps| - 1];
        if Enabled(t, step) then Some(Apply(t, step)) else None
  }

  function Start(n: nat, now: int): Sys {
    Sys(now, map[], seq(n, _ => IDLE), map[])
  }

  // ---- Counting ----

  function Fails(rs: seq<Run>): (n: nat)
    ensures n <= |rs|
    decreases |rs|
  {
    if rs == [] then 0 else Fails(rs[..|rs| - 1]) + if rs[|rs| - 1].ok then 0 else 1
  }

  function Oks(rs: seq<Run>): nat
  {
    |rs| - Fails(rs)
  }

}
