/** The dead letters of metering: written when an insert fails, and retried. */
module DeadLetters {
  import opened Common
  import opened Usage

  /** The record is absent where the payload does not decode. */
  datatype Row = Row(taskId: int, record: Option<Record>, retryCount: nat)

  /** The table; and, for the account, the tries, the writes that failed and the alerts, by row. */
  datatype Queue = Queue(rows: map<int, Row>, nextId: int, tries: seq<int>, lost: seq<int>, alerts: seq<int>)

  const EMPTY := Queue(map[], 1, [], [], [])

  const PAGE := 100

  /** What happens to a row: whether it is processed, and whether the table is then written. */
  datatype Outcome = Outcome(processed: bool, written: bool)

  function Pushed(q: Queue, taskId: int, record: Option<Record>): Queue {
    q.(rows := q.rows[q.nextId := Row(taskId, record, 0)], nextId := q.nextId + 1)
  }

  /** One row of a pass, as it was read. */
  function Handled(q: Queue, id: int, row: Row, o: Outcome, maxRetry: nat): Queue {
    if row.record.None? then q
    else
      var tried := q.(tries := q.tries + [id], lost := if o.written then q.lost else q.lost + [id]);
      if o.processed then
        if o.written then tried.(rows := tried.rows - {id}) else tried
      else
        var count := row.retryCount + 1;
        var told := if count >= maxRetry then tried.(alerts := tried.alerts + [id]) else tried;
        if o.written && id in q.rows then told.(rows := told.rows[id := row.(retryCount := count)]) else told
  }

  predicate Eligible(q: Queue, id: int, maxRetry: nat) {
    id in q.rows && q.rows[id].retryCount < maxRetry
  }

  /** The answer to the query: the first hundred rows still to be retried, by id. */
  ghost predicate Selected(ids: seq<int>, q: Queue, maxRetry: nat) {
    && |ids| <= PAGE
    && (forall i, j | 0 <= i < j < |ids| :: ids[i] < ids[j])
    && (forall i | 0 <= i < |ids| :: Eligible(q, ids[i], maxRetry))
    && (forall id | Eligible(q, id, maxRetry) :: id in ids || (|ids| == PAGE && ids[PAGE - 1] < id))
  }

  /** A pass over the rows read from `before`. */
  function Passed(q: Queue, before: map<int, Row>, ids: seq<int>, os: seq<Outcome>, maxRetry: nat): Queue
    requires |os| == |ids| && forall i | 0 <= i < |ids| :: ids[i] in before
  {
    if ids == [] then q
    else
      var n := |ids| - 1;
      Handled(Passed(q, before, ids[..n], os[..n], maxRetry), ids[n], before[ids[n]], os[n], maxRetry)
  }

  // ---- What a pass must do ----

  /** What becomes of one row of the answer: gone when its record was processed and the DELETE took
      effect, one retry more when processing failed and the UPDATE took effect, else as it was. */
  ghost predicate RowRetried(before: Queue, after: Queue, id: int, o: Outcome)
    requires id in before.rows
  {
    var row := before.rows[id];
    if row.record.Some? && o.processed && o.written then id !in after.rows
    else if row.record.Some? && !o.processed && o.written then
      id in after.rows && after.rows[id] == Row(row.taskId, row.record, row.retryCount + 1)
    else id in after.rows && after.rows[id] == row
  }

  /** The rows whose processing failed at the last retry, in order. */
  function LastFailures(rows: map<int, Row>, ids: seq<int>, os: seq<Outcome>, maxRetry: nat): seq<int>
    requires |os| == |ids| && forall i | 0 <= i < |ids| :: ids[i] in rows
  {
    if ids == [] then []
    else
      var n := |ids| - 1;
      var row := rows[ids[n]];
      LastFailures(rows, ids[..n], os[..n], maxRetry)
      + (if row.record.Some? && !os[n].processed && row.retryCount + 1 >= maxRetry then [ids[n]] else [])
  }

  ghost predicate Retried(before: Queue, after: Queue, ids: seq<int>, os: seq<Outcome>, maxRetry: nat)
    requires |os| == |ids| && forall i | 0 <= i < |ids| :: ids[i] in before.rows
  {
    && (forall i | 0 <= i < |ids| :: RowRetried(before, after, ids[i], os[i]))
    && (forall id | id in before.rows && id !in ids :: id in after.rows && after.rows[id] == before.rows[id])
    && (forall id | id in after.rows :: id in before.rows)
    && after.nextId == before.nextId
    && after.alerts == before.alerts + LastFailures(before.rows, ids, os, maxRetry)
  }

  lemma OneRetried(q: Queue, mid: Queue, id: int, o: Outcome, maxRetry: nat)
    requires id in q.rows && id in mid.rows && mid.rows[id] == q.rows[id]
    ensures var after := Handled(mid, id, q.rows[id], o, maxRetry);
            && RowRetried(q, after, id, o) && after.nextId == mid.nextId
            && (forall x | x != id :: x in after.rows <==> x in mid.rows)
            && (forall x | x != id && x in mid.rows :: after.rows[x] == mid.rows[x])
            && after.alerts == mid.alerts
                 + (if q.rows[id].record.Some? && !o.processed && q.rows[id].retryCount + 1 >= maxRetry then [id] else [])
  {
  }

  lemma NextRetried(q: Queue, mid: Queue, ids: seq<int>, os: seq<Outcome>, maxRetry: nat)
    requires ids != [] && |os| == |ids| && forall i | 0 <= i < |ids| :: ids[i] in q.rows
    requires forall i, j | 0 <= i < j < |ids| :: ids[i] < ids[j]
    requires Retried(q, mid, ids[..|ids| - 1], os[..|ids| - 1], maxRetry)
    ensures var n := |ids| - 1;
            Retried(q, Handled(mid, ids[n], q.rows[ids[n]], os[n], maxRetry), ids, os, maxRetry)
  {
    var n := |ids| - 1;
    var init, id, o := ids[..n], ids[n], os[n];
    var after := Handled(mid, id, q.rows[id], o, maxRetry);
    assert forall i | 0 <= i < n :: init[i] == ids[i] && ids[i] != id;
    assert id !in init;
    OneRetried(q, mid, id, o, maxRetry);
    forall i | 0 <= i < |ids|
      ensures RowRetried(q, after, ids[i], os[i])
    {
      if i < n {
        assert RowRetried(q, mid, init[i], os[..n][i]);
      }
    }
    assert forall x | x in q.rows && x !in ids :: x !in init && x != id;
  }

  /** A pass does to each row what it must, and alerts for exactly those that failed for the last time. */
  lemma {:induction false} PassRetries(q: Queue, ids: seq<int>, os: seq<Outcome>, maxRetry: nat)
    requires |os| == |ids| && forall i | 0 <= i < |ids| :: ids[i] in q.rows
    requires forall i, j | 0 <= i < j < |ids| :: ids[i] < ids[j]
    ensures Retried(q, Passed(q, q.rows, ids, os, maxRetry), ids, os, maxRetry)
  {
    if ids != [] {
      var n := |ids| - 1;
      PassRetries(q, ids[..n], os[..n], maxRetry);
      NextRetried(q, Passed(q, q.rows, ids[..n], os[..n], maxRetry), ids, os, maxRetry);
    }
  }

  class DLQWorker {
    const maxRetry: nat
    var queue: Queue

    constructor (maxRetry: int)
      ensures this.maxRetry == (if maxRetry <= 0 then 3 else maxRetry) && queue == EMPTY
    {
      this.maxRetry := if maxRetry <= 0 then 3 else maxRetry;
      queue := EMPTY;
    }

    method Push(taskId: int, record: Record, inserted: bool)
      modifies this
      ensures queue == if inserted then Pushed(old(queue), taskId, Some(record)) else old(queue)
      ensures inserted ==>
                var id := old(queue).nextId;
                && queue.rows == old(queue).rows[id := Row(taskId, Some(record), 0)] && queue.nextId == id + 1
                && queue.alerts == old(queue).alerts
    {
      if inserted {
        queue := Pushed(queue, taskId, Some(record));
      }
    }

    /** `answer` is the query's, None when it fails. */
    method Retry(answer: Option<seq<int>>, os: seq<Outcome>) returns (failed: bool)
      requires answer.Some? ==> Selected(answer.value, queue, maxRetry) && |os| == |answer.value|
      modifies this
      ensures failed == answer.None?
      ensures queue == if answer.None? then old(queue) else Passed(old(queue), old(queue).rows, answer.value, os, maxRetry)
      ensures answer.Some? ==> Retried(old(queue), queue, answer.value, os, maxRetry)
    {
      if answer.None? {
        return true;
      }
      RetryRows(answer.value, os);
      PassRetries(old(queue), answer.value, os, maxRetry);
      return false;
    }

    method RetryRows(ids: seq<int>, os: seq<Outcome>)
      requires Selected(ids, queue, maxRetry) && |os| == |ids|
      modifies this
      ensures queue == Passed(old(queue), old(queue).rows, ids, os, maxRetry)
    {
      var rows := queue.rows;
      for i := 0 to |ids|
        invariant forall j | 0 <= j < |ids| :: ids[j] in rows
        invariant queue == Passed(old(queue), rows, ids[..i], os[..i], maxRetry)
      {
        assert ids[..i + 1][..i] == ids[..i] && os[..i + 1][..i] == os[..i];
        assert Passed(old(queue), rows, ids[..i + 1], os[..i + 1], maxRetry)
            == Handled(queue, ids[i], rows[ids[i]], os[i], maxRetry);
        var id, row, o := ids[i], rows[ids[i]], os[i];
        if row.record.None? {
          continue;
        }
        queue := queue.(tries := queue.tries + [id], lost := if o.written then queue.lost else queue.lost + [id]);
        if !o.processed {
          var count := row.retryCount + 1;
          if o.written && id in queue.rows {
            queue := queue.(rows := queue.rows[id := row.(retryCount := count)]);
          }
          if count >= maxRetry {
            queue := queue.(alerts := queue.alerts + [id]);
          }
          continue;
        }
        if o.written {
          queue := queue.(rows := queue.rows - {id});
        }
      }
      assert ids[..|ids|] == ids && os[..|os|] == os;
    }
  }

  // ---- Runs ----

  datatype Op = PushOp(taskId: int, record: Option<Record>) | RetryOp(ids: seq<int>, outcomes: seq<Outcome>)

  ghost predicate Enabled(q: Queue, op: Op, maxRetry: nat) {
    op.RetryOp? ==> |op.outcomes| == |op.ids| && Selected(op.ids, q, maxRetry)
  }

  function After(q: Queue, op: Op, maxRetry: nat): Queue
    requires op.RetryOp? ==> |op.outcomes| == |op.ids| && forall i | 0 <= i < |op.ids| :: op.ids[i] in q.rows
  {
    match op
    case PushOp(taskId, record) => Pushed(q, taskId, record)
    case RetryOp(ids, os) => Passed(q, q.rows, ids, os, maxRetry)
  }

  /** The queue after each operation of a run. */
  ghost predicate IsRun(qs: seq<Queue>, ops: seq<Op>, maxRetry: nat) {
    && |qs| == |ops| + 1 && qs[0] == EMPTY
    && forall i | 0 <= i < |ops| :: Enabled(qs[i], ops[i], maxRetry) && qs[i + 1] == After(qs[i], ops[i], maxRetry)
  }

  function Times(ids: seq<int>, id: int): nat {
    multiset(ids)[id]
  }

  /** Tries are paid for by the retry count, a failed write or a deletion; the alert is raised by the
      try that brings the count to its limit, again only where that write fails. */
  ghost predicate Paid(q: Queue, id: int, maxRetry: nat) {
    if id in q.rows then
      var count := q.rows[id].retryCount;
      && count <= maxRetry
      && Times(q.tries, id) == count + Times(q.lost, id)
      && (Times(q.lost, id) == 0 ==> Times(q.alerts, id) == if count == maxRetry then 1 else 0)
      && (count == maxRetry ==> Times(q.alerts, id) >= 1)
    else
      && Times(q.tries, id) <= maxRetry + Times(q.lost, id)
      && (Times(q.lost, id) == 0 ==> Times(q.alerts, id) == 0)
  }

  ghost predicate AllPaid(q: Queue, maxRetry: nat) {
    && (forall id :: Paid(q, id, maxRetry))
    && (forall id | id in q.rows || id in q.tries || id in q.lost || id in q.alerts :: id < q.nextId)
  }

  lemma HandledPays(q: Queue, id: int, row: Row, o: Outcome, maxRetry: nat, j: int)
    requires Paid(q, id, maxRetry) && Paid(q, j, maxRetry)
    requires id in q.rows && q.rows[id] == row && row.retryCount < maxRetry
    ensures Paid(Handled(q, id, row, o, maxRetry), j, maxRetry)
  {
    TimesAppend(q.tries, id, j);
    TimesAppend(q.lost, id, j);
    TimesAppend(q.alerts, id, j);
  }

  lemma TimesAppend(ids: seq<int>, id: int, j: int)
    ensures Times(ids + [id], j) == Times(ids, j) + if id == j then 1 else 0
  {
  }

  lemma HandledKeepsPaid(q: Queue, id: int, row: Row, o: Outcome, maxRetry: nat)
    requires AllPaid(q, maxRetry) && id in q.rows && q.rows[id] == row && row.retryCount < maxRetry
    ensures AllPaid(Handled(q, id, row, o, maxRetry), maxRetry)
    ensures forall j | j != id && j in q.rows ::
              j in Handled(q, id, row, o, maxRetry).rows && Handled(q, id, row, o, maxRetry).rows[j] == q.rows[j]
  {
    var r := Handled(q, id, row, o, maxRetry);
    forall j
      ensures Paid(r, j, maxRetry)
    {
      assert Paid(q, j, maxRetry) && Paid(q, id, maxRetry);
      HandledPays(q, id, row, o, maxRetry, j);
    }
  }

  lemma {:induction false} PassKeepsPaid(q: Queue, ids: seq<int>, os: seq<Outcome>, n: nat, maxRetry: nat)
    requires AllPaid(q, maxRetry) && Selected(ids, q, maxRetry) && |os| == |ids| && n <= |ids|
    ensures AllPaid(Passed(q, q.rows, ids[..n], os[..n], maxRetry), maxRetry)
    ensures forall j | n <= j < |ids| ::
              var r := Passed(q, q.rows, ids[..n], os[..n], maxRetry);
              ids[j] in r.rows && r.rows[ids[j]] == q.rows[ids[j]]
  {
    if n > 0 {
      PassKeepsPaid(q, ids, os, n - 1, maxRetry);
      assert ids[..n][..n - 1] == ids[..n - 1] && os[..n][..n - 1] == os[..n - 1];
      assert Eligible(q, ids[n - 1], maxRetry);
      HandledKeepsPaid(Passed(q, q.rows, ids[..n - 1], os[..n - 1], maxRetry), ids[n - 1], q.rows[ids[n - 1]], os[n - 1], maxRetry);
    }
  }

  lemma StepKeepsPaid(q: Queue, op: Op, maxRetry: nat)
    requires AllPaid(q, maxRetry) && Enabled(q, op, maxRetry) && maxRetry >= 1
    ensures AllPaid(After(q, op, maxRetry), maxRetry)
  {
    match op
    case PushOp(taskId, record) =>
      var r := Pushed(q, taskId, record);
      forall j
        ensures Paid(r, j, maxRetry)
      {
        assert Paid(q, j, maxRetry);
      }
    case RetryOp(ids, os) =>
      PassKeepsPaid(q, ids, os, |ids|, maxRetry);
      assert ids[..|ids|] == ids && os[..|os|] == os;
  }

  lemma {:induction false} RunKeepsPaid(qs: seq<Queue>, ops: seq<Op>, maxRetry: nat)
    requires IsRun(qs, ops, maxRetry) && maxRetry >= 1
    ensures forall i | 0 <= i < |qs| :: AllPaid(qs[i], maxRetry)
  {
    var i := 0;
    while i < |ops|
      invariant 0 <= i <= |ops|
      invariant forall j | 0 <= j <= i :: AllPaid(qs[j], maxRetry)
    {
      StepKeepsPaid(qs[i], ops[i], maxRetry);
      i := i + 1;
    }
  }

  /** In any run a row is tried at most maxRetry times and once more for each write that fails. Where
      none fails, it alerts once when its count has reached the limit, and otherwise never. */
  lemma RetriesAreBounded(qs: seq<Queue>, ops: seq<Op>, id: int, maxRetry: nat)
    requires IsRun(qs, ops, maxRetry) && maxRetry >= 1
    ensures var q := qs[|qs| - 1];
            && Times(q.tries, id) <= maxRetry + Times(q.lost, id)
            && (Times(q.lost, id) == 0 ==>
                  Times(q.alerts, id) == if id in q.rows && q.rows[id].retryCount == maxRetry then 1 else 0)
  {
    RunKeepsPaid(qs, ops, maxRetry);
    assert Paid(qs[|qs| - 1], id, maxRetry);
  }
}
