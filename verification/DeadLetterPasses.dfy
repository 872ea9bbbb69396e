/** Retry passes over the dead letters that overlap: each processes the rows it read, with the counts it
    read, while others do the same. */
module DeadLetterPasses {
  import opened Common
  import opened Usage
  import opened DeadLetters
  import opened StaleCounts

  /** A row as a pass read it. */
  datatype Copy = Copy(id: int, row: Row)

  /** The rows a pass has still to go through; the first one's outcome while it is not written. */
  datatype Pass = Pass(left: seq<Copy>, tried: Option<bool>)

  const IDLE := Pass([], None)

  datatype Sys = Sys(queue: Queue, passes: seq<Pass>)

  datatype Step =
    | Push(taskId: int, record: Option<Record>)
    | Query(p: nat, ids: seq<int>)
    | Skip(p: nat)
    | Try(p: nat, processed: bool)
    | Store(p: nat, written: bool)

  predicate Busy(s: Sys, p: nat) {
    p < |s.passes| && s.passes[p].left != []
  }

  ghost predicate Possible(s: Sys, step: Step, maxRetry: nat) {
    match step
    case Push(_, _) => true
    case Query(p, ids) => p < |s.passes| && s.passes[p] == IDLE && Selected(ids, s.queue, maxRetry)
    case Skip(p) => Busy(s, p) && s.passes[p].tried.None? && s.passes[p].left[0].row.record.None?
    case Try(p, _) => Busy(s, p) && s.passes[p].tried.None? && s.passes[p].left[0].row.record.Some?
    case Store(p, _) => Busy(s, p) && s.passes[p].tried.Some?
  }

  function Copied(ids: seq<int>, rows: map<int, Row>): (left: seq<Copy>)
    requires forall i | 0 <= i < |ids| :: ids[i] in rows
    ensures |left| == |ids| && forall i | 0 <= i < |ids| :: left[i] == Copy(ids[i], rows[ids[i]])
  {
    seq(|ids|, i requires 0 <= i < |ids| => Copy(ids[i], rows[ids[i]]))
  }

  /** DELETE after a success, UPDATE with the copy's count plus one after a failure; the alert does not
      depend on the write. */
  function Written(q: Queue, c: Copy, processed: bool, written: bool, maxRetry: nat): Queue {
    var count := c.row.retryCount + 1;
    var rows :=
      if !written then q.rows
      else if processed then q.rows - {c.id}
      else if c.id in q.rows then q.rows[c.id := q.rows[c.id].(retryCount := count)]
      else q.rows;
    q.(rows := rows,
       lost := if written then q.lost else q.lost + [c.id],
       alerts := if !processed && count >= maxRetry then q.alerts + [c.id] else q.alerts)
  }

  ghost function Apply(s: Sys, step: Step, maxRetry: nat): Sys
    requires Possible(s, step, maxRetry)
  {
    match step
    case Push(taskId, record) => s.(queue := Pushed(s.queue, taskId, record))
    case Query(p, ids) => s.(passes := s.passes[p := Pass(Copied(ids, s.queue.rows), None)])
    case Skip(p) => s.(passes := s.passes[p := Pass(s.passes[p].left[1..], None)])
    case Try(p, processed) =>
      var pass := s.passes[p];
      Sys(s.queue.(tries := s.queue.tries + [pass.left[0].id]),
          s.passes[p := pass.(tried := Some(processed))])
    case Store(p, written) =>
      var pass := s.passes[p];
      Sys(Written(s.queue, pass.left[0], pass.tried.value, written, maxRetry), s.passes[p := Pass(pass.left[1..], None)])
  }

  function Start(n: nat): Sys {
    Sys(EMPTY, seq(n, _ => IDLE))
  }

  ghost function Ran(s: Sys, steps: seq<Step>, maxRetry: nat): Option<Sys>
    decreases |steps|
  {
    if steps == [] then Some(s)
    else
      match Ran(s, steps[..|steps| - 1], maxRetry)
      case None => None
      case Some(t) =>
        var step := steps[|steps| - 1];
        if Possible(t, step, maxRetry) then Some(Apply(t, step, maxRetry)) else None
  }

  /** With n passes at a time. */
  ghost predicate Reachable(n: nat, s: Sys, maxRetry: nat) {
    exists steps :: Ran(Start(n), steps, maxRetry) == Some(s)
  }

  lemma {:induction false} ReachableStep(n: nat, s: Sys, step: Step, maxRetry: nat)
    requires Reachable(n, s, maxRetry) && Possible(s, step, maxRetry)
    ensures Reachable(n, Apply(s, step, maxRetry), maxRetry)
  {
    var steps :| Ran(Start(n), steps, maxRetry) == Some(s);
    assert (steps + [step])[..|steps|] == steps;
    assert Ran(Start(n), steps + [step], maxRetry) == Some(Apply(s, step, maxRetry));
  }

  // ---- Copies of one row ----

  function Held(left: seq<Copy>, id: int): Option<Row> {
    if left == [] then None else if left[0].id == id then Some(left[0].row) else Held(left[1..], id)
  }

  /** The count pass p would act on; none counts as the limit. */
  function Count(s: Sys, p: nat, id: int, maxRetry: nat): int
    requires p < |s.passes|
  {
    match Held(s.passes[p].left, id)
    case None => maxRetry
    case Some(row) => row.retryCount
  }

  function Counts(s: Sys, id: int, maxRetry: nat): (vs: seq<int>)
    ensures |vs| == |s.passes| && forall p | 0 <= p < |s.passes| :: vs[p] == Count(s, p, id, maxRetry)
  {
    seq(|s.passes|, p requires 0 <= p < |s.passes| => Count(s, p, id, maxRetry))
  }

  predicate Outstanding(pass: Pass, id: int) {
    pass.left != [] && pass.left[0].id == id && pass.tried.Some?
  }

  /** How many passes have tried the row and not written the outcome. */
  function Outstandings(passes: seq<Pass>, id: int): nat {
    if passes == [] then 0
    else Outstandings(passes[..|passes| - 1], id) + if Outstanding(passes[|passes| - 1], id) then 1 else 0
  }

  lemma {:induction false} OutstandingsUpdate(passes: seq<Pass>, p: nat, pass: Pass, id: int)
    requires p < |passes|
    ensures Outstandings(passes[p := pass], id) + (if Outstanding(passes[p], id) then 1 else 0)
         == Outstandings(passes, id) + if Outstanding(pass, id) then 1 else 0
    decreases |passes|
  {
    var m := |passes| - 1;
    if p == m {
      assert passes[p := pass][..m] == passes[..m];
    } else {
      assert passes[p := pass][..m] == passes[..m][p := pass];
      OutstandingsUpdate(passes[..m], p, pass, id);
    }
  }

  ghost predicate PassOk(s: Sys, p: nat, maxRetry: nat)
    requires p < |s.passes|
  {
    var pass := s.passes[p];
    && (forall i, j | 0 <= i < j < |pass.left| :: pass.left[i].id < pass.left[j].id)
    && (forall i | 0 <= i < |pass.left| :: pass.left[i].row.retryCount < maxRetry && pass.left[i].id < s.queue.nextId)
    && (pass.left == [] ==> pass.tried.None?)
  }

  ghost predicate AllOk(s: Sys, maxRetry: nat) {
    && (forall p | 0 <= p < |s.passes| :: PassOk(s, p, maxRetry))
    && (forall id | id in s.queue.rows :: id < s.queue.nextId)
    && (forall id | id in s.queue.tries :: id < s.queue.nextId)
  }

  lemma {:induction false} HeldNone(left: seq<Copy>, id: int)
    requires forall i | 0 <= i < |left| :: left[i].id != id
    ensures Held(left, id) == None
  {
    if left != [] {
      HeldNone(left[1..], id);
    }
  }

  lemma {:induction false} HeldWhere(left: seq<Copy>, id: int) returns (i: nat)
    requires Held(left, id).Some?
    ensures i < |left| && left[i] == Copy(id, Held(left, id).value)
  {
    if left[0].id == id {
      i := 0;
    } else {
      i := HeldWhere(left[1..], id);
      i := i + 1;
    }
  }

  lemma {:induction false} StepKeepsOk(s: Sys, step: Step, maxRetry: nat)
    requires AllOk(s, maxRetry) && Possible(s, step, maxRetry)
    ensures AllOk(Apply(s, step, maxRetry), maxRetry)
  {
    var t := Apply(s, step, maxRetry);
    forall p | 0 <= p < |t.passes|
      ensures PassOk(t, p, maxRetry)
    {
      assert PassOk(s, p, maxRetry);
      if step.Query? && p == step.p {
        assert forall i | 0 <= i < |step.ids| :: Eligible(s.queue, step.ids[i], maxRetry);
      }
    }
    if step.Try? {
      assert PassOk(s, step.p, maxRetry);
    }
  }

  /** Letting go of its first row, a pass holds no copy of it, and of the others as before. */
  lemma {:induction false} LetGo(s: Sys, p: nat, id: int, maxRetry: nat)
    requires Busy(s, p) && PassOk(s, p, maxRetry)
    ensures var left := s.passes[p].left;
            Held(left[1..], id) == if id == left[0].id then None else Held(left, id)
  {
    var left := s.passes[p].left;
    if id == left[0].id {
      assert forall i | 0 <= i < |left[1..]| :: left[1..][i] == left[i + 1];
      HeldNone(left[1..], id);
    }
  }

  // ---- The bound ----

  function Most(n: nat, maxRetry: nat): nat {
    Ways(n + 1, maxRetry)
  }

  /** What can have been tried: what is used up while the row is there, and for a row that is gone all
      but what the copies may still cause. */
  function Budget(s: Sys, id: int, maxRetry: nat): int
    requires id in s.queue.rows ==> s.queue.rows[id].retryCount <= maxRetry
  {
    if id in s.queue.rows then Used(Counts(s, id, maxRetry), s.queue.rows[id].retryCount, maxRetry)
    else Most(|s.passes|, maxRetry) - 1 - Copies(Counts(s, id, maxRetry), maxRetry)
  }

  ghost predicate Paid(s: Sys, id: int, maxRetry: nat) {
    && (id in s.queue.rows ==> s.queue.rows[id].retryCount <= maxRetry)
    && Times(s.queue.tries, id) <= Budget(s, id, maxRetry) + Times(s.queue.lost, id) + Outstandings(s.passes, id)
  }

  lemma {:induction false} CountBelow(s: Sys, p: nat, id: int, maxRetry: nat)
    requires p < |s.passes| && PassOk(s, p, maxRetry)
    ensures 0 <= Count(s, p, id, maxRetry) <= maxRetry
    ensures Count(s, p, id, maxRetry) < maxRetry <==> Held(s.passes[p].left, id).Some?
  {
    if Held(s.passes[p].left, id).Some? {
      var i := HeldWhere(s.passes[p].left, id);
    }
  }

  lemma {:induction false} CountsBelow(s: Sys, id: int, maxRetry: nat)
    requires AllOk(s, maxRetry)
    ensures forall p | 0 <= p < |s.passes| :: 0 <= Counts(s, id, maxRetry)[p] <= maxRetry
  {
    forall p | 0 <= p < |s.passes|
      ensures 0 <= Counts(s, id, maxRetry)[p] <= maxRetry
    {
      CountBelow(s, p, id, maxRetry);
    }
  }

  /** One copy less. */
  lemma {:induction false} CopyDropped(vs: seq<int>, p: nat, maxRetry: nat)
    requires p < |vs| && 0 <= vs[p] < maxRetry
    ensures Copies(vs[p := maxRetry], maxRetry) == Copies(vs, maxRetry) - 1
  {
    OneMoreAbove(vs, p, maxRetry, maxRetry - 1);
  }

  /** A pass moves, another row's account is as it was. */
  lemma {:induction false} OtherRowPaid(s: Sys, t: Sys, p: nat, id: int, maxRetry: nat)
    requires Paid(s, id, maxRetry) && p < |s.passes| == |t.passes|
    requires t.passes == s.passes[p := t.passes[p]] && Held(t.passes[p].left, id) == Held(s.passes[p].left, id)
    requires Outstanding(t.passes[p], id) == Outstanding(s.passes[p], id)
    requires id in t.queue.rows <==> id in s.queue.rows
    requires id in s.queue.rows ==> t.queue.rows[id].retryCount == s.queue.rows[id].retryCount
    requires Times(t.queue.tries, id) == Times(s.queue.tries, id) && Times(t.queue.lost, id) == Times(s.queue.lost, id)
    ensures Paid(t, id, maxRetry)
  {
    OutstandingsUpdate(s.passes, p, t.passes[p], id);
    assert Counts(t, id, maxRetry) == Counts(s, id, maxRetry);
  }

  lemma {:induction false} QueryPays(s: Sys, step: Step, id: int, maxRetry: nat)
    requires AllOk(s, maxRetry) && Paid(s, id, maxRetry) && step.Query? && Possible(s, step, maxRetry)
    ensures Paid(Apply(s, step, maxRetry), id, maxRetry)
  {
    var t := Apply(s, step, maxRetry);
    var p, left := step.p, t.passes[step.p].left;
    OutstandingsUpdate(s.passes, p, t.passes[p], id);
    assert Held(s.passes[p].left, id).None?;
    if Held(left, id).Some? {
      var i := HeldWhere(left, id);
      assert Eligible(s.queue, step.ids[i], maxRetry);
      assert Count(t, p, id, maxRetry) == s.queue.rows[id].retryCount;
      UsedGrows(Counts(s, id, maxRetry), Counts(t, id, maxRetry), s.queue.rows[id].retryCount, maxRetry);
    } else {
      assert Counts(t, id, maxRetry) == Counts(s, id, maxRetry);
    }
  }

  lemma {:induction false} TryPays(s: Sys, step: Step, id: int, maxRetry: nat)
    requires AllOk(s, maxRetry) && Paid(s, id, maxRetry) && step.Try? && Possible(s, step, maxRetry)
    ensures Paid(Apply(s, step, maxRetry), id, maxRetry)
  {
    var t := Apply(s, step, maxRetry);
    OutstandingsUpdate(s.passes, step.p, t.passes[step.p], id);
    TimesAppend(s.queue.tries, s.passes[step.p].left[0].id, id);
    assert Counts(t, id, maxRetry) == Counts(s, id, maxRetry);
  }

  lemma {:induction false} SkipPays(s: Sys, step: Step, id: int, maxRetry: nat)
    requires AllOk(s, maxRetry) && Paid(s, id, maxRetry) && step.Skip? && Possible(s, step, maxRetry)
    ensures Paid(Apply(s, step, maxRetry), id, maxRetry)
  {
    var t := Apply(s, step, maxRetry);
    var p, first := step.p, s.passes[step.p].left[0];
    assert PassOk(s, p, maxRetry);
    LetGo(s, p, id, maxRetry);
    if id != first.id {
      OtherRowPaid(s, t, p, id, maxRetry);
    } else {
      OutstandingsUpdate(s.passes, p, t.passes[p], id);
      DroppedPays(s, t, p, id, maxRetry);
    }
  }

  /** The copy of p is gone, and with it nothing is used up. */
  lemma {:induction false} DroppedPays(s: Sys, t: Sys, p: nat, id: int, maxRetry: nat)
    requires AllOk(s, maxRetry) && p < |s.passes| && |t.passes| == |s.passes|
    requires t.passes == s.passes[p := t.passes[p]] && Held(t.passes[p].left, id).None? && Held(s.passes[p].left, id).Some?
    requires t.queue.rows == s.queue.rows && (id in s.queue.rows ==> s.queue.rows[id].retryCount <= maxRetry)
    ensures Budget(t, id, maxRetry) >= Budget(s, id, maxRetry)
    ensures Counts(t, id, maxRetry) == Counts(s, id, maxRetry)[p := maxRetry]
  {
    CountBelow(s, p, id, maxRetry);
    var vs := Counts(s, id, maxRetry);
    assert Counts(t, id, maxRetry) == vs[p := maxRetry];
    if id in s.queue.rows {
      UsedGrows(vs, vs[p := maxRetry], s.queue.rows[id].retryCount, maxRetry);
    } else {
      CopyDropped(vs, p, maxRetry);
    }
  }

  /** Writing the outcome lets the budget grow by one, or counts as lost. */
  lemma {:induction false} StoredBudget(s: Sys, step: Step, maxRetry: nat)
    requires AllOk(s, maxRetry) && step.Store? && Possible(s, step, maxRetry)
    requires var id := s.passes[step.p].left[0].id; id in s.queue.rows ==> s.queue.rows[id].retryCount <= maxRetry
    ensures var id, t := s.passes[step.p].left[0].id, Apply(s, step, maxRetry);
            && (id in t.queue.rows ==> t.queue.rows[id].retryCount <= maxRetry)
            && Budget(t, id, maxRetry) >= Budget(s, id, maxRetry) + if step.written then 1 else 0
  {
    var t := Apply(s, step, maxRetry);
    var p, first := step.p, s.passes[step.p].left[0];
    var id := first.id;
    assert PassOk(s, p, maxRetry);
    LetGo(s, p, id, maxRetry);
    CountBelow(s, p, id, maxRetry);
    var vs := Counts(s, id, maxRetry);
    assert Counts(t, id, maxRetry) == vs[p := maxRetry] && vs[p] == first.row.retryCount;
    if id !in s.queue.rows {
      CopyDropped(vs, p, maxRetry);
    } else if !step.written {
      UsedGrows(vs, vs[p := maxRetry], s.queue.rows[id].retryCount, maxRetry);
    } else if s.passes[p].tried.value {
      CountsBelow(s, id, maxRetry);
      CopiesFit(vs, s.queue.rows[id].retryCount, maxRetry);
      CopyDropped(vs, p, maxRetry);
    } else {
      ActingUses(vs, p, maxRetry, s.queue.rows[id].retryCount, maxRetry);
    }
  }

  lemma {:induction false} StorePays(s: Sys, step: Step, id: int, maxRetry: nat)
    requires AllOk(s, maxRetry) && Paid(s, id, maxRetry) && step.Store? && Possible(s, step, maxRetry)
    ensures Paid(Apply(s, step, maxRetry), id, maxRetry)
  {
    var t := Apply(s, step, maxRetry);
    var p, first := step.p, s.passes[step.p].left[0];
    assert PassOk(s, p, maxRetry);
    LetGo(s, p, id, maxRetry);
    TimesAppend(s.queue.lost, first.id, id);
    OutstandingsUpdate(s.passes, p, t.passes[p], id);
    if id == first.id {
      StoredBudget(s, step, maxRetry);
    } else {
      OtherRowPaid(s, t, p, id, maxRetry);
    }
  }

  lemma {:induction false} NoCopies(s: Sys, id: int, maxRetry: nat)
    requires AllOk(s, maxRetry) && id >= s.queue.nextId
    ensures forall p | 0 <= p < |s.passes| :: Held(s.passes[p].left, id).None?
    ensures Outstandings(s.passes, id) == 0
  {
    forall p | 0 <= p < |s.passes|
      ensures Held(s.passes[p].left, id).None? && !Outstanding(s.passes[p], id)
    {
      assert PassOk(s, p, maxRetry);
      HeldNone(s.passes[p].left, id);
    }
    NobodyOutstanding(s.passes, id);
  }

  lemma {:induction false} NobodyOutstanding(passes: seq<Pass>, id: int)
    requires forall p | 0 <= p < |passes| :: !Outstanding(passes[p], id)
    ensures Outstandings(passes, id) == 0
  {
    if passes != [] {
      NobodyOutstanding(passes[..|passes| - 1], id);
    }
  }

  lemma {:induction false} PushPays(s: Sys, step: Step, id: int, maxRetry: nat)
    requires AllOk(s, maxRetry) && Paid(s, id, maxRetry) && step.Push?
    ensures Paid(Apply(s, step, maxRetry), id, maxRetry)
  {
    var t := Apply(s, step, maxRetry);
    assert Counts(t, id, maxRetry) == Counts(s, id, maxRetry);
    if id == s.queue.nextId {
      assert id !in s.queue.tries;
    }
  }

  lemma {:induction false} StepPays(s: Sys, step: Step, id: int, maxRetry: nat)
    requires AllOk(s, maxRetry) && Paid(s, id, maxRetry) && Possible(s, step, maxRetry)
    ensures Paid(Apply(s, step, maxRetry), id, maxRetry)
  {
    match step
    case Push(_, _) => PushPays(s, step, id, maxRetry);
    case Query(_, _) => QueryPays(s, step, id, maxRetry);
    case Skip(_) => SkipPays(s, step, id, maxRetry);
    case Try(_, _) => TryPays(s, step, id, maxRetry);
    case Store(_, _) => StorePays(s, step, id, maxRetry);
  }

  lemma {:induction false} StartPays(n: nat, id: int, maxRetry: nat)
    ensures AllOk(Start(n), maxRetry) && Paid(Start(n), id, maxRetry)
  {
    var s := Start(n);
    CountsBelow(s, id, maxRetry);
    AllAbove(Counts(s, id, maxRetry), maxRetry - 1);
    SomeWay(n + 1, maxRetry);
  }

  lemma {:induction false} RunPays(n: nat, steps: seq<Step>, id: int, maxRetry: nat)
    requires Ran(Start(n), steps, maxRetry).Some?
    ensures var s := Ran(Start(n), steps, maxRetry).value;
            |s.passes| == n && AllOk(s, maxRetry) && Paid(s, id, maxRetry)
    decreases |steps|
  {
    if steps == [] {
      StartPays(n, id, maxRetry);
    } else {
      var m := |steps| - 1;
      RunPays(n, steps[..m], id, maxRetry);
      var s := Ran(Start(n), steps[..m], maxRetry).value;
      StepKeepsOk(s, steps[m], maxRetry);
      StepPays(s, steps[m], id, maxRetry);
    }
  }

  /** Whoever has an outcome to write holds a copy. */
  lemma {:induction false} OutstandingsAreCopies(passes: seq<Pass>, vs: seq<int>, id: int, maxRetry: nat)
    requires |vs| == |passes| && forall p | 0 <= p < |passes| :: Outstanding(passes[p], id) ==> vs[p] < maxRetry
    ensures Outstandings(passes, id) <= Copies(vs, maxRetry)
    decreases |passes|
  {
    if passes != [] {
      var m := |passes| - 1;
      OutstandingsAreCopies(passes[..m], vs[..m], id, maxRetry);
    }
  }

  /** With n passes at a time a dead letter is tried fewer times than the binomial coefficient of
      n + maxRetry over n, and once more for each write that fails. */
  lemma {:induction false} TriesAreBounded(n: nat, s: Sys, id: int, maxRetry: nat)
    requires Reachable(n, s, maxRetry)
    ensures Times(s.queue.tries, id) + 1 <= Most(n, maxRetry) + Times(s.queue.lost, id)
    ensures Factorial(maxRetry) * Factorial(n) * Most(n, maxRetry) == Factorial(n + maxRetry)
  {
    var steps :| Ran(Start(n), steps, maxRetry) == Some(s);
    RunPays(n, steps, id, maxRetry);
    var vs := Counts(s, id, maxRetry);
    CountsBelow(s, id, maxRetry);
    forall p | 0 <= p < |s.passes| && Outstanding(s.passes[p], id)
      ensures vs[p] < maxRetry
    {
      assert PassOk(s, p, maxRetry);
      CountBelow(s, p, id, maxRetry);
    }
    OutstandingsAreCopies(s.passes, vs, id, maxRetry);
    if id in s.queue.rows {
      CopiesFit(vs, s.queue.rows[id].retryCount, maxRetry);
    }
    WaysIsBinomial(n, maxRetry);
  }

  // ---- A pass on its own ----

  function OneRow(p: nat, row: Row, o: Outcome): seq<Step> {
    if row.record.None? then [Skip(p)] else [Try(p, o.processed), Store(p, o.written)]
  }

  /** The steps of a pass over the first rows of the answer. */
  function PassSteps(p: nat, rows: map<int, Row>, ids: seq<int>, os: seq<Outcome>, n: nat): seq<Step>
    requires n <= |ids| == |os| && forall i | 0 <= i < |ids| :: ids[i] in rows
  {
    if n == 0 then [Query(p, ids)]
    else PassSteps(p, rows, ids, os, n - 1) + OneRow(p, rows[ids[n - 1]], os[n - 1])
  }

  lemma {:induction false} RanMore(s: Sys, steps: seq<Step>, step: Step, maxRetry: nat)
    requires Ran(s, steps, maxRetry).Some? && Possible(Ran(s, steps, maxRetry).value, step, maxRetry)
    ensures Ran(s, steps + [step], maxRetry) == Some(Apply(Ran(s, steps, maxRetry).value, step, maxRetry))
  {
    assert (steps + [step])[..|steps|] == steps;
  }

  /** The rows not yet reached are as they were. */
  lemma {:induction false} NotYetReached(q: Queue, ids: seq<int>, os: seq<Outcome>, n: nat, maxRetry: nat, j: nat)
    requires n <= j < |ids| == |os| && Selected(ids, q, maxRetry)
    ensures var r := Passed(q, q.rows, ids[..n], os[..n], maxRetry);
            ids[j] in r.rows && r.rows[ids[j]] == q.rows[ids[j]]
  {
    assert forall i | 0 <= i < |ids| :: Eligible(q, ids[i], maxRetry);
    PassRetries(q, ids[..n], os[..n], maxRetry);
    assert forall i | 0 <= i < n :: ids[..n][i] < ids[j];
  }

  lemma {:induction false} WrittenIsHandled(q: Queue, c: Copy, o: Outcome, maxRetry: nat)
    requires c.row.record.Some? && c.id in q.rows && q.rows[c.id] == c.row
    ensures Written(q.(tries := q.tries + [c.id]), c, o.processed, o.written, maxRetry)
         == Handled(q, c.id, c.row, o, maxRetry)
  {
  }

  lemma {:induction false} TryApplied(t: Sys, p: nat, c: Copy, rest: seq<Copy>, processed: bool, maxRetry: nat)
    requires p < |t.passes| && t.passes[p] == Pass([c] + rest, None) && c.row.record.Some?
    ensures Possible(t, Try(p, processed), maxRetry)
    ensures Apply(t, Try(p, processed), maxRetry)
         == Sys(t.queue.(tries := t.queue.tries + [c.id]), t.passes[p := Pass([c] + rest, Some(processed))])
  {
  }

  lemma {:induction false} StoreApplied(t: Sys, p: nat, c: Copy, rest: seq<Copy>, processed: bool, written: bool, maxRetry: nat)
    requires p < |t.passes| && t.passes[p] == Pass([c] + rest, Some(processed))
    ensures Possible(t, Store(p, written), maxRetry)
    ensures Apply(t, Store(p, written), maxRetry)
         == Sys(Written(t.queue, c, processed, written, maxRetry), t.passes[p := Pass(rest, None)])
  {
    assert ([c] + rest)[1..] == rest;
  }

  lemma {:induction false} SkipApplied(t: Sys, p: nat, c: Copy, rest: seq<Copy>, maxRetry: nat)
    requires p < |t.passes| && t.passes[p] == Pass([c] + rest, None) && c.row.record.None?
    ensures Possible(t, Skip(p), maxRetry)
    ensures Apply(t, Skip(p), maxRetry) == Sys(t.queue, t.passes[p := Pass(rest, None)])
  {
    assert ([c] + rest)[1..] == rest;
  }

  lemma {:induction false} OneRowRuns(s: Sys, steps: seq<Step>, p: nat, c: Copy, rest: seq<Copy>, o: Outcome, maxRetry: nat)
    requires Ran(s, steps, maxRetry).Some?
    requires var t := Ran(s, steps, maxRetry).value;
             && p < |t.passes| && t.passes[p] == Pass([c] + rest, None)
             && c.id in t.queue.rows && t.queue.rows[c.id] == c.row
    ensures var t := Ran(s, steps, maxRetry).value;
            Ran(s, steps + OneRow(p, c.row, o), maxRetry)
            == Some(Sys(Handled(t.queue, c.id, c.row, o, maxRetry), t.passes[p := Pass(rest, None)]))
  {
    var t := Ran(s, steps, maxRetry).value;
    if c.row.record.None? {
      SkipApplied(t, p, c, rest, maxRetry);
      RanMore(s, steps, Skip(p), maxRetry);
    } else {
      TryApplied(t, p, c, rest, o.processed, maxRetry);
      RanMore(s, steps, Try(p, o.processed), maxRetry);
      var tried, a := steps + [Try(p, o.processed)], Apply(t, Try(p, o.processed), maxRetry);
      StoreApplied(a, p, c, rest, o.processed, o.written, maxRetry);
      RanMore(s, tried, Store(p, o.written), maxRetry);
      WrittenIsHandled(t.queue, c, o, maxRetry);
      assert steps + OneRow(p, c.row, o) == tried + [Store(p, o.written)];
      Replaced(t.passes, p, Pass([c] + rest, Some(o.processed)), Pass(rest, None));
    }
  }

  lemma {:induction false} Replaced(passes: seq<Pass>, p: nat, first: Pass, second: Pass)
    requires p < |passes|
    ensures passes[p := first][p := second] == passes[p := second]
  {
  }

  /** Where a pass that nothing interleaves with stands after n rows. */
  function Alone(s: Sys, p: nat, ids: seq<int>, os: seq<Outcome>, n: nat, maxRetry: nat): Sys
    requires p < |s.passes| && n <= |ids| == |os| && forall i | 0 <= i < |ids| :: ids[i] in s.queue.rows
  {
    Sys(Passed(s.queue, s.queue.rows, ids[..n], os[..n], maxRetry),
        s.passes[p := Pass(Copied(ids, s.queue.rows)[n..], None)])
  }

  lemma {:induction false} PassBegins(s: Sys, p: nat, ids: seq<int>, os: seq<Outcome>, maxRetry: nat)
    requires p < |s.passes| && s.passes[p] == IDLE && Selected(ids, s.queue, maxRetry) && |ids| == |os|
    requires forall i | 0 <= i < |ids| :: ids[i] in s.queue.rows
    ensures Ran(s, PassSteps(p, s.queue.rows, ids, os, 0), maxRetry) == Some(Alone(s, p, ids, os, 0, maxRetry))
  {
    assert Ran(s, [], maxRetry) == Some(s);
    RanMore(s, [], Query(p, ids), maxRetry);
    assert [] + [Query(p, ids)] == [Query(p, ids)];
    assert Copied(ids, s.queue.rows)[0..] == Copied(ids, s.queue.rows);
  }

  lemma {:induction false} AloneAt(s: Sys, p: nat, ids: seq<int>, os: seq<Outcome>, m: nat, maxRetry: nat, c: Copy)
    requires p < |s.passes| && Selected(ids, s.queue, maxRetry) && m < |ids| == |os|
    requires forall i | 0 <= i < |ids| :: ids[i] in s.queue.rows
    requires c == Copy(ids[m], s.queue.rows[ids[m]])
    ensures var t := Alone(s, p, ids, os, m, maxRetry);
            && p < |t.passes| && t.passes[p] == Pass([c] + Copied(ids, s.queue.rows)[m + 1..], None)
            && c.id in t.queue.rows && t.queue.rows[c.id] == c.row
  {
    var copies := Copied(ids, s.queue.rows);
    assert copies[m..] == [c] + copies[m + 1..];
    NotYetReached(s.queue, ids, os, m, maxRetry, m);
  }

  lemma {:induction false} AloneNext(s: Sys, p: nat, ids: seq<int>, os: seq<Outcome>, m: nat, maxRetry: nat)
    requires p < |s.passes| && m < |ids| == |os| && forall i | 0 <= i < |ids| :: ids[i] in s.queue.rows
    ensures var t := Alone(s, p, ids, os, m, maxRetry);
            Alone(s, p, ids, os, m + 1, maxRetry)
            == Sys(Handled(t.queue, ids[m], s.queue.rows[ids[m]], os[m], maxRetry),
                   t.passes[p := Pass(Copied(ids, s.queue.rows)[m + 1..], None)])
  {
    var copies := Copied(ids, s.queue.rows);
    assert ids[..m + 1][..m] == ids[..m] && os[..m + 1][..m] == os[..m];
    Replaced(s.passes, p, Pass(copies[m..], None), Pass(copies[m + 1..], None));
  }

  lemma {:induction false} PassGoesOn(s: Sys, p: nat, ids: seq<int>, os: seq<Outcome>, m: nat, maxRetry: nat)
    requires p < |s.passes| && Selected(ids, s.queue, maxRetry) && m < |ids| == |os|
    requires forall i | 0 <= i < |ids| :: ids[i] in s.queue.rows
    requires Ran(s, PassSteps(p, s.queue.rows, ids, os, m), maxRetry) == Some(Alone(s, p, ids, os, m, maxRetry))
    ensures Ran(s, PassSteps(p, s.queue.rows, ids, os, m + 1), maxRetry) == Some(Alone(s, p, ids, os, m + 1, maxRetry))
  {
    var c := Copy(ids[m], s.queue.rows[ids[m]]);
    AloneAt(s, p, ids, os, m, maxRetry, c);
    AloneNext(s, p, ids, os, m, maxRetry);
    OneRowRuns(s, PassSteps(p, s.queue.rows, ids, os, m), p, c, Copied(ids, s.queue.rows)[m + 1..], os[m], maxRetry);
  }

  /** It is the pass of the worker: the retry as one call is a run of these statements. */
  lemma {:induction false} PassIsARun(s: Sys, p: nat, ids: seq<int>, os: seq<Outcome>, n: nat, maxRetry: nat)
    requires p < |s.passes| && s.passes[p] == IDLE && Selected(ids, s.queue, maxRetry) && n <= |ids| == |os|
    requires forall i | 0 <= i < |ids| :: ids[i] in s.queue.rows
    ensures Ran(s, PassSteps(p, s.queue.rows, ids, os, n), maxRetry) == Some(Alone(s, p, ids, os, n, maxRetry))
  {
    if n == 0 {
      PassBegins(s, p, ids, os, maxRetry);
    } else {
      PassIsARun(s, p, ids, os, n - 1, maxRetry);
      PassGoesOn(s, p, ids, os, n - 1, maxRetry);
    }
  }

  /** From an idle pass to an idle pass. */
  lemma {:induction false} RetryIsARun(s: Sys, p: nat, ids: seq<int>, os: seq<Outcome>, maxRetry: nat)
    requires p < |s.passes| && s.passes[p] == IDLE && Selected(ids, s.queue, maxRetry) && |ids| == |os|
    requires forall i | 0 <= i < |ids| :: ids[i] in s.queue.rows
    ensures Ran(s, PassSteps(p, s.queue.rows, ids, os, |ids|), maxRetry)
         == Some(s.(queue := Passed(s.queue, s.queue.rows, ids, os, maxRetry)))
  {
    PassIsARun(s, p, ids, os, |ids|, maxRetry);
    assert ids[..|ids|] == ids && os[..|os|] == os;
    assert Copied(ids, s.queue.rows)[|ids|..] == [];
    assert s.passes[p := IDLE] == s.passes;
  }
}
