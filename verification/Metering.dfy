/** Metering records, their prices, and the batch flush: usage rows, dead letters and charges. */
module Metering {
  import opened Common
  import opened Float64
  import opened Usage
  import Billing
  import DeadLetters

  /** Price of a thousand tokens in cents. */
  datatype Price = Price(input: real, output: real)

  type Pricer = Option<string -> Price>

  const TOKENS_IN := "llm_tokens_in"
  const TOKENS_OUT := "llm_tokens_out"

  function Times(x: real, y: real): real {
    x * y
  }

  /** In doubles: amount / 1000 * price. */
  function Cost(amount: int, price: real): real {
    Round(Times(Round(Round(amount as real) / 1000.0), price))
  }

  function CostFloat(pricer: Pricer, r: Record): real {
    if pricer.None? then 0.0
    else if r.dimension == TOKENS_IN then Cost(r.amount, pricer.value(r.model).input)
    else if r.dimension == TOKENS_OUT then Cost(r.amount, pricer.value(r.model).output)
    else 0.0
  }

  function Costs(pricer: Pricer): Record -> real {
    r => CostFloat(pricer, r)
  }

  /** Conversion to an integer: towards zero. */
  function Truncated(x: real): int {
    if x >= 0.0 then x.Floor else -(-x).Floor
  }

  function CostCents(pricer: Pricer, r: Record): int {
    Truncated(CostFloat(pricer, r))
  }

  // ---- What a batch costs ----

  datatype Key = Key(tenant: int, biz: string, model: string)

  function KeyOf(r: Record): Key {
    Key(r.tenant, r.biz, r.model)
  }

  predicate Counts(r: Record, k: Key) {
    r.status == 1 && KeyOf(r) == k
  }

  /** A figure summed in doubles over the batch's successful records under a key. */
  function Total(batch: seq<Record>, k: Key, figure: Record -> real): real {
    if batch == [] then 0.0
    else
      var init, last := Total(batch[..|batch| - 1], k, figure), batch[|batch| - 1];
      if Counts(last, k) then Round(init + figure(last)) else init
  }

  function Keys(batch: seq<Record>): set<Key> {
    if batch == [] then {}
    else
      var last := batch[|batch| - 1];
      Keys(batch[..|batch| - 1]) + (if last.status == 1 then {KeyOf(last)} else {})
  }

  /** What is consumed for a key: below one cent nothing. */
  function ChargeOf(cents: real): int {
    if cents >= 1.0 then Truncated(cents) else 0
  }

  /** The charges of some keys. */
  ghost function Charged(batch: seq<Record>, keys: set<Key>, figure: Record -> real): int {
    if keys == {} then 0
    else
      var k :| k in keys;
      ChargeOf(Total(batch, k, figure)) + Charged(batch, keys - {k}, figure)
  }

  lemma {:induction false} ChargedWith(batch: seq<Record>, keys: set<Key>, figure: Record -> real, k: Key)
    requires k in keys
    ensures Charged(batch, keys, figure)
         == ChargeOf(Total(batch, k, figure)) + Charged(batch, keys - {k}, figure)
  {
    var j :| j in keys && Charged(batch, keys, figure)
                       == ChargeOf(Total(batch, j, figure)) + Charged(batch, keys - {j}, figure);
    if j != k {
      ChargedWith(batch, keys - {j}, figure, k);
      ChargedWith(batch, keys - {k}, figure, j);
      assert keys - {j} - {k} == keys - {k} - {j};
    }
  }

  // ---- The recorder ----

  datatype UsageRow = UsageRow(id: int, record: Record, costCents: int)

  /** The rows of a batch, with consecutive ids. */
  function RowsOf(batch: seq<Record>, pricer: Pricer, id: int): (rows: seq<UsageRow>)
    ensures |rows| == |batch| && forall i | 0 <= i < |rows| :: rows[i].id == id + i && rows[i].record == batch[i]
  {
    if batch == [] then []
    else
      var n := |batch| - 1;
      RowsOf(batch[..n], pricer, id) + [UsageRow(id + n, batch[n], CostCents(pricer, batch[n]))]
  }

  /** The queue with a batch's dead letters, those whose push succeeds; `pushed` goes by position. */
  function Queued(q: DeadLetters.Queue, batch: seq<Record>, id: int, pushed: nat -> bool): DeadLetters.Queue {
    if batch == [] then q
    else
      var n := |batch| - 1;
      var before := Queued(q, batch[..n], id, pushed);
      if pushed(n) then DeadLetters.Pushed(before, id + n, Some(batch[n])) else before
  }

  lemma InhabitedKeys(s: set<Key>)
    ensures s == {} || exists k :: k in s
  {
    if forall k :: k !in s {
      assert s == {};
    }
  }

  /** The keys of a tenant among those given. */
  function OfTenant(keys: set<Key>, t: int): set<Key> {
    set k | k in keys && k.tenant == t
  }

  /** How the environment treats a flush. */
  datatype Weather = Weather(inserted: bool, pushed: nat -> bool, consumed: Key -> bool)

  function Paying(keys: set<Key>, consumed: Key -> bool): set<Key> {
    set k | k in keys && consumed(k)
  }

  datatype Flush = Flush(batch: seq<Record>, weather: Weather)

  datatype Books = Books(rows: seq<UsageRow>, dlq: DeadLetters.Queue, nextId: int)

  /** A flush adds its rows, or, when they are not inserted, its dead letters. */
  function Posted(b: Books, f: Flush, pricer: Pricer): Books {
    if f.weather.inserted then
      Books(b.rows + RowsOf(f.batch, pricer, b.nextId), b.dlq, b.nextId + |f.batch|)
    else
      Books(b.rows, Queued(b.dlq, f.batch, b.nextId, f.weather.pushed), b.nextId + |f.batch|)
  }

  /** What a flush makes a tenant spend. */
  ghost function SpentOn(f: Flush, t: int, pricer: Pricer): int {
    if f.weather.inserted then
      Charged(f.batch, Paying(OfTenant(Keys(f.batch), t), f.weather.consumed), Costs(pricer))
    else 0
  }

  /** The ledger entry for a key: its tenant, its business type, and its floored total. */
  ghost predicate IsCharge(e: Billing.Txn, k: Key, batch: seq<Record>, figure: Record -> real) {
    e.tenant == k.tenant && e.biz == k.biz && e.kind == Billing.Debit && e.amount == -Truncated(Total(batch, k, figure))
  }

  /** The entries `after` adds are one for each key of `keys` that reaches a cent and is paid, in some order. */
  ghost predicate ChargesEach(before: seq<Billing.Txn>, after: seq<Billing.Txn>, order: seq<Key>, keys: set<Key>,
                              batch: seq<Record>, figure: Record -> real) {
    && before <= after && |after| == |before| + |order|
    && (forall i | 0 <= i < |order| :: IsCharge(after[|before| + i], order[i], batch, figure))
    && (forall i, j | 0 <= i < j < |order| :: order[i] != order[j])
    && (forall k :: k in order <==> k in keys && Total(batch, k, figure) >= 1.0)
  }

  lemma OneMoreCharge(before: seq<Billing.Txn>, after: seq<Billing.Txn>, order: seq<Key>, keys: set<Key>,
                      batch: seq<Record>, figure: Record -> real, k: Key, e: Billing.Txn)
    requires ChargesEach(before, after, order, keys, batch, figure) && k !in keys
    requires Total(batch, k, figure) >= 1.0 && IsCharge(e, k, batch, figure)
    ensures ChargesEach(before, after + [e], order + [k], keys + {k}, batch, figure)
  {
    assert k !in order;
  }

  class Recorder {
    const pricer: Pricer
    const consumer: Billing.Service?
    const dlq: DeadLetters.DLQWorker
    var rows: seq<UsageRow>
    var nextId: int

    constructor (pricer: Pricer, consumer: Billing.Service?, maxRetries: int)
      ensures this.pricer == pricer && this.consumer == consumer && fresh(dlq)
      ensures Value() == Books([], DeadLetters.EMPTY, 0)
    {
      this.pricer := pricer;
      this.consumer := consumer;
      var letters := new DeadLetters.DLQWorker(maxRetries);
      dlq := letters;
      rows := [];
      nextId := 0;
    }

    function Value(): Books
      reads this, dlq
    {
      Books(rows, dlq.queue, nextId)
    }

    method FlushBatch(batch: seq<Record>, weather: Weather) returns (ghost order: seq<Key>)
      modifies this`rows, this`nextId, dlq, consumer
      ensures Value() == Posted(old(Value()), Flush(batch, weather), pricer)
      ensures consumer != null ==>
                forall t :: consumer.Spent(t) == old(consumer.Spent(t)) + SpentOn(Flush(batch, weather), t, pricer)
      ensures consumer != null && weather.inserted ==>
                ChargesEach(old(consumer.txns), consumer.txns, order, Paying(Keys(batch), weather.consumed), batch, Costs(pricer))
    {
      order := [];
      var made := MakeRows(batch);
      if !weather.inserted {
        PushAll(batch, made, weather.pushed);
        return;
      }
      rows := rows + made;
      if consumer != null {
        var agg := Aggregate(batch);
        order := ConsumeAll(batch, agg, weather.consumed);
      }
    }

    method MakeRows(batch: seq<Record>) returns (made: seq<UsageRow>)
      modifies this`nextId
      ensures made == RowsOf(batch, pricer, old(nextId)) && nextId == old(nextId) + |batch|
    {
      made := [];
      for i := 0 to |batch|
        invariant made == RowsOf(batch[..i], pricer, old(nextId)) && nextId == old(nextId) + i
      {
        assert batch[..i + 1][..i] == batch[..i];
        made := made + [UsageRow(nextId, batch[i], CostCents(pricer, batch[i]))];
        nextId := nextId + 1;
      }
      assert batch[..|batch|] == batch;
    }

    method PushAll(batch: seq<Record>, made: seq<UsageRow>, pushed: nat -> bool)
      requires |made| == |batch| && forall i | 0 <= i < |batch| :: made[i].id == nextId - |batch| + i
      modifies dlq
      ensures dlq.queue == Queued(old(dlq.queue), batch, nextId - |batch|, pushed)
    {
      for i := 0 to |batch|
        invariant dlq.queue == Queued(old(dlq.queue), batch[..i], nextId - |batch|, pushed)
      {
        assert batch[..i + 1][..i] == batch[..i];
        dlq.Push(made[i].id, batch[i], pushed(i));
      }
      assert batch[..|batch|] == batch;
    }

    method Aggregate(batch: seq<Record>) returns (agg: map<Key, real>)
      ensures agg.Keys == Keys(batch)
      ensures forall k | k in agg :: agg[k] == Total(batch, k, Costs(pricer))
    {
      agg := map[];
      ghost var figure := Costs(pricer);
      for i := 0 to |batch|
        invariant agg.Keys == Keys(batch[..i])
        invariant forall k | k in agg :: agg[k] == Total(batch[..i], k, figure)
      {
        var r := batch[i];
        assert batch[..i + 1][..i] == batch[..i];
        if r.status == 1 {
          if KeyOf(r) !in agg {
            AbsentIsZero(batch[..i], KeyOf(r), figure);
          }
          var before := if KeyOf(r) in agg then agg[KeyOf(r)] else 0.0;
          agg := agg[KeyOf(r) := Round(before + CostFloat(pricer, r))];
        }
      }
      assert batch[..|batch|] == batch;
    }

    /** Consumes for each key, in any order. */
    method ConsumeAll(batch: seq<Record>, agg: map<Key, real>, consumed: Key -> bool) returns (ghost order: seq<Key>)
      requires consumer != null
      requires agg.Keys == Keys(batch)
      requires forall k | k in agg :: agg[k] == Total(batch, k, Costs(pricer))
      modifies consumer
      ensures forall t :: consumer.Spent(t) == old(consumer.Spent(t))
                    + Charged(batch, Paying(OfTenant(Keys(batch), t), consumed), Costs(pricer))
      ensures ChargesEach(old(consumer.txns), consumer.txns, order, Paying(Keys(batch), consumed), batch, Costs(pricer))
    {
      ghost var figure := Costs(pricer);
      var rest := agg.Keys;
      ghost var done: set<Key> := {};
      order := [];
      while rest != {}
        invariant rest + done == Keys(batch) && rest !! done
        invariant forall t :: consumer.Spent(t) == old(consumer.Spent(t))
                    + Charged(batch, Paying(OfTenant(done, t), consumed), figure)
        invariant ChargesEach(old(consumer.txns), consumer.txns, order, Paying(done, consumed), batch, figure)
      {
        InhabitedKeys(rest);
        var k :| k in rest;
        order := ConsumeKey(batch, agg[k], k, consumed, done, order, old(consumer.txns));
        forall t
          ensures Charged(batch, Paying(OfTenant(done + {k}, t), consumed), figure)
               == Charged(batch, Paying(OfTenant(done, t), consumed), figure)
                + if k.tenant == t && consumed(k) then ChargeOf(Total(batch, k, figure)) else 0
        {
          PayingWith(batch, done, k, t, consumed, figure);
        }
        rest, done := rest - {k}, done + {k};
      }
      assert done == Keys(batch);
    }

    method ConsumeKey(ghost batch: seq<Record>, cents: real, k: Key, consumed: Key -> bool,
                      ghost done: set<Key>, ghost before: seq<Key>, ghost txns: seq<Billing.Txn>)
      returns (ghost order: seq<Key>)
      requires consumer != null && k !in done && cents == Total(batch, k, Costs(pricer))
      requires ChargesEach(txns, consumer.txns, before, Paying(done, consumed), batch, Costs(pricer))
      modifies consumer
      ensures ChargesEach(txns, consumer.txns, order, Paying(done + {k}, consumed), batch, Costs(pricer))
      ensures forall t :: consumer.Spent(t) == old(consumer.Spent(t))
                    + if k.tenant == t && consumed(k) then ChargeOf(cents) else 0
    {
      order := before;
      if cents >= 1.0 {
        consumer.Consume(k.tenant, k.biz, Truncated(cents), if consumed(k) then None else Some(Billing.Update));
        if consumed(k) {
          ghost var e := consumer.txns[|old(consumer.txns)|];
          OneMoreCharge(txns, old(consumer.txns), before, Paying(done, consumed), batch, Costs(pricer), k, e);
          order := before + [k];
          assert Paying(done + {k}, consumed) == Paying(done, consumed) + {k};
        }
      }
    }
  }

  lemma {:induction false} AbsentIsZero(batch: seq<Record>, k: Key, figure: Record -> real)
    requires k !in Keys(batch)
    ensures Total(batch, k, figure) == 0.0
  {
    if batch != [] {
      AbsentIsZero(batch[..|batch| - 1], k, figure);
    }
  }

  lemma PayingWith(batch: seq<Record>, done: set<Key>, k: Key, t: int, consumed: Key -> bool, figure: Record -> real)
    requires k !in done
    ensures Charged(batch, Paying(OfTenant(done + {k}, t), consumed), figure)
         == Charged(batch, Paying(OfTenant(done, t), consumed), figure)
          + if k.tenant == t && consumed(k) then ChargeOf(Total(batch, k, figure)) else 0
  {
    var before, now := Paying(OfTenant(done, t), consumed), Paying(OfTenant(done + {k}, t), consumed);
    if k.tenant == t && consumed(k) {
      assert now - {k} == before;
      ChargedWith(batch, now, figure, k);
    } else {
      assert now == before;
    }
  }
}
