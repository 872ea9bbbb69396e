/** Which price a record is charged at, and what a batch of one record leaves in the books. */
module MeteringPrices {
  import opened Common
  import opened Float64
  import opened Usage
  import opened Metering
  import opened MeteringLaws

  /** The price of a thousand of what the record counts; nothing else is priced. */
  function PriceOf(pricer: Pricer, r: Record): Option<real> {
    if pricer.None? then None
    else if r.dimension == "llm_tokens_in" then Some(pricer.value(r.model).input)
    else if r.dimension == "llm_tokens_out" then Some(pricer.value(r.model).output)
    else None
  }

  lemma CostByPrice(pricer: Pricer, r: Record)
    ensures CostFloat(pricer, r) == if PriceOf(pricer, r).None? then 0.0 else Cost(r.amount, PriceOf(pricer, r).value)
  {
  }

  ghost predicate Near(cost: real, exact: real) {
    -(3.0 * (UNIT * exact)) <= cost - exact <= 3.0 * (UNIT * exact)
  }

  lemma TimesIsProduct(x: real, y: real)
    ensures Times(x, y) == x * y
  {
  }

  lemma PricedRecord(pricer: Pricer, r: Record, price: real)
    requires 0 <= r.amount <= TWO53 && PriceOf(pricer, r) == Some(price) && price >= 0.0
    ensures Near(CostFloat(pricer, r), Times(r.amount as real / 1000.0, price))
  {
    CostIsClose(r.amount, price);
  }

  /** A record costs its amount over a thousand times the price of its own dimension and model, but for
      three roundings; records that are not priced cost nothing. */
  lemma RecordIsPriced(pricer: Pricer, r: Record)
    requires 0 <= r.amount <= TWO53 && (PriceOf(pricer, r).Some? ==> PriceOf(pricer, r).value >= 0.0)
    ensures PriceOf(pricer, r).None? ==> CostFloat(pricer, r) == 0.0
    ensures PriceOf(pricer, r).Some? ==>
              Near(CostFloat(pricer, r), Times(r.amount as real / 1000.0, PriceOf(pricer, r).value))
  {
    if PriceOf(pricer, r).Some? {
      PricedRecord(pricer, r, PriceOf(pricer, r).value);
    }
  }

  /** Whole thousands at a price in whole cents cost exactly that. */
  lemma WholePriceIsExact(pricer: Pricer, r: Record, thousands: nat, cents: nat, product: nat)
    requires r.amount == 1000 * thousands && r.amount <= TWO53 && product == thousands * cents <= TWO53
    requires PriceOf(pricer, r) == Some(cents as real)
    ensures CostFloat(pricer, r) == product as real
  {
    CostByPrice(pricer, r);
    ProductOfInts(thousands, cents, product);
    WholeCost(r.amount, thousands, cents as real, product);
  }

  lemma ProductOfInts(x: nat, y: nat, product: nat)
    requires product == x * y
    ensures Times(x as real, y as real) == product as real
  {
  }

  lemma WholeCost(amount: nat, thousands: nat, price: real, product: nat)
    requires amount == 1000 * thousands && amount <= TWO53 && product <= TWO53
    requires Times(thousands as real, price) == product as real
    ensures Cost(amount, price) == product as real
  {
    RoundOfInt(amount);
    RoundOfInt(thousands);
    RoundOfInt(product);
    assert Round(amount as real) / 1000.0 == thousands as real;
  }

  lemma CostIsDouble(pricer: Pricer, r: Record)
    requires CostFloat(pricer, r) >= 0.0
    ensures Round(CostFloat(pricer, r)) == CostFloat(pricer, r)
  {
    var cost := CostFloat(pricer, r);
    if cost != 0.0 {
      var price := PriceOf(pricer, r).value;
      DoubleIsFixed(Times(Round(Round(r.amount as real) / 1000.0), price));
    }
  }

  lemma DoubleIsFixed(x: real)
    requires Round(x) >= 0.0
    ensures Round(Round(x)) == Round(x)
  {
    if x >= 0.0 {
      RoundTwice(x);
    } else {
      RoundOfNegative(-x);
      RoundGrows(0.0, -x);
    }
  }

  /** The cost column of a row is the floor of the record's cost. */
  lemma {:induction false} RowCostIsFloor(batch: seq<Record>, pricer: Pricer, id: int, i: nat)
    requires i < |batch| && CostFloat(pricer, batch[i]) >= 0.0
    ensures var cents := RowsOf(batch, pricer, id)[i].costCents as real;
            cents <= CostFloat(pricer, batch[i]) < cents + 1.0
  {
    if i < |batch| - 1 {
      RowCostIsFloor(batch[..|batch| - 1], pricer, id, i);
    }
  }

  /** The keys of a batch are tenant, business type and model of its successful records, and a key's sum
      takes in the records that have all three. */
  lemma {:induction false} KeysExactly(batch: seq<Record>, k: Key)
    ensures k in Keys(batch) <==>
              exists i :: 0 <= i < |batch| && batch[i].status == 1
                          && batch[i].tenant == k.tenant && batch[i].biz == k.biz && batch[i].model == k.model
    ensures forall i | 0 <= i < |batch| ::
              Counts(batch[i], k) <==>
                && batch[i].status == 1 && batch[i].tenant == k.tenant && batch[i].biz == k.biz && batch[i].model == k.model
  {
    if batch != [] {
      var n := |batch| - 1;
      KeysExactly(batch[..n], k);
      assert forall i | 0 <= i < n :: batch[..n][i] == batch[i];
    }
  }

  lemma OneRecordTotal(r: Record, pricer: Pricer, k: Key)
    requires CostFloat(pricer, r) >= 0.0
    ensures Total([r], k, Costs(pricer))
         == if r.status == 1 && k == Key(r.tenant, r.biz, r.model) then CostFloat(pricer, r) else 0.0
  {
    assert [r][..0] == [];
    CostIsDouble(pricer, r);
  }

  lemma OneRecordKeys(r: Record)
    ensures Keys([r]) == if r.status == 1 then {Key(r.tenant, r.biz, r.model)} else {}
  {
    assert [r][..0] == [];
  }

  /** A flush of one record that is inserted and can be consumed: its tenant spends the floor of its
      cost, from one cent on, and no one else spends anything; a record that failed costs nothing. */
  lemma OneRecordIsCharged(r: Record, w: Weather, pricer: Pricer, t: int)
    requires w.inserted && w.consumed(Key(r.tenant, r.biz, r.model)) && CostFloat(pricer, r) >= 0.0
    ensures SpentOn(Flush([r], w), t, pricer)
         == if r.status == 1 && t == r.tenant && CostFloat(pricer, r) >= 1.0 then CostFloat(pricer, r).Floor else 0
  {
    var k := Key(r.tenant, r.biz, r.model);
    var keys := Paying(OfTenant(Keys([r]), t), w.consumed);
    OneRecordKeys(r);
    OneRecordTotal(r, pricer, k);
    if r.status == 1 && t == r.tenant {
      assert keys == {k} && keys - {k} == {};
      ChargedWith([r], keys, Costs(pricer), k);
    } else {
      assert keys == {};
    }
  }

  /** In whole thousands and whole cents: row and charge are thousands times the price of the record's
      own dimension. */
  lemma WholePriceIsCharged(r: Record, w: Weather, pricer: Pricer, thousands: nat, cents: nat, product: nat, id: int)
    requires r.amount == 1000 * thousands && r.amount <= TWO53 && product == thousands * cents <= TWO53
    requires PriceOf(pricer, r) == Some(cents as real) && r.status == 1
    requires w.inserted && w.consumed(Key(r.tenant, r.biz, r.model))
    ensures SpentOn(Flush([r], w), r.tenant, pricer) == product
    ensures RowsOf([r], pricer, id) == [UsageRow(id, r, product)]
  {
    WholePriceIsExact(pricer, r, thousands, cents, product);
    OneRecordIsCharged(r, w, pricer, r.tenant);
    OneRow(r, pricer, id, product);
  }

  lemma OneRow(r: Record, pricer: Pricer, id: int, cents: nat)
    requires CostFloat(pricer, r) == cents as real
    ensures RowsOf([r], pricer, id) == [UsageRow(id, r, cents)]
  {
    RowCostIsFloor([r], pricer, id, 0);
    var row := RowsOf([r], pricer, id)[0];
    assert row == UsageRow(id, r, row.costCents);
  }
}
