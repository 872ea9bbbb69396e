/** What the flushes of a run charge, and where its records end up. */
module MeteringLaws {
  import opened Common
  import opened Float64
  import opened Usage
  import opened Metering
  import DeadLetters
  import opened MeteringWorker

  // ---- Costs ----

  lemma TimesIsNotNegative(x: real, y: real)
    requires x >= 0.0 && y >= 0.0
    ensures Times(x, y) >= 0.0
  {
  }

  lemma TimesGrows(x: real, y: real, price: real)
    requires x <= y && price >= 0.0
    ensures Times(x, price) <= Times(y, price)
  {
    TimesIsNotNegative(y - x, price);
    assert (y - x) * price == y * price - x * price;
  }

  lemma TimesUnit(y: real, price: real)
    ensures Times(y - UNIT * y, price) == Times(y, price) - UNIT * Times(y, price)
    ensures Times(y + UNIT * y, price) == Times(y, price) + UNIT * Times(y, price)
  {
  }

  lemma RoundIsNotNegative(x: real)
    requires x >= 0.0
    ensures Round(x) >= 0.0
  {
    RoundGrows(0.0, x);
  }

  lemma CostIsNotNegative(amount: int, price: real)
    requires amount >= 0 && price >= 0.0
    ensures Cost(amount, price) >= 0.0
  {
    RoundIsNotNegative(amount as real);
    var thousands := Round(amount as real) / 1000.0;
    RoundIsNotNegative(thousands);
    TimesIsNotNegative(Round(thousands), price);
    RoundIsNotNegative(Times(Round(thousands), price));
  }

  lemma TwoErrors(exact: real, z: real, c: real)
    requires exact >= 0.0 && z >= 0.0
    requires -(UNIT * exact) <= z - exact <= UNIT * exact && -(UNIT * z) <= c - z <= UNIT * z
    ensures -(3.0 * (UNIT * exact)) <= c - exact <= 3.0 * (UNIT * exact)
  {
  }

  lemma RoundedTimes(y: real, price: real)
    requires y >= 0.0 && price >= 0.0
    ensures var exact := Times(y, price);
            && exact >= 0.0 && Times(Round(y), price) >= 0.0
            && -(UNIT * exact) <= Times(Round(y), price) - exact <= UNIT * exact
  {
    RoundError(y);
    RoundIsNotNegative(y);
    TimesIsNotNegative(y, price);
    TimesIsNotNegative(Round(y), price);
    TimesGrows(y - UNIT * y, Round(y), price);
    TimesGrows(Round(y), y + UNIT * y, price);
    TimesUnit(y, price);
  }

  /** The cost of a record is amount / 1000 * price but for two roundings. */
  lemma CostIsClose(amount: nat, price: real)
    requires amount <= TWO53 && price >= 0.0
    ensures var exact := Times(amount as real / 1000.0, price);
            -(3.0 * (UNIT * exact)) <= Cost(amount, price) - exact <= 3.0 * (UNIT * exact)
  {
    RoundOfInt(amount);
    var y := amount as real / 1000.0;
    RoundedTimes(y, price);
    RoundError(Times(Round(y), price));
    TwoErrors(Times(y, price), Times(Round(y), price), Cost(amount, price));
  }

  // ---- Charges ----

  /** Leaving out charges below a cent changes nothing, unless a total is negative. */
  lemma ChargeIsFloor(cents: real)
    ensures ChargeOf(cents) == cents.Floor <==> cents >= 0.0
    ensures cents >= 0.0 ==> 0 <= ChargeOf(cents) && ChargeOf(cents) as real <= cents < ChargeOf(cents) as real + 1.0
  {
  }

  function Cents(pricer: Pricer): Record -> real {
    r => CostCents(pricer, r) as real
  }

  /** A figure summed exactly over a batch's successful records under a key. */
  function Exact(batch: seq<Record>, k: Key, figure: Record -> real): real {
    if batch == [] then 0.0
    else
      var init, last := Exact(batch[..|batch| - 1], k, figure), batch[|batch| - 1];
      if Counts(last, k) then init + figure(last) else init
  }

  /** The same over a tenant's successful records. */
  function TenantTotal(batch: seq<Record>, t: int, figure: Record -> real): real {
    if batch == [] then 0.0
    else
      var last := batch[|batch| - 1];
      TenantTotal(batch[..|batch| - 1], t, figure) + (if last.status == 1 && last.tenant == t then figure(last) else 0.0)
  }

  /** What the roundings of a key's sum can amount to: UNIT of each partial sum. */
  function Blur(batch: seq<Record>, k: Key, figure: Record -> real): real {
    if batch == [] then 0.0
    else
      var init := Blur(batch[..|batch| - 1], k, figure);
      if Counts(batch[|batch| - 1], k) then init + UNIT * Total(batch, k, figure) else init
  }

  /** How many records a key has. */
  function Terms(batch: seq<Record>, k: Key): nat {
    if batch == [] then 0
    else Terms(batch[..|batch| - 1], k) + (if Counts(batch[|batch| - 1], k) then 1 else 0)
  }

  ghost predicate Costly(batch: seq<Record>, pricer: Pricer) {
    forall i | 0 <= i < |batch| :: batch[i].status == 1 ==> CostFloat(pricer, batch[i]) >= 0.0
  }

  ghost predicate IsClose(total: real, exact: real, blur: real) {
    total >= 0.0 && Round(total) == total && blur >= 0.0 && -blur <= total - exact <= blur
  }

  lemma TermAdded(total: real, exact: real, blur: real, cost: real)
    requires IsClose(total, exact, blur) && cost >= 0.0
    ensures var next := Round(total + cost);
            next >= total && IsClose(next, exact + cost, blur + UNIT * next)
  {
    RoundGrows(total, total + cost);
    RoundTwice(total + cost);
    RoundError(total + cost);
  }

  /** A sum in doubles is exact up to its blur. */
  lemma {:induction false} TotalIsClose(batch: seq<Record>, k: Key, pricer: Pricer)
    requires Costly(batch, pricer)
    ensures IsClose(Total(batch, k, Costs(pricer)), Exact(batch, k, Costs(pricer)), Blur(batch, k, Costs(pricer)))
  {
    if batch != [] {
      var init, last := batch[..|batch| - 1], batch[|batch| - 1];
      TotalIsClose(init, k, pricer);
      if Counts(last, k) {
        TermAdded(Total(init, k, Costs(pricer)), Exact(init, k, Costs(pricer)), Blur(init, k, Costs(pricer)),
                  CostFloat(pricer, last));
      }
    }
  }

  /** n units of x. */
  function Units(n: nat, x: real): real {
    if n == 0 then 0.0 else Units(n - 1, x) + UNIT * x
  }

  lemma {:induction false} UnitsGrow(n: nat, x: real, y: real)
    requires x <= y
    ensures Units(n, x) <= Units(n, y)
  {
    if n > 0 {
      UnitsGrow(n - 1, x, y);
    }
  }

  lemma UnitsNext(blur: real, n: nat, x: real, y: real)
    requires blur <= Units(n, x) && x <= y
    ensures blur + UNIT * y <= Units(n + 1, y)
  {
    UnitsGrow(n, x, y);
  }

  lemma TotalGrows(batch: seq<Record>, k: Key, pricer: Pricer)
    requires Costly(batch, pricer) && batch != []
    ensures Total(batch[..|batch| - 1], k, Costs(pricer)) <= Total(batch, k, Costs(pricer))
  {
    var init, last := batch[..|batch| - 1], batch[|batch| - 1];
    var total, cost := Total(init, k, Costs(pricer)), CostFloat(pricer, last);
    TotalIsClose(init, k, pricer);
    assert Round(total) == total;
    RoundGrows(total, total + if Counts(last, k) then cost else 0.0);
  }

  /** That is at most a unit of the sum for each of its records. */
  lemma {:induction false} BlurIsSmall(batch: seq<Record>, k: Key, pricer: Pricer)
    requires Costly(batch, pricer)
    ensures Blur(batch, k, Costs(pricer)) <= Units(Terms(batch, k), Total(batch, k, Costs(pricer)))
  {
    if batch != [] {
      var init := batch[..|batch| - 1];
      BlurIsSmall(init, k, pricer);
      TotalGrows(batch, k, pricer);
      UnitsNext(Blur(init, k, Costs(pricer)), Terms(init, k), Total(init, k, Costs(pricer)), Total(batch, k, Costs(pricer)));
    }
  }

  /** The whole cents of a key's records. */
  function WholeCents(batch: seq<Record>, k: Key, pricer: Pricer): int {
    if batch == [] then 0
    else
      var last := batch[|batch| - 1];
      WholeCents(batch[..|batch| - 1], k, pricer) + (if Counts(last, k) then CostCents(pricer, last) else 0)
  }

  lemma {:induction false} WholeCentsExact(batch: seq<Record>, k: Key, pricer: Pricer)
    ensures Exact(batch, k, Cents(pricer)) == WholeCents(batch, k, pricer) as real
  {
    if batch != [] {
      WholeCentsExact(batch[..|batch| - 1], k, pricer);
    }
  }

  lemma WholePart(x: real)
    requires x >= 0.0
    ensures 0 <= Truncated(x) && Truncated(x) as real <= x
  {
  }

  lemma IntBelowRound(n: nat, x: real)
    requires n <= TWO53 && n as real <= x
    ensures n as real <= Round(x)
  {
    RoundOfInt(n);
    RoundGrows(n as real, x);
  }

  /** Rounding every record down costs no more than rounding their sum down. */
  lemma {:induction false} RowsBelowTotal(batch: seq<Record>, k: Key, pricer: Pricer)
    requires Costly(batch, pricer) && WholeCents(batch, k, pricer) <= TWO53
    ensures 0 <= WholeCents(batch, k, pricer) && WholeCents(batch, k, pricer) as real <= Total(batch, k, Costs(pricer))
  {
    if batch != [] {
      var m := |batch| - 1;
      if Counts(batch[m], k) {
        WholePart(CostFloat(pricer, batch[m]));
      }
      RowsBelowTotal(batch[..m], k, pricer);
      if Counts(batch[m], k) {
        IntBelowRound(WholeCents(batch, k, pricer), Total(batch[..m], k, Costs(pricer)) + CostFloat(pricer, batch[m]));
      }
    }
  }

  lemma WholeBelowCharge(n: int, x: real)
    requires 0 <= n && n as real <= x
    ensures n <= ChargeOf(x)
  {
  }

  /** A key's charge, against its rows and against its exact cost. */
  lemma ChargeOfKey(batch: seq<Record>, k: Key, pricer: Pricer)
    requires Costly(batch, pricer)
    ensures var charge := ChargeOf(Total(batch, k, Costs(pricer)));
            var exact, blur := Exact(batch, k, Costs(pricer)), Blur(batch, k, Costs(pricer));
            && 0 <= charge && blur >= 0.0
            && charge as real <= exact + blur && exact < charge as real + 1.0 + blur
            && (WholeCents(batch, k, pricer) <= TWO53 ==> WholeCents(batch, k, pricer) <= charge)
  {
    TotalIsClose(batch, k, pricer);
    ChargeIsFloor(Total(batch, k, Costs(pricer)));
    if WholeCents(batch, k, pricer) <= TWO53 {
      RowsBelowTotal(batch, k, pricer);
      WholeBelowCharge(WholeCents(batch, k, pricer), Total(batch, k, Costs(pricer)));
    }
  }

  // ---- Sums over keys ----

  ghost function KeySum(keys: set<Key>, f: Key -> real): real {
    if keys == {} then 0.0
    else
      var k :| k in keys;
      f(k) + KeySum(keys - {k}, f)
  }

  lemma {:induction false} KeySumWith(keys: set<Key>, f: Key -> real, k: Key)
    requires k in keys
    ensures KeySum(keys, f) == f(k) + KeySum(keys - {k}, f)
  {
    var j :| j in keys && KeySum(keys, f) == f(j) + KeySum(keys - {j}, f);
    if j != k {
      KeySumWith(keys - {j}, f, k);
      KeySumWith(keys - {k}, f, j);
      assert keys - {j} - {k} == keys - {k} - {j};
    }
  }

  lemma {:induction false} KeySumSame(keys: set<Key>, f: Key -> real, g: Key -> real)
    requires forall k | k in keys :: f(k) == g(k)
    ensures KeySum(keys, f) == KeySum(keys, g)
  {
    InhabitedKeys(keys);
    if keys != {} {
      var k :| k in keys;
      KeySumSame(keys - {k}, f, g);
      KeySumWith(keys, f, k);
      KeySumWith(keys, g, k);
    }
  }

  function ExactOf(batch: seq<Record>, figure: Record -> real): Key -> real {
    k => Exact(batch, k, figure)
  }

  function BlurOf(batch: seq<Record>, figure: Record -> real): Key -> real {
    k => Blur(batch, k, figure)
  }

  lemma {:induction false} AbsentIsExactZero(batch: seq<Record>, k: Key, figure: Record -> real)
    requires k !in Keys(batch)
    ensures Exact(batch, k, figure) == 0.0
  {
    if batch != [] {
      AbsentIsExactZero(batch[..|batch| - 1], k, figure);
    }
  }

  /** A tenant's total is the total of its keys. */
  lemma {:induction false} TotalByKey(batch: seq<Record>, t: int, figure: Record -> real)
    ensures TenantTotal(batch, t, figure) == KeySum(OfTenant(Keys(batch), t), ExactOf(batch, figure))
  {
    if batch == [] {
      assert OfTenant(Keys(batch), t) == {};
    } else {
      var init, last := batch[..|batch| - 1], batch[|batch| - 1];
      var before, now, k := OfTenant(Keys(init), t), OfTenant(Keys(batch), t), KeyOf(last);
      var f, g := ExactOf(init, figure), ExactOf(batch, figure);
      TotalByKey(init, t, figure);
      if last.status == 1 && last.tenant == t {
        assert now == before + {k} && now - {k} == before - {k};
        KeySumWith(now, g, k);
        KeySumSame(before - {k}, f, g);
        if k in before {
          KeySumWith(before, f, k);
        } else {
          AbsentIsExactZero(init, k, figure);
          assert before - {k} == before;
        }
      } else {
        assert now == before;
        KeySumSame(before, f, g);
      }
    }
  }

  ghost predicate Moderate(batch: seq<Record>, pricer: Pricer) {
    forall k :: WholeCents(batch, k, pricer) <= TWO53
  }

  lemma {:induction false} ChargesByKey(batch: seq<Record>, keys: set<Key>, pricer: Pricer)
    requires Costly(batch, pricer)
    ensures var charged := Charged(batch, keys, Costs(pricer)) as real;
            var exact, blur := KeySum(keys, ExactOf(batch, Costs(pricer))), KeySum(keys, BlurOf(batch, Costs(pricer)));
            && charged <= exact + blur && exact <= charged + |keys| as real + blur
            && (keys != {} ==> exact < charged + |keys| as real + blur)
            && (Moderate(batch, pricer) ==> KeySum(keys, ExactOf(batch, Cents(pricer))) <= charged)
  {
    InhabitedKeys(keys);
    if keys != {} {
      var k :| k in keys;
      ChargesByKey(batch, keys - {k}, pricer);
      ChargedWith(batch, keys, Costs(pricer), k);
      KeySumWith(keys, ExactOf(batch, Costs(pricer)), k);
      KeySumWith(keys, ExactOf(batch, Cents(pricer)), k);
      KeySumWith(keys, BlurOf(batch, Costs(pricer)), k);
      ChargeOfKey(batch, k, pricer);
      WholeCentsExact(batch, k, pricer);
    }
  }

  // ---- A run's charges ----

  function RunTotal(flushes: seq<Flush>, t: int, figure: Record -> real): real {
    if flushes == [] then 0.0
    else
      var last := flushes[|flushes| - 1];
      RunTotal(flushes[..|flushes| - 1], t, figure)
      + (if last.weather.inserted then TenantTotal(last.batch, t, figure) else 0.0)
  }

  ghost function RunBlur(flushes: seq<Flush>, t: int, figure: Record -> real): real {
    if flushes == [] then 0.0
    else
      var last := flushes[|flushes| - 1];
      RunBlur(flushes[..|flushes| - 1], t, figure)
      + (if last.weather.inserted then KeySum(OfTenant(Keys(last.batch), t), BlurOf(last.batch, figure)) else 0.0)
  }

  /** Keys a tenant is charged for, batch by batch. */
  function RunKeys(flushes: seq<Flush>, t: int): nat {
    if flushes == [] then 0
    else
      var last := flushes[|flushes| - 1];
      RunKeys(flushes[..|flushes| - 1], t) + (if last.weather.inserted then |OfTenant(Keys(last.batch), t)| else 0)
  }

  ghost predicate Collected(f: Flush) {
    f.weather.inserted ==> forall k | k in Keys(f.batch) :: f.weather.consumed(k)
  }

  lemma {:induction false} ChargedOfSome(batch: seq<Record>, some: set<Key>, keys: set<Key>, pricer: Pricer)
    requires some <= keys && Costly(batch, pricer)
    ensures 0 <= Charged(batch, some, Costs(pricer)) <= Charged(batch, keys, Costs(pricer))
  {
    InhabitedKeys(keys);
    if keys != {} {
      var k :| k in keys;
      ChargedOfSome(batch, some - {k}, keys - {k}, pricer);
      ChargedWith(batch, keys, Costs(pricer), k);
      if k in some {
        ChargedWith(batch, some, Costs(pricer), k);
      } else {
        assert some - {k} == some;
      }
      ChargeOfKey(batch, k, pricer);
    }
  }

  lemma FlushFollowsCosts(f: Flush, t: int, pricer: Pricer)
    requires Costly(f.batch, pricer) && f.weather.inserted
    ensures var spent, keys := SpentOn(f, t, pricer), OfTenant(Keys(f.batch), t);
            var exact, blur := TenantTotal(f.batch, t, Costs(pricer)), KeySum(keys, BlurOf(f.batch, Costs(pricer)));
            && 0 <= spent && spent as real <= exact + blur
            && (Collected(f) ==> exact <= spent as real + |keys| as real + blur)
            && (Collected(f) && keys != {} ==> exact < spent as real + |keys| as real + blur)
            && (Collected(f) && Moderate(f.batch, pricer) ==> TenantTotal(f.batch, t, Cents(pricer)) <= spent as real)
  {
    var keys := OfTenant(Keys(f.batch), t);
    TotalByKey(f.batch, t, Costs(pricer));
    TotalByKey(f.batch, t, Cents(pricer));
    ChargesByKey(f.batch, keys, pricer);
    ChargedOfSome(f.batch, Paying(keys, f.weather.consumed), keys, pricer);
    if Collected(f) {
      assert Paying(keys, f.weather.consumed) == keys;
    }
  }

  /** Over any run a tenant spends at most what its inserted records cost and the blur of their sums,
      whatever else fails. When every consumption succeeds it spends at least its rows' whole cents
      (up to 2^53 for a key), and less than one cent per key and batch is lost, and the blur. */
  lemma {:induction false} ChargesFollowCosts(flushes: seq<Flush>, t: int, pricer: Pricer)
    requires forall i | 0 <= i < |flushes| :: Costly(flushes[i].batch, pricer)
    ensures var spent, blur := SpentOnAll(flushes, t, pricer) as real, RunBlur(flushes, t, Costs(pricer));
            0.0 <= spent <= RunTotal(flushes, t, Costs(pricer)) + blur
    ensures (forall i | 0 <= i < |flushes| :: Collected(flushes[i])) ==>
              var spent, lost := SpentOnAll(flushes, t, pricer) as real, RunKeys(flushes, t) as real;
              && RunTotal(flushes, t, Costs(pricer)) <= spent + lost + RunBlur(flushes, t, Costs(pricer))
              && (lost > 0.0 ==> RunTotal(flushes, t, Costs(pricer)) < spent + lost + RunBlur(flushes, t, Costs(pricer)))
    ensures (forall i | 0 <= i < |flushes| :: Collected(flushes[i]) && Moderate(flushes[i].batch, pricer)) ==>
              RunTotal(flushes, t, Cents(pricer)) <= SpentOnAll(flushes, t, pricer) as real
  {
    if flushes != [] {
      var m := |flushes| - 1;
      ChargesFollowCosts(flushes[..m], t, pricer);
      if flushes[m].weather.inserted {
        FlushFollowsCosts(flushes[m], t, pricer);
      }
    }
  }

  // ---- Sums that are exact ----

  function UnitTotal(batch: seq<Record>, k: Key, units: Record -> nat): nat {
    if batch == [] then 0
    else
      var last := batch[|batch| - 1];
      UnitTotal(batch[..|batch| - 1], k, units) + (if Counts(last, k) then units(last) else 0)
  }

  /** Every cost is a whole number of units of 2^e cents. */
  ghost predicate InUnits(batch: seq<Record>, pricer: Pricer, e: int, units: Record -> nat) {
    forall i | 0 <= i < |batch| :: batch[i].status == 1 ==> CostFloat(pricer, batch[i]) == Shift(units(batch[i]) as real, e)
  }

  lemma UnitsAdd(m: nat, n: nat, e: int)
    requires m + n <= TWO53
    ensures Shift(m as real, e) + Shift(n as real, e) == Shift((m + n) as real, e)
    ensures Round(Shift(m as real, e) + Shift(n as real, e)) == Shift((m + n) as real, e)
  {
    ShiftSum(m as real, n as real, e);
    RoundShift((m + n) as real, e);
    RoundOfInt(m + n);
  }

  lemma {:induction false} UnitsSum(batch: seq<Record>, k: Key, pricer: Pricer, e: int, units: Record -> nat)
    requires InUnits(batch, pricer, e, units) && UnitTotal(batch, k, units) <= TWO53
    ensures var sum := Shift(UnitTotal(batch, k, units) as real, e);
            Total(batch, k, Costs(pricer)) == sum && Exact(batch, k, Costs(pricer)) == sum
  {
    if batch == [] {
      ShiftZero(e);
    } else {
      var init, last := batch[..|batch| - 1], batch[|batch| - 1];
      var m, n := UnitTotal(init, k, units), units(last);
      UnitsSum(init, k, pricer, e, units);
      if Counts(last, k) {
        assert Costs(pricer)(last) == Shift(n as real, e);
        UnitsAdd(m, n, e);
      }
    }
  }

  /** Where the costs are whole numbers of a unit of 2^e cents, no more than 2^53 for a key, a sum in
      doubles is exact and the charge is the floor of the exact sum. */
  lemma SumsInUnitsAreExact(batch: seq<Record>, k: Key, pricer: Pricer, e: int, units: Record -> nat)
    requires InUnits(batch, pricer, e, units) && UnitTotal(batch, k, units) <= TWO53
    ensures Total(batch, k, Costs(pricer)) == Exact(batch, k, Costs(pricer))
    ensures ChargeOf(Total(batch, k, Costs(pricer))) == Exact(batch, k, Costs(pricer)).Floor
  {
    UnitsSum(batch, k, pricer, e, units);
    RoundShift(UnitTotal(batch, k, units) as real, e);
    ChargeIsFloor(Total(batch, k, Costs(pricer)));
  }

  // ---- A cent that is not charged ----

  function Repeated(d: real, n: nat): real {
    if n == 0 then 0.0 else Round(Repeated(d, n - 1) + d)
  }

  function Multiple(d: real, n: nat): real {
    if n == 0 then 0.0 else Multiple(d, n - 1) + d
  }

  lemma {:induction false} TotalIsRepeated(batch: seq<Record>, k: Key, figure: Record -> real, d: real)
    requires forall i | 0 <= i < |batch| :: Counts(batch[i], k) && figure(batch[i]) == d
    ensures Total(batch, k, figure) == Repeated(d, |batch|) && Exact(batch, k, figure) == Multiple(d, |batch|)
  {
    if batch != [] {
      TotalIsRepeated(batch[..|batch| - 1], k, figure, d);
      assert Counts(batch[|batch| - 1], k);
    }
  }

  /** The double nearest to a tenth. */
  ghost predicate IsTenth(d: real) {
    72057594037927936.0 * d == 7205759403792794.0 && Round(d) == d
  }

  lemma CostOfATenth(amount: int, price: real)
    requires amount == 100 && price == 1.0
    ensures IsTenth(Cost(amount, price))
  {
    RoundOfInt(amount);
    var x := Round(amount as real) / 1000.0;
    RoundAt56(x);
    RoundTwice(x);
    assert Times(Round(x), price) == Round(x);
  }

  /** `m` is the sum in units of 2^-53, from a half to one. */
  ghost predicate InHalves(d: real, n: nat, m: int) {
    9007199254740992.0 * Repeated(d, n) == m as real
  }

  lemma HalfStep(d: real, n: nat, m: int, next: int)
    requires IsTenth(d) && InHalves(d, n, m) && TWO52 <= m <= TWO53 - 900719925474100
    requires next == NearestInt(m as real + 900719925474099.25)
    ensures InHalves(d, n + 1, next)
  {
    RoundAt53(Repeated(d, n) + d);
  }

  lemma FourTenths(d: real, t1: real, t2: real, t3: real, t4: real)
    requires IsTenth(d) && t1 == Round(0.0 + d) && t2 == Round(t1 + d) && t3 == Round(t2 + d) && t4 == Round(t3 + d)
    ensures 18014398509481984.0 * t4 == 7205759403792794.0
  {
    RoundAt55(t1 + d);
    RoundAt54(t2 + d);
    RoundAt54(t3 + d);
  }

  lemma FiveTenths(d: real, n: nat)
    requires IsTenth(d) && n == 5
    ensures InHalves(d, n, 4503599627370496)
  {
    var t1, t2, t3, t4 := Repeated(d, n - 4), Repeated(d, n - 3), Repeated(d, n - 2), Repeated(d, n - 1);
    assert Repeated(d, n - 5) == 0.0;
    FourTenths(d, t1, t2, t3, t4);
    RoundAt53(t4 + d);
  }

  lemma TenTenths(d: real, n: nat)
    requires IsTenth(d) && n == 10
    ensures 0.0 < Repeated(d, n) < 1.0
  {
    FiveTenths(d, n - 5);
    HalfStep(d, n - 5, 4503599627370496, 5404319552844595);
    HalfStep(d, n - 4, 5404319552844595, 6305039478318694);
    HalfStep(d, n - 3, 6305039478318694, 7205759403792793);
    HalfStep(d, n - 2, 7205759403792793, 8106479329266892);
    HalfStep(d, n - 1, 8106479329266892, 9007199254740991);
  }

  lemma TenTimes(d: real, n: nat)
    requires n == 10
    ensures Multiple(d, n) == 10.0 * d
  {
    assert Multiple(d, n - 10) == 0.0;
    assert Multiple(d, n - 9) == d;
    assert Multiple(d, n - 8) == 2.0 * d;
    assert Multiple(d, n - 6) == 4.0 * d;
    assert Multiple(d, n - 4) == 6.0 * d;
    assert Multiple(d, n - 2) == 8.0 * d;
  }

  /** Ten successful records of a tenth of a cent each cost a cent, and nothing is charged for them. */
  lemma TenTenthsAreNoCent(batch: seq<Record>, k: Key, pricer: Pricer)
    requires |batch| == 10 && pricer.Some? && pricer.value(k.model).input == 1.0
    requires forall i | 0 <= i < |batch| ::
               Counts(batch[i], k) && batch[i].amount == 100 && batch[i].dimension == TOKENS_IN
    ensures Exact(batch, k, Costs(pricer)) >= 1.0 && ChargeOf(Total(batch, k, Costs(pricer))) == 0
  {
    var amount, price := batch[0].amount, pricer.value(k.model).input;
    var d := Cost(amount, price);
    CostOfATenth(amount, price);
    TotalIsRepeated(batch, k, Costs(pricer), d);
    TenTenths(d, |batch|);
    TenTimes(d, |batch|);
  }

  // ---- Rows ----

  /** Whole cents in the usage rows of a tenant's successful records. */
  function RowCents(rows: seq<UsageRow>, t: int): int {
    if rows == [] then 0
    else
      var last := rows[|rows| - 1];
      RowCents(rows[..|rows| - 1], t)
      + (if last.record.status == 1 && last.record.tenant == t then last.costCents else 0)
  }

  lemma RowCentsOne(rows: seq<UsageRow>, made: seq<UsageRow>, row: UsageRow, t: int)
    ensures RowCents(rows + (made + [row]), t)
         == RowCents(rows + made, t) + if row.record.status == 1 && row.record.tenant == t then row.costCents else 0
  {
    var all := rows + (made + [row]);
    assert all[..|all| - 1] == rows + made;
  }

  lemma TenantCentsNext(batch: seq<Record>, t: int, pricer: Pricer)
    requires batch != []
    ensures var last := batch[|batch| - 1];
            TenantTotal(batch, t, Cents(pricer)) == TenantTotal(batch[..|batch| - 1], t, Cents(pricer))
            + (if last.status == 1 && last.tenant == t then CostCents(pricer, last) else 0) as real
  {
  }

  lemma {:induction false} RowCentsAppend(rows: seq<UsageRow>, batch: seq<Record>, pricer: Pricer, id: int, t: int)
    ensures RowCents(rows + RowsOf(batch, pricer, id), t) as real
         == RowCents(rows, t) as real + TenantTotal(batch, t, Cents(pricer))
  {
    if batch == [] {
      assert rows + [] == rows;
    } else {
      var n := |batch| - 1;
      var made := RowsOf(batch[..n], pricer, id);
      RowsNext(batch, pricer, id);
      RowCentsAppend(rows, batch[..n], pricer, id, t);
      RowCentsOne(rows, made, UsageRow(id + n, batch[n], CostCents(pricer, batch[n])), t);
      TenantCentsNext(batch, t, pricer);
    }
  }

  /** The usage rows of a run carry the whole cents of its inserted records. */
  lemma {:induction false} RowsCarryCents(flushes: seq<Flush>, pricer: Pricer, t: int)
    ensures RowCents(PostedAll(START, flushes, pricer).rows, t) as real == RunTotal(flushes, t, Cents(pricer))
  {
    if flushes != [] {
      var n := |flushes| - 1;
      RowsCarryCents(flushes[..n], pricer, t);
      var books := PostedAll(START, flushes[..n], pricer);
      RowCentsAppend(books.rows, flushes[n].batch, pricer, books.nextId, t);
    }
  }

  // ---- Where the records go ----

  function Flushed(flushes: seq<Flush>): seq<Record> {
    if flushes == [] then [] else Flushed(flushes[..|flushes| - 1]) + flushes[|flushes| - 1].batch
  }

  /** The records a worker receives before its end. */
  function Taken(wakes: seq<Wake>): seq<Record> {
    if wakes == [] then []
    else
      var n := |wakes| - 1;
      Taken(wakes[..n]) + (if wakes[n].event.Got? && !HasEnd(wakes[..n]) then wakes[n].event.records else [])
  }

  predicate HasEnd(wakes: seq<Wake>) {
    exists i | 0 <= i < |wakes| :: wakes[i].event.End?
  }

  ghost predicate Sized(flushes: seq<Flush>, most: int) {
    forall i | 0 <= i < |flushes| :: 1 <= |flushes[i].batch| <= most
  }

  ghost predicate InOrder(b: Batching, taken: seq<Record>, size: nat, read: nat) {
    && Flushed(b.flushes) + b.buffer == taken
    && Sized(b.flushes, size - 1 + Max(read, 1))
    && |b.buffer| < size && (b.ended ==> b.buffer == [])
  }

  lemma FlushInOrder(b: Batching, due: bool, weather: Weather, most: int)
    requires Sized(b.flushes, most) && |b.buffer| <= most
    ensures var c := FlushIf(b, due, weather);
            && Flushed(c.flushes) + c.buffer == Flushed(b.flushes) + b.buffer
            && Sized(c.flushes, most) && c.buffer == if due then [] else b.buffer
  {
    assert (b.flushes + [Flush(b.buffer, weather)])[..|b.flushes|] == b.flushes;
  }

  lemma GotInOrder(b: Batching, taken: seq<Record>, w: Wake, size: nat, read: nat)
    requires InOrder(b, taken, size, read) && !b.ended && size >= 1
    requires w.event.Got? && |w.event.records| <= read
    ensures InOrder(Step(b, w, size), taken + w.event.records, size, read)
  {
    var full := b.(buffer := b.buffer + w.event.records);
    Associates(Flushed(b.flushes), b.buffer, w.event.records);
    FlushInOrder(full, |full.buffer| >= size, w.weather, size - 1 + Max(read, 1));
  }

  lemma StepInOrder(b: Batching, taken: seq<Record>, w: Wake, size: nat, read: nat)
    requires InOrder(b, taken, size, read) && !b.ended && size >= 1
    requires w.event.Got? ==> |w.event.records| <= read
    ensures InOrder(Step(b, w, size), taken + (if w.event.Got? then w.event.records else []), size, read)
  {
    if w.event.Got? {
      GotInOrder(b, taken, w, size, read);
    } else {
      assert taken + [] == taken;
      FlushInOrder(b, true, w.weather, size - 1 + Max(read, 1));
    }
  }

  /** `at` are the places of the messages that decode, in order. */
  ghost predicate Decodable(messages: seq<Option<Record>>, at: seq<nat>) {
    && (forall j, k | 0 <= j < k < |at| :: at[j] < at[k])
    && (forall k | 0 <= k < |at| :: at[k] < |messages| && messages[at[k]].Some?)
    && (forall i | 0 <= i < |messages| && messages[i].Some? :: i in at)
  }

  /** A read gives the records of the messages that decode, in order. */
  lemma {:induction false} DecodedExactly(messages: seq<Option<Record>>) returns (at: seq<nat>)
    ensures Decodable(messages, at) && |Decoded(messages)| == |at|
    ensures forall k | 0 <= k < |at| :: messages[at[k]] == Some(Decoded(messages)[k])
    decreases |messages|
  {
    if messages == [] {
      at := [];
    } else {
      var n := |messages| - 1;
      var init, last := messages[..n], messages[n];
      assert messages == init + [last];
      at := DecodedExactly(init);
      if last.Some? {
        OneMoreDecodable(init, last, at);
        at := at + [n];
      }
    }
  }

  lemma OneMoreDecodable(init: seq<Option<Record>>, last: Option<Record>, at: seq<nat>)
    requires Decodable(init, at) && last.Some?
    ensures Decodable(init + [last], at + [|init|])
  {
    var messages, next := init + [last], at + [|init|];
    assert next[|at|] in next;
    forall i | 0 <= i < |messages| && messages[i].Some?
      ensures i in next
    {
      if i < |init| {
        assert i in at;
      }
    }
  }

  /** After a turn that reads these records, and is one for flushing or not. */
  ghost predicate Turned(b: Batching, c: Batching, records: seq<Record>, flushing: bool, size: nat, weather: Weather) {
    var full := b.buffer + records;
    if full != [] && (flushing || |full| >= size) then
      c.buffer == [] && c.flushes == b.flushes + [Flush(full, weather)]
    else c.buffer == full && c.flushes == b.flushes
  }

  /** What each event of the two loops does: ticks, the end of the channel and the stop signal flush, the
      latter two end the loop, and a failed read does nothing. */
  lemma TurnsFlushWhenDue(b: Batching, c: ChannelEvent, s: StreamEvent, weather: Weather, size: nat)
    requires !b.ended && size >= 1
    ensures var t := Step(b, Wake(OnChannel(c), weather), size);
            && Turned(b, t, if c.Received? then [c.record] else [], !c.Received?, size, weather)
            && (t.ended <==> c.Closed? || c.Stopped?)
    ensures var t := Step(b, Wake(OnStream(s), weather), size);
            && (s.ReadFailed? ==> t == b)
            && (!s.ReadFailed? ==> Turned(b, t, if s.Messages? then Decoded(s.messages) else [], !s.Messages?, size, weather))
            && (t.ended <==> s.StreamStopped?)
  {
    assert b.buffer + [] == b.buffer;
  }

  /** Batches and buffer are the records received, in order. A batch holds fewer records than the size
      plus a read; nothing is left in the buffer at the end. */
  lemma {:induction false} BatchesInOrder(wakes: seq<Wake>, size: nat, read: nat)
    requires size >= 1
    requires forall i | 0 <= i < |wakes| :: wakes[i].event.Got? ==> |wakes[i].event.records| <= read
    ensures InOrder(Run(wakes, size), Taken(wakes), size, read)
    ensures Run(wakes, size).ended == HasEnd(wakes)
  {
    if wakes != [] {
      var n := |wakes| - 1;
      var init := wakes[..n];
      BatchesInOrder(init, size, read);
      assert HasEnd(wakes) == (HasEnd(init) || wakes[n].event.End?) by {
        assert forall i | 0 <= i < n :: wakes[i] == init[i];
      }
      if !HasEnd(init) {
        StepInOrder(Run(init, size), Taken(init), wakes[n], size, read);
      }
    }
  }

  /** One record at a time over the channel: batches of at most the batch size. */
  lemma ChannelBatches(events: seq<ChannelEvent>, weather: seq<Weather>, size: nat)
    requires |weather| == |events| && size >= 1
    ensures Sized(Run(ChannelWakes(events, weather), size).flushes, size)
  {
    BatchesInOrder(ChannelWakes(events, weather), size, 1);
  }

  lemma {:induction false} DecodedIsShorter(messages: seq<Option<Record>>)
    ensures |Decoded(messages)| <= |messages|
  {
    if messages != [] {
      DecodedIsShorter(messages[..|messages| - 1]);
    }
  }

  /** Up to a batch size of messages in a read of the stream: batches of less than twice the size. */
  lemma StreamBatches(events: seq<StreamEvent>, weather: seq<Weather>, size: nat)
    requires |weather| == |events| && size >= 1
    requires forall i | 0 <= i < |events| :: events[i].Messages? ==> |events[i].messages| <= size
    ensures Sized(Run(StreamWakes(events, weather), size).flushes, 2 * size - 1)
  {
    var wakes := StreamWakes(events, weather);
    forall i | 0 <= i < |wakes| && wakes[i].event.Got?
      ensures |wakes[i].event.records| <= size
    {
      DecodedIsShorter(events[i].messages);
    }
    BatchesInOrder(wakes, size, size);
  }

  function RowRecords(rows: seq<UsageRow>): seq<Record> {
    if rows == [] then [] else RowRecords(rows[..|rows| - 1]) + [rows[|rows| - 1].record]
  }

  /** The records of the queue's rows before row n, in the order they were written. */
  function LetterRecords(rows: map<int, DeadLetters.Row>, n: int): seq<Record>
    decreases n
  {
    if n <= 1 then []
    else
      LetterRecords(rows, n - 1)
      + (if n - 1 in rows && rows[n - 1].record.Some? then [rows[n - 1].record.value] else [])
  }

  function Letters(q: DeadLetters.Queue): seq<Record> {
    LetterRecords(q.rows, q.nextId)
  }

  lemma RowRecordsOne(rows: seq<UsageRow>, row: UsageRow)
    ensures RowRecords(rows + [row]) == RowRecords(rows) + [row.record]
  {
    assert (rows + [row])[..|rows|] == rows;
  }

  lemma OneMoreRow(rows: seq<UsageRow>, made: seq<UsageRow>, row: UsageRow, init: seq<Record>)
    requires RowRecords(rows + made) == RowRecords(rows) + init
    ensures RowRecords(rows + (made + [row])) == RowRecords(rows) + (init + [row.record])
  {
    Associates(rows, made, [row]);
    RowRecordsOne(rows + made, row);
    Associates(RowRecords(rows), init, [row.record]);
  }

  lemma RowsNext(batch: seq<Record>, pricer: Pricer, id: int)
    requires batch != []
    ensures var n := |batch| - 1;
            RowsOf(batch, pricer, id)
            == RowsOf(batch[..n], pricer, id) + [UsageRow(id + n, batch[n], CostCents(pricer, batch[n]))]
  {
  }

  lemma {:induction false} RowRecordsAppend(rows: seq<UsageRow>, batch: seq<Record>, pricer: Pricer, id: int)
    ensures RowRecords(rows + RowsOf(batch, pricer, id)) == RowRecords(rows) + batch
  {
    if batch == [] {
      assert rows + [] == rows;
    } else {
      var n := |batch| - 1;
      var init, last := batch[..n], batch[n];
      RowRecordsAppend(rows, init, pricer, id);
      RowsNext(batch, pricer, id);
      OneMoreRow(rows, RowsOf(init, pricer, id), UsageRow(id + n, last, CostCents(pricer, last)), init);
      assert init + [last] == batch;
    }
  }

  /** The records whose dead letter is written, or is not. */
  function Sifted(batch: seq<Record>, pushed: nat -> bool, outcome: bool): seq<Record> {
    if batch == [] then []
    else
      var n := |batch| - 1;
      Sifted(batch[..n], pushed, outcome) + (if pushed(n) == outcome then [batch[n]] else [])
  }

  lemma {:induction false} EarlierLetters(rows: map<int, DeadLetters.Row>, id: int, row: DeadLetters.Row, n: int)
    requires n <= id
    ensures LetterRecords(rows[id := row], n) == LetterRecords(rows, n)
    decreases n
  {
    if n > 1 {
      EarlierLetters(rows, id, row, n - 1);
    }
  }

  lemma OneMoreLetter(q: DeadLetters.Queue, taskId: int, r: Record)
    requires q.nextId >= 1
    ensures Letters(DeadLetters.Pushed(q, taskId, Some(r))) == Letters(q) + [r]
  {
    EarlierLetters(q.rows, q.nextId, DeadLetters.Row(taskId, Some(r), 0), q.nextId);
  }

  lemma {:induction false} LettersAppend(q: DeadLetters.Queue, batch: seq<Record>, id: int, pushed: nat -> bool)
    requires q.nextId >= 1
    ensures Letters(Queued(q, batch, id, pushed)) == Letters(q) + Sifted(batch, pushed, true)
    ensures Queued(q, batch, id, pushed).nextId >= 1
  {
    if batch == [] {
      assert Letters(q) + [] == Letters(q);
    } else {
      var n := |batch| - 1;
      LettersAppend(q, batch[..n], id, pushed);
      OneMoreLetter(Queued(q, batch[..n], id, pushed), id + n, batch[n]);
    }
  }

  /** A dead letter that is written carries the id of its usage row and starts without a retry. */
  lemma {:induction false} QueuedRows(q: DeadLetters.Queue, batch: seq<Record>, id: int, pushed: nat -> bool, i: nat)
    returns (at: int)
    requires i < |batch| && pushed(i)
    ensures var r := Queued(q, batch, id, pushed);
            q.nextId <= at < r.nextId && at in r.rows && r.rows[at] == DeadLetters.Row(id + i, Some(batch[i]), 0)
  {
    var n := |batch| - 1;
    QueueGrows(q, batch[..n], id, pushed);
    if i < n {
      at := QueuedRows(q, batch[..n], id, pushed, i);
    } else {
      at := Queued(q, batch[..n], id, pushed).nextId;
    }
  }

  lemma {:induction false} QueueGrows(q: DeadLetters.Queue, batch: seq<Record>, id: int, pushed: nat -> bool)
    ensures Queued(q, batch, id, pushed).nextId == q.nextId + |Sifted(batch, pushed, true)|
  {
    if batch != [] {
      QueueGrows(q, batch[..|batch| - 1], id, pushed);
    }
  }

  lemma OneMore(yes: seq<Record>, no: seq<Record>, batch: seq<Record>, r: Record)
    requires multiset(yes) + multiset(no) == multiset(batch)
    ensures multiset(yes + [r]) + multiset(no) == multiset(batch + [r]) == multiset(yes) + multiset(no + [r])
  {
    assert multiset(yes + [r]) == multiset(yes) + multiset{r};
    assert multiset(no + [r]) == multiset(no) + multiset{r};
    assert multiset(batch + [r]) == multiset(batch) + multiset{r};
  }

  lemma {:induction false} SiftedAdds(batch: seq<Record>, pushed: nat -> bool)
    ensures multiset(Sifted(batch, pushed, true)) + multiset(Sifted(batch, pushed, false)) == multiset(batch)
  {
    if batch != [] {
      var init, r := batch[..|batch| - 1], batch[|batch| - 1];
      SiftedAdds(init, pushed);
      OneMore(Sifted(init, pushed, true), Sifted(init, pushed, false), init, r);
      assert batch == init + [r];
    }
  }

  function Dropped(flushes: seq<Flush>): seq<Record> {
    if flushes == [] then []
    else
      var last := flushes[|flushes| - 1];
      Dropped(flushes[..|flushes| - 1]) + (if last.weather.inserted then [] else Sifted(last.batch, last.weather.pushed, false))
  }

  const START := Books([], DeadLetters.EMPTY, 0)

  /** The records of `all` are those of a, b and c together, each as often. */
  ghost predicate AddsUp(all: seq<Record>, a: seq<Record>, b: seq<Record>, c: seq<Record>) {
    multiset(all) == multiset(a) + multiset(b) + multiset(c)
  }

  lemma AddOne(all: seq<Record>, a: seq<Record>, b: seq<Record>, c: seq<Record>, batch: seq<Record>)
    requires AddsUp(all, a, b, c)
    ensures AddsUp(all + batch, a + batch, b, c)
  {
    assert multiset(all + batch) == multiset(all) + multiset(batch);
    assert multiset(a + batch) == multiset(a) + multiset(batch);
  }

  lemma AddTwo(all: seq<Record>, a: seq<Record>, b: seq<Record>, c: seq<Record>,
               batch: seq<Record>, yes: seq<Record>, no: seq<Record>)
    requires AddsUp(all, a, b, c) && multiset(yes) + multiset(no) == multiset(batch)
    ensures AddsUp(all + batch, a, b + yes, c + no)
  {
    assert multiset(all + batch) == multiset(all) + multiset(batch);
    assert multiset(b + yes) == multiset(b) + multiset(yes);
    assert multiset(c + no) == multiset(c) + multiset(no);
  }

  /** The records that become rows, and those that become dead letters, in the order received. */
  function Inserted(flushes: seq<Flush>): seq<Record> {
    if flushes == [] then []
    else
      var last := flushes[|flushes| - 1];
      Inserted(flushes[..|flushes| - 1]) + (if last.weather.inserted then last.batch else [])
  }

  function Buried(flushes: seq<Flush>): seq<Record> {
    if flushes == [] then []
    else
      var last := flushes[|flushes| - 1];
      Buried(flushes[..|flushes| - 1]) + (if last.weather.inserted then [] else Sifted(last.batch, last.weather.pushed, true))
  }

  ghost predicate InTheirOrder(flushes: seq<Flush>, books: Books) {
    books.dlq.nextId >= 1 && RowRecords(books.rows) == Inserted(flushes) && Letters(books.dlq) == Buried(flushes)
  }

  /** Usage rows and dead letters hold the records in the order they were received. */
  lemma {:induction false} RecordsKeepTheirOrder(flushes: seq<Flush>, pricer: Pricer)
    ensures InTheirOrder(flushes, PostedAll(START, flushes, pricer))
  {
    if flushes != [] {
      var init, f := flushes[..|flushes| - 1], flushes[|flushes| - 1];
      RecordsKeepTheirOrder(init, pricer);
      var books := PostedAll(START, init, pricer);
      if f.weather.inserted {
        RowRecordsAppend(books.rows, f.batch, pricer, books.nextId);
      } else {
        LettersAppend(books.dlq, f.batch, books.nextId, f.weather.pushed);
      }
    }
  }

  /** Every flushed record is inserted, buried or dropped, once. */
  lemma {:induction false} FlushesSplit(flushes: seq<Flush>)
    ensures AddsUp(Flushed(flushes), Inserted(flushes), Buried(flushes), Dropped(flushes))
  {
    if flushes != [] {
      var init, f := flushes[..|flushes| - 1], flushes[|flushes| - 1];
      FlushesSplit(init);
      var all, a, b, c := Flushed(init), Inserted(init), Buried(init), Dropped(init);
      if f.weather.inserted {
        AddOne(all, a, b, c, f.batch);
      } else {
        SiftedAdds(f.batch, f.weather.pushed);
        AddTwo(all, a, b, c, f.batch, Sifted(f.batch, f.weather.pushed, true), Sifted(f.batch, f.weather.pushed, false));
      }
    }
  }

  /** Every flushed record is in exactly one usage row, in exactly one dead letter, or dropped. */
  lemma EveryRecordEndsOnce(flushes: seq<Flush>, pricer: Pricer)
    ensures var books := PostedAll(START, flushes, pricer);
            AddsUp(Flushed(flushes), RowRecords(books.rows), Letters(books.dlq), Dropped(flushes))
  {
    RecordsKeepTheirOrder(flushes, pricer);
    FlushesSplit(flushes);
  }

  ghost predicate Safe(f: Flush) {
    !f.weather.inserted ==> forall i | 0 <= i < |f.batch| :: f.weather.pushed(i)
  }

  lemma {:induction false} UnpushedExactly(batch: seq<Record>, pushed: nat -> bool)
    ensures Sifted(batch, pushed, false) == [] <==> forall i | 0 <= i < |batch| :: pushed(i)
  {
    if batch != [] {
      var n := |batch| - 1;
      UnpushedExactly(batch[..n], pushed);
    }
  }

  lemma {:induction false} DroppedExactly(flushes: seq<Flush>)
    ensures Dropped(flushes) == [] <==> forall i | 0 <= i < |flushes| :: Safe(flushes[i])
  {
    if flushes != [] {
      var n := |flushes| - 1;
      var init, last := flushes[..n], flushes[n];
      DroppedExactly(init);
      UnpushedExactly(last.batch, last.weather.pushed);
      assert Dropped(flushes) == [] <==> Dropped(init) == [] && Safe(last);
      assert forall i | 0 <= i < n :: init[i] == flushes[i];
    }
  }

  /** Of all = rows + letters + dropped, nothing is missing when nothing is dropped. */
  lemma NothingMissing(all: seq<Record>, a: seq<Record>, b: seq<Record>, dropped: seq<Record>, rest: seq<Record>)
    requires AddsUp(all, a, b, dropped)
    ensures AddsUp(all + rest, a, b, rest) <==> dropped == []
  {
    assert multiset(all + rest) == multiset(all) + multiset(rest);
    assert |multiset(all + rest)| == |a| + |b| + |dropped| + |rest|;
    assert |multiset(a) + multiset(b) + multiset(rest)| == |a| + |b| + |rest|;
  }

  /** A worker's records are all in its buffer, in usage rows or in dead letters exactly when each
      failed insert has every one of its dead letters written. */
  lemma NothingIsLostWhenPushesSucceed(wakes: seq<Wake>, size: nat, pricer: Pricer)
    requires size >= 1
    ensures var b := Run(wakes, size);
            var books := PostedAll(START, b.flushes, pricer);
            AddsUp(Taken(wakes), RowRecords(books.rows), Letters(books.dlq), b.buffer)
            <==> forall i | 0 <= i < |b.flushes| :: Safe(b.flushes[i])
  {
    var b := Run(wakes, size);
    var books := PostedAll(START, b.flushes, pricer);
    BatchesInOrder(wakes, size, LongestRead(wakes));
    EveryRecordEndsOnce(b.flushes, pricer);
    DroppedExactly(b.flushes);
    NothingMissing(Flushed(b.flushes), RowRecords(books.rows), Letters(books.dlq), Dropped(b.flushes), b.buffer);
  }

  ghost predicate NeverPushes(w: Weather) {
    forall i :: !w.pushed(i)
  }

  lemma {:induction false} FlushesNeverPush(wakes: seq<Wake>, size: nat)
    requires forall i | 0 <= i < |wakes| :: NeverPushes(wakes[i].weather)
    ensures forall i | 0 <= i < |Run(wakes, size).flushes| :: NeverPushes(Run(wakes, size).flushes[i].weather)
  {
    if wakes != [] {
      FlushesNeverPush(wakes[..|wakes| - 1], size);
    }
  }

  /** Where no dead letter can be written, that is when no insert fails. */
  lemma WithoutDeadLetters(wakes: seq<Wake>, size: nat, pricer: Pricer)
    requires size >= 1 && forall i | 0 <= i < |wakes| :: NeverPushes(wakes[i].weather)
    ensures var b := Run(wakes, size);
            var books := PostedAll(START, b.flushes, pricer);
            AddsUp(Taken(wakes), RowRecords(books.rows), Letters(books.dlq), b.buffer)
            <==> forall i | 0 <= i < |b.flushes| :: b.flushes[i].weather.inserted
  {
    var b := Run(wakes, size);
    NothingIsLostWhenPushesSucceed(wakes, size, pricer);
    BatchesInOrder(wakes, size, LongestRead(wakes));
    FlushesNeverPush(wakes, size);
    forall i | 0 <= i < |b.flushes|
      ensures Safe(b.flushes[i]) <==> b.flushes[i].weather.inserted
    {
      assert NeverPushes(b.flushes[i].weather) && !b.flushes[i].weather.pushed(0);
    }
  }

  function LongestRead(wakes: seq<Wake>): (n: nat)
    ensures forall i | 0 <= i < |wakes| :: wakes[i].event.Got? ==> |wakes[i].event.records| <= n
  {
    if wakes == [] then 0
    else
      var last := wakes[|wakes| - 1].event;
      Max(LongestRead(wakes[..|wakes| - 1]), if last.Got? then |last.records| else 0)
  }
}
