/** Creating an experiment: the validator adds the numbers that were sent, the column keeps hundredths. */
module AbCreate {
  import opened Common
  import opened Float64
  import opened AbTest
  import opened AbShares
  import opened AbOrder

  /** `percent` is the number in the request. */
  datatype Request = Request(name: string, percent: real, isControl: bool)

  /** The first k numbers, read as doubles and added up. */
  function Total(rs: seq<Request>, k: nat): real
    requires k <= |rs|
  {
    if k == 0 then 0.0 else Round(Total(rs, k - 1) + Round(rs[k - 1].percent))
  }

  predicate Tolerated(total: real) {
    Hundredths(BUCKETS - 1) <= total <= Hundredths(BUCKETS + 1)
  }

  lemma ToleranceIs(total: real)
    ensures Tolerated(total) <==> Round(99.99) <= total <= Round(100.01)
  {
    assert 9999.0 / 100.0 == 99.99 && 10001.0 / 100.0 == 100.01;
  }

  ghost predicate HasControl(rs: seq<Request>) {
    exists i :: 0 <= i < |rs| && rs[i].isControl
  }

  datatype Verdict = Valid | InvalidAllocation | NoControl

  method ValidateAllocation(rs: seq<Request>) returns (verdict: Verdict)
    ensures verdict == InvalidAllocation <==> !Tolerated(Total(rs, |rs|))
    ensures verdict == Valid <==> Tolerated(Total(rs, |rs|)) && HasControl(rs)
  {
    var total := 0.0;
    for i := 0 to |rs|
      invariant total == Total(rs, i)
    {
      total := Round(total + Round(rs[i].percent));
    }
    if total < Hundredths(9999) || total > Hundredths(10001) {
      return InvalidAllocation;
    }
    for i := 0 to |rs|
      invariant forall j | 0 <= j < i :: !rs[j].isControl
    {
      if rs[i].isControl {
        return Valid;
      }
    }
    return NoControl;
  }

  /** DECIMAL(5,2): the nearest hundredth, halves away from zero. */
  function Nearest(x: real): (n: int)
    ensures n as real - 0.5 <= 100.0 * x <= n as real + 0.5
  {
    if x >= 0.0 then (100.0 * x + 0.5).Floor else -(0.5 - 100.0 * x).Floor
  }

  /** A half goes away from zero. */
  lemma HalvesGoOut(x: real)
    ensures x >= 0.0 ==> 100.0 * x < Nearest(x) as real + 0.5
    ensures x < 0.0 ==> Nearest(x) as real - 0.5 < 100.0 * x
    ensures Nearest(-x) == -Nearest(x)
  {
  }

  const MOST := 99999

  predicate Fits(r: Request) {
    -MOST <= Nearest(r.percent) <= MOST
  }

  /** Five digits with two decimals: what rounds to at most 999.99 either way. */
  lemma ColumnHolds(r: Request)
    ensures Fits(r) <==> -999.995 < r.percent < 999.995
  {
    HalvesGoOut(r.percent);
  }

  function Stored(rs: seq<Request>, id: int): (vs: seq<Variant>)
    ensures |vs| == |rs|
    ensures forall i | 0 <= i < |rs| ::
              vs[i] == Variant(id + i, rs[i].name, Nearest(rs[i].percent), rs[i].isControl)
  {
    if rs == [] then []
    else
      var n := |rs| - 1;
      Stored(rs[..n], id) + [Variant(id + n, rs[n].name, Nearest(rs[n].percent), rs[n].isControl)]
  }

  /** The unique key, and the range of the column. */
  ghost predicate Insertable(rs: seq<Request>) {
    && (forall i | 0 <= i < |rs| :: Fits(rs[i]))
    && forall i, j | 0 <= i < j < |rs| :: rs[i].name != rs[j].name
  }

  datatype Creation = NoVariants | Invalid(verdict: Verdict) | InsertFailed | Created(variants: seq<Variant>)

  method CreateExperiment(rs: seq<Request>, nextId: int) returns (c: Creation)
    ensures c == NoVariants <==> rs == []
    ensures c == Invalid(InvalidAllocation) <==> rs != [] && !Tolerated(Total(rs, |rs|))
    ensures c == Invalid(NoControl) <==> rs != [] && Tolerated(Total(rs, |rs|)) && !HasControl(rs)
    ensures c.Created? <==> rs != [] && Tolerated(Total(rs, |rs|)) && HasControl(rs) && Insertable(rs)
    ensures c.Created? ==> c.variants == Stored(rs, nextId)
  {
    if |rs| == 0 {
      return NoVariants;
    }
    var verdict := ValidateAllocation(rs);
    if verdict != Valid {
      return Invalid(verdict);
    }
    var inserted := InsertVariants(rs, nextId);
    return if inserted.None? then InsertFailed else Created(inserted.value);
  }

  lemma {:induction false} InsertableNext(rs: seq<Request>, i: nat, vs: seq<Variant>)
    requires i < |rs| && Insertable(rs[..i])
    requires |vs| == i && forall j | 0 <= j < i :: vs[j].name == rs[j].name
    ensures rs[..i + 1][..i] == rs[..i]
    ensures Insertable(rs[..i + 1]) <==> Fits(rs[i]) && !exists j :: 0 <= j < |vs| && vs[j].name == rs[i].name
    ensures Insertable(rs) ==> Insertable(rs[..i + 1])
  {
    var next := rs[..i + 1];
    assert next[i] == rs[i] && forall j | 0 <= j < i :: next[j] == rs[j] && rs[..i][j] == rs[j];
  }

  method InsertVariants(rs: seq<Request>, nextId: int) returns (inserted: Option<seq<Variant>>)
    ensures inserted.Some? <==> Insertable(rs)
    ensures inserted.Some? ==> inserted.value == Stored(rs, nextId)
  {
    var vs: seq<Variant> := [];
    for i := 0 to |rs|
      invariant vs == Stored(rs[..i], nextId) && Insertable(rs[..i])
    {
      var r := rs[i];
      if !Fits(r) || exists j :: 0 <= j < |vs| && vs[j].name == r.name {
        InsertableNext(rs, i, vs);
        return None;
      }
      InsertableNext(rs, i, vs);
      vs := vs + [Variant(nextId + i, r.name, Nearest(r.percent), r.isControl)];
    }
    assert rs[..|rs|] == rs;
    return Some(vs);
  }

  // ---- What rounding does to the sum ----

  function Sum(rs: seq<Request>, k: nat): real
    requires k <= |rs|
  {
    if k == 0 then 0.0 else Sum(rs, k - 1) + rs[k - 1].percent
  }

  ghost predicate InRange(rs: seq<Request>) {
    forall i | 0 <= i < |rs| :: Fits(rs[i])
  }

  lemma {:induction false} PointsNearSum(rs: seq<Request>, id: int, k: nat)
    requires k <= |rs|
    ensures -(0.5 * k as real) <= Points(Stored(rs, id), k) as real - 100.0 * Sum(rs, k) <= 0.5 * k as real
  {
    if k > 0 {
      PointsNearSum(rs, id, k - 1);
    }
  }

  /** What k additions in doubles can be off by. */
  function Slack(k: nat): (e: real)
    ensures e >= 0.0
  {
    if k == 0 then 0.0 else Slack(k - 1) + UNIT * (1000.0 * k as real + 2002.0 + Slack(k - 1))
  }

  lemma {:induction false} SlackIsSmall(k: nat)
    requires k <= 100000
    ensures Slack(k) <= 0.00000002 * k as real
  {
    if k > 0 {
      SlackIsSmall(k - 1);
    }
  }

  lemma {:induction false} RoundErrorAny(x: real, m: real)
    requires -m <= x <= m
    ensures -(UNIT * m) <= Round(x) - x <= UNIT * m
  {
    if x >= 0.0 {
      RoundError(x);
    } else {
      RoundError(-x);
      RoundOfNegative(x);
    }
  }

  /** One addition: t is off from s by at most e, and s is at most m. */
  lemma {:induction false} OneAddition(t: real, s: real, x: real, e: real, m: real)
    requires -e <= t - s <= e && -m <= s <= m && -1000.0 <= x <= 1000.0
    ensures var next := Round(t + Round(x)) - (s + x);
            -(e + UNIT * (m + e + 3002.0)) <= next <= e + UNIT * (m + e + 3002.0)
  {
    RoundErrorAny(x, 1000.0);
    RoundErrorAny(t + Round(x), m + e + 1001.0);
  }

  lemma {:induction false} TotalNearSum(rs: seq<Request>, k: nat)
    requires k <= |rs| && InRange(rs)
    ensures -(1000.0 * k as real) <= Sum(rs, k) <= 1000.0 * k as real
    ensures -Slack(k) <= Total(rs, k) - Sum(rs, k) <= Slack(k)
  {
    if k > 0 {
      TotalNearSum(rs, k - 1);
      var x := rs[k - 1].percent;
      assert Fits(rs[k - 1]);
      OneAddition(Total(rs, k - 1), Sum(rs, k - 1), x, Slack(k - 1), 1000.0 * (k - 1) as real);
      assert Total(rs, k) == Round(Total(rs, k - 1) + Round(x)) && Sum(rs, k) == Sum(rs, k - 1) + x;
    }
  }

  /** An accepted list is stored with a sum off by at most one hundredth, half a hundredth for each
      variant, and the error of the additions. */
  lemma {:induction false} StoredSumIsClose(rs: seq<Request>, id: int)
    requires InRange(rs) && Tolerated(Total(rs, |rs|))
    ensures var n, off := |rs| as real, (Points(Stored(rs, id), |rs|) - BUCKETS) as real;
            -(1.0 + 0.5 * n + 100.0 * Slack(|rs|) + 0.001) <= off <= 1.0 + 0.5 * n + 100.0 * Slack(|rs|) + 0.001
    ensures |rs| <= 100000 ==> -(2 + |rs|) <= 2 * (Points(Stored(rs, id), |rs|) - BUCKETS) <= 2 + |rs|
  {
    PointsNearSum(rs, id, |rs|);
    TotalNearSum(rs, |rs|);
    HundredthsClose(BUCKETS - 1);
    HundredthsClose(BUCKETS + 1);
    if |rs| <= 100000 {
      SlackIsSmall(|rs|);
    }
  }

  ghost predicate WithinOne(rs: seq<Request>, id: int) {
    BUCKETS - 1 <= Points(Stored(rs, id), |rs|) <= BUCKETS + 1
  }

  // ---- When it stays within one hundredth ----

  ghost predicate WholeHundredths(rs: seq<Request>) {
    forall i | 0 <= i < |rs| :: rs[i].percent == Nearest(rs[i].percent) as real / 100.0
  }

  lemma {:induction false} SameTerm(r: Request, v: Variant)
    requires v.points == Nearest(r.percent) && r.percent == Nearest(r.percent) as real / 100.0
    ensures Percent(v) == Round(r.percent)
  {
  }

  lemma {:induction false} SameTotal(rs: seq<Request>, vs: seq<Variant>, k: nat)
    requires k <= |rs| == |vs| && WholeHundredths(rs)
    requires forall i | 0 <= i < |rs| :: vs[i].points == Nearest(rs[i].percent)
    ensures Total(rs, k) == Cumulative(vs, k)
  {
    if k > 0 {
      SameTotal(rs, vs, k - 1);
      SameTerm(rs[k - 1], vs[k - 1]);
    }
  }

  lemma {:induction false} TooMuchStays(vs: seq<Variant>, k: nat)
    requires k <= |vs| && NoNegative(vs) && Points(vs, k) > BUCKETS + 1
    requires forall i | 0 <= i < |vs| :: vs[i].points <= MOST
    ensures Cumulative(vs, k) > Hundredths(BUCKETS + 1)
  {
    if Points(vs, k - 1) <= BUCKETS + 1 {
      CumulativeClose(vs, k);
      HundredthsClose(BUCKETS + 1);
    } else {
      TooMuchStays(vs, k - 1);
      CumulativeGrows(vs, k - 1);
    }
  }

  /** Non-negative whole hundredths, however many: what is accepted is off by at most one hundredth, and
      the whole is always accepted. */
  lemma {:induction false} WholeHundredthsStay(rs: seq<Request>, id: int)
    requires InRange(rs) && WholeHundredths(rs) && NoNegative(Stored(rs, id))
    ensures Tolerated(Total(rs, |rs|)) ==> WithinOne(rs, id)
    ensures Points(Stored(rs, id), |rs|) == BUCKETS ==> Tolerated(Total(rs, |rs|))
  {
    var vs := Stored(rs, id);
    SameTotal(rs, vs, |rs|);
    PointsGrow(vs, 0, |vs|);
    if Points(vs, |vs|) > BUCKETS + 1 {
      assert forall i | 0 <= i < |vs| :: Fits(rs[i]) ==> vs[i].points <= MOST;
      TooMuchStays(vs, |vs|);
    } else {
      CumulativeClose(vs, |vs|);
      HundredthsClose(BUCKETS - 1);
      HundredthsClose(BUCKETS + 1);
    }
  }

  /** Two halves of 100.01, and nothing for the others. */
  function Halves(n: nat): (rs: seq<Request>)
    requires n >= 2
    ensures |rs| == n
    ensures forall i | 0 <= i < n :: rs[i] == Request("", if i < 2 then 50.005 else 0.0, true)
  {
    if n == 2 then [Request("", 50.005, true), Request("", 50.005, true)]
    else Halves(n - 1) + [Request("", 0.0, true)]
  }

  lemma {:induction false} FirstHalves(rs: seq<Request>, id: int, x: real)
    requires |rs| >= 2 && rs[0].percent == rs[1].percent == x && x == 50.005
    ensures Total(rs, 2) == Round(2.0 * x) && Points(Stored(rs, id), 2) == 10002
  {
    RoundTwice(x);
    assert Total(rs, 0) == 0.0;
    assert Total(rs, 1) == Round(x);
    RoundDouble(x);
    RoundTwice(2.0 * x);
    assert Nearest(x) == 5001;
    var vs := Stored(rs, id);
    assert Points(vs, 0) == 0;
    assert Points(vs, 1) == 5001;
  }

  lemma {:induction false} HalvesTotal(rs: seq<Request>, id: int, x: real, k: nat)
    requires 2 <= k <= |rs| && rs[0].percent == rs[1].percent == x && x == 50.005
    requires forall i | 2 <= i < |rs| :: rs[i].percent == 0.0
    ensures Total(rs, k) == Round(2.0 * x) && Points(Stored(rs, id), k) == 10002
  {
    if k == 2 {
      FirstHalves(rs, id, x);
    } else {
      HalvesTotal(rs, id, x, k - 1);
      RoundTwice(2.0 * x);
      assert Nearest(0.0) == 0;
    }
  }

  /** Every accepted list of n variants is stored within one hundredth of the whole exactly when there
      is at most one variant. */
  lemma {:induction false} WithinOneNeedsOneVariant(n: nat, id: int)
    ensures (forall rs: seq<Request> | |rs| == n && InRange(rs) && Tolerated(Total(rs, n)) :: WithinOne(rs, id)) <==> n <= 1
  {
    if n <= 1 {
      forall rs: seq<Request> | |rs| == n && InRange(rs) && Tolerated(Total(rs, n))
        ensures WithinOne(rs, id)
      {
        StoredSumIsClose(rs, id);
      }
    } else {
      var rs := Halves(n);
      HalvesTotal(rs, id, 50.005, n);
      HundredthsClose(BUCKETS - 1);
      HundredthsClose(BUCKETS + 1);
      assert InRange(rs) && Tolerated(Total(rs, n)) && !WithinOne(rs, id);
    }
  }

  // ---- Shares of what was stored ----

  lemma {:induction false} PointsOfSplit(a: seq<Variant>, b: seq<Variant>, k: nat)
    requires k <= |b|
    ensures Points(a + b, |a| + k) == Points(a, |a|) + Points(b, k)
  {
    if k > 0 {
      PointsOfSplit(a, b, k - 1);
    } else {
      PointsOfPrefix(a, b, |a|);
    }
  }

  lemma {:induction false} PointsOfPrefix(a: seq<Variant>, b: seq<Variant>, k: nat)
    requires k <= |a|
    ensures Points(a + b, k) == Points(a, k)
  {
    if k > 0 {
      PointsOfPrefix(a, b, k - 1);
    }
  }

  lemma {:induction false} PointsWithout(vs: seq<Variant>, j: nat)
    requires j < |vs|
    ensures Points(vs, |vs|) == Points(vs[..j] + vs[j + 1..], |vs| - 1) + vs[j].points
  {
    var a, v, b := vs[..j], [vs[j]], vs[j + 1..];
    assert vs == a + (v + b);
    PointsOfSplit(a, b, |b|);
    PointsOfSplit(a, v + b, |b| + 1);
    PointsOfSplit(v, b, |b|);
    assert Points(v, 1) == Points(v, 0) + v[0].points;
  }

  /** The order of loading does not change the sum. */
  lemma {:induction false} PointsOfLoad(ws: seq<Variant>, vs: seq<Variant>)
    requires multiset(ws) == multiset(vs)
    ensures |ws| == |vs| && Points(ws, |ws|) == Points(vs, |vs|)
    decreases |ws|
  {
    SameLength(ws, vs);
    if ws != [] {
      var n := |ws| - 1;
      var j := LoadedHas(ws, vs, n);
      Moved(ws, vs, j);
      PointsOfLoad(ws[..n], vs[..j] + vs[j + 1..]);
      assert ws == ws[..n] + [ws[n]];
      PointsOfPrefix(ws[..n], [ws[n]], n);
      PointsWithout(vs, j);
    }
  }

  /** The stored list in a loaded order, as long as its last variant is reached: every other variant gets
      its stored allocation give or take one bucket, and the last one give or take what rounding added
      to the sum, and two. */
  lemma {:induction false} SharesOfCreated(rs: seq<Request>, id: int, vs: seq<Variant>, i: nat)
    requires InRange(rs) && Tolerated(Total(rs, |rs|)) && |rs| <= 100000 && Loads(vs, Stored(rs, id))
    requires i < |vs| && NoNegative(vs) && Points(vs, |vs| - 1) <= BUCKETS
    ensures i < |vs| - 1 ==> -1 <= Share(vs, i, BUCKETS) - vs[i].points <= 1
    ensures i == |vs| - 1 ==> -(4 + |vs|) <= 2 * (Share(vs, i, BUCKETS) - vs[i].points) <= 2 + |vs|
  {
    PointsOfLoad(vs, Stored(rs, id));
    StoredSumIsClose(rs, id);
    SharesOfReached(vs, i);
  }

  /** 0.10, 0.20 and 99.70 per cent are accepted as they are, and get 10, 21 and 9969 buckets. */
  lemma {:induction false} TenthsAreAccepted(rs: seq<Request>, id: int)
    requires |rs| == 3 && rs[0].percent == 0.1 && rs[1].percent == 0.2 && rs[2].percent == 99.7
    ensures Tolerated(Total(rs, |rs|))
    ensures var vs := Stored(rs, id);
            Share(vs, 0, BUCKETS) == 10 && Share(vs, 1, BUCKETS) == 21 && Share(vs, 2, BUCKETS) == 9969
  {
    var vs := Stored(rs, id);
    assert Nearest(0.1) == 10 && Nearest(0.2) == 20 && Nearest(99.7) == 9970;
    assert vs[0].points == 10 && vs[1].points == 20 && vs[2].points == 9970;
    assert Points(vs, 0) == 0 && Points(vs, 1) == 10 && Points(vs, 2) == 30;
    WholeHundredthsStay(rs, id);
    OneBucketMoves(vs);
  }

  ghost predicate Sevenths(rs: seq<Request>) {
    |rs| == 7 && forall i | 0 <= i < 7 :: rs[i].percent == 14.286
  }

  lemma {:induction false} SeventhsSum(rs: seq<Request>, id: int, k: nat)
    requires Sevenths(rs) && k <= 7
    ensures Sum(rs, k) == 14.286 * k as real && Points(Stored(rs, id), k) == 1429 * k
  {
    if k > 0 {
      SeventhsSum(rs, id, k - 1);
      assert Nearest(14.286) == 1429;
    }
  }

  /** Seven times 14.286 is accepted, stored as seven times 14.29, and the last variant gets at most 1426
      buckets. */
  lemma {:induction false} SeventhsDrift(rs: seq<Request>, id: int, n: nat)
    requires Sevenths(rs) && n == 7
    ensures Tolerated(Total(rs, n)) && Points(Stored(rs, id), n) == 10003
    ensures Share(Stored(rs, id), n - 1, BUCKETS) <= 1426
  {
    var vs := Stored(rs, id);
    assert Nearest(14.286) == 1429;
    SeventhsSum(rs, id, n);
    SeventhsSum(rs, id, n - 1);
    TotalNearSum(rs, n);
    SlackIsSmall(n);
    HundredthsClose(BUCKETS - 1);
    HundredthsClose(BUCKETS + 1);
    SharesOfReached(vs, n - 1);
  }
}
