/** Shares of non-negative allocations: rounding moves a boundary by at most one bucket. */
module AbShares {
  import opened Float64
  import opened AbTest

  /** The first k allocations, added up exactly. */
  function Points(vs: seq<Variant>, k: nat): int
    requires k <= |vs|
  {
    if k == 0 then 0 else Points(vs, k - 1) + vs[k - 1].points
  }

  ghost predicate NoNegative(vs: seq<Variant>) {
    forall i | 0 <= i < |vs| :: vs[i].points >= 0
  }

  lemma {:induction false} PointsGrow(vs: seq<Variant>, j: nat, k: nat)
    requires j <= k <= |vs| && NoNegative(vs)
    ensures 0 <= Points(vs, j) <= Points(vs, k)
  {
    if j < k {
      PointsGrow(vs, j, k - 1);
    } else if k > 0 {
      PointsGrow(vs, k - 1, k - 1);
    }
  }

  // ---- The error of a sum ----

  /** More than a rounding adds to the error, for each hundredth of a percent. */
  const DRIFT: real := 0.000000001

  const MANY := 200000

  lemma HundredthsClose(n: int)
    requires 0 <= n <= MANY
    ensures -UNIT * n as real / 100.0 <= Hundredths(n) - n as real / 100.0 <= UNIT * n as real / 100.0
    ensures 0.0 <= Hundredths(n) <= 2001.0
  {
    RoundError(n as real / 100.0);
    RoundGrows(0.0, n as real / 100.0);
  }

  ghost predicate Close(x: real, n: int) {
    -DRIFT * n as real <= x - n as real / 100.0 <= DRIFT * n as real
  }

  /** Adding an allocation to a double gives a double that is no smaller. */
  lemma TermAdded(c: real, p: int)
    requires c >= 0.0 && Round(c) == c && p >= 0
    ensures var d := Round(c + Hundredths(p)); d >= c && Round(d) == d
  {
    RoundGrows(0.0, p as real / 100.0);
    RoundGrows(c, c + Hundredths(p));
    RoundTwice(c + Hundredths(p));
  }

  lemma {:induction false} CumulativeIsDouble(vs: seq<Variant>, k: nat)
    requires k <= |vs| && NoNegative(vs)
    ensures Cumulative(vs, k) >= 0.0 && Round(Cumulative(vs, k)) == Cumulative(vs, k)
  {
    if k > 0 {
      CumulativeIsDouble(vs, k - 1);
      TermAdded(Cumulative(vs, k - 1), vs[k - 1].points);
    }
  }

  lemma CumulativeGrows(vs: seq<Variant>, k: nat)
    requires k <= |vs| && NoNegative(vs)
    ensures Cumulative(vs, k) >= 0.0
    ensures k < |vs| ==> Cumulative(vs, k) <= Cumulative(vs, k + 1)
  {
    CumulativeIsDouble(vs, k);
    if k < |vs| {
      TermAdded(Cumulative(vs, k), vs[k].points);
    }
  }

  lemma OneMoreTerm(c: real, s: int, p: int)
    requires Close(c, s) && c >= 0.0 && 0 <= s && 1 <= p && s + p <= MANY
    ensures Close(Round(c + Hundredths(p)), s + p)
  {
    HundredthsClose(p);
    RoundError(c + Hundredths(p));
  }

  lemma NextTerm(c: real, s: int, p: int)
    requires Close(c, s) && c >= 0.0 && Round(c) == c && 0 <= s && 0 <= p && s + p <= MANY
    ensures Close(Round(c + Hundredths(p)), s + p)
  {
    if p == 0 {
      assert Hundredths(0) == 0.0;
    } else {
      OneMoreTerm(c, s, p);
    }
  }

  lemma CumulativeNext(vs: seq<Variant>, k: nat)
    requires k < |vs| && NoNegative(vs) && Points(vs, k + 1) <= MANY
    requires Close(Cumulative(vs, k), Points(vs, k))
    ensures Close(Cumulative(vs, k + 1), Points(vs, k + 1))
  {
    PointsGrow(vs, 0, k);
    CumulativeIsDouble(vs, k);
    NextTerm(Cumulative(vs, k), Points(vs, k), vs[k].points);
  }

  lemma {:induction false} CumulativeClose(vs: seq<Variant>, k: nat)
    requires k <= |vs| && NoNegative(vs) && Points(vs, k) <= MANY
    ensures Close(Cumulative(vs, k), Points(vs, k))
  {
    if k > 0 {
      PointsGrow(vs, k - 1, k);
      CumulativeClose(vs, k - 1);
      CumulativeNext(vs, k - 1);
    }
  }

  // ---- Boundaries ----

  /** The sum comes out above its own bucket's percentage. */
  predicate RoundsUp(vs: seq<Variant>, k: nat)
    requires k <= |vs|
  {
    0 <= Points(vs, k) < BUCKETS && BucketToPercent(Points(vs, k)) < Cumulative(vs, k)
  }

  function Up(vs: seq<Variant>, k: nat): (u: nat)
    requires k <= |vs|
    ensures u <= 1
  {
    if RoundsUp(vs, k) then 1 else 0
  }

  /** Only the bucket at the boundary can be on the wrong side of it. */
  lemma BucketSide(vs: seq<Variant>, k: nat, bucket: nat)
    requires k <= |vs| && NoNegative(vs) && 0 <= Points(vs, k) <= BUCKETS + 1 && bucket < BUCKETS
    ensures bucket < Points(vs, k) ==> BucketToPercent(bucket) < Cumulative(vs, k)
    ensures bucket > Points(vs, k) ==> BucketToPercent(bucket) > Cumulative(vs, k)
  {
    CumulativeClose(vs, k);
    HundredthsClose(bucket);
  }

  lemma {:induction false} BelowBoundary(vs: seq<Variant>, k: nat, n: nat)
    requires k <= |vs| && NoNegative(vs) && 0 <= Points(vs, k) <= BUCKETS + 1 && n <= BUCKETS
    ensures Below(Cumulative(vs, k), n) == if n <= Points(vs, k) then n else Points(vs, k) + Up(vs, k)
  {
    if n > 0 {
      BelowBoundary(vs, k, n - 1);
      BucketSide(vs, k, n - 1);
    }
  }

  lemma {:induction false} PeakIsCumulative(vs: seq<Variant>, k: nat)
    requires k <= |vs| && NoNegative(vs)
    ensures Peak(vs, k) == Cumulative(vs, k)
  {
    if k > 0 {
      PeakIsCumulative(vs, k - 1);
      CumulativeGrows(vs, k - 1);
    }
  }

  lemma CloseToTheWhole(c: real, n: int)
    requires BUCKETS <= n <= MANY && Close(c, n)
    ensures c > Hundredths(BUCKETS - 1)
  {
    HundredthsClose(BUCKETS - 1);
  }

  lemma ReachesTheWhole(vs: seq<Variant>, k: nat)
    requires 0 < k <= |vs| && NoNegative(vs) && Points(vs, k - 1) < BUCKETS <= Points(vs, k)
    ensures Cumulative(vs, k) > Hundredths(BUCKETS - 1)
  {
    if Points(vs, k) <= MANY {
      CumulativeClose(vs, k);
      CloseToTheWhole(Cumulative(vs, k), Points(vs, k));
    } else {
      CumulativeIsDouble(vs, k - 1);
      LargeTerm(Cumulative(vs, k - 1), vs[k - 1].points);
    }
  }

  /** Sums past the whole stay above the last bucket. */
  lemma {:induction false} PastTheWhole(vs: seq<Variant>, k: nat)
    requires k <= |vs| && NoNegative(vs) && Points(vs, k) >= BUCKETS
    ensures Cumulative(vs, k) > Hundredths(BUCKETS - 1)
  {
    if Points(vs, k - 1) >= BUCKETS {
      CumulativeGrows(vs, k - 1);
      PastTheWhole(vs, k - 1);
    } else {
      ReachesTheWhole(vs, k);
    }
  }

  lemma SumIsAbove(c: real, y: real)
    requires c >= 0.0 && y >= 0.0
    ensures Round(c + Round(y)) >= Round(y)
  {
    RoundGrows(0.0, y);
    RoundGrows(Round(y), c + Round(y));
    RoundTwice(y);
  }

  lemma LargeTerm(c: real, p: int)
    requires c >= 0.0 && p >= BUCKETS
    ensures Round(c + Hundredths(p)) > Hundredths(BUCKETS - 1)
  {
    WholeIsAbove();
    RoundGrows(BUCKETS as real / 100.0, p as real / 100.0);
    SumIsAbove(c, p as real / 100.0);
  }

  lemma WholeIsAbove()
    ensures Hundredths(BUCKETS) > Hundredths(BUCKETS - 1)
  {
    HundredthsClose(BUCKETS);
    HundredthsClose(BUCKETS - 1);
  }

  lemma {:induction false} AllBelow(x: real, n: nat)
    requires n <= BUCKETS && x > Hundredths(BUCKETS - 1)
    ensures Below(x, n) == n
  {
    if n > 0 {
      AllBelow(x, n - 1);
      RoundGrows((n - 1) as real / 100.0, (BUCKETS - 1) as real / 100.0);
    }
  }

  /** Where the k-th variant's buckets begin: where the exact sum puts it, or one bucket further, and
      not past the last; the buckets end where the last variant's do. */
  function Boundary(vs: seq<Variant>, k: nat): int
    requires k <= |vs|
  {
    if k == |vs| || Points(vs, k) >= BUCKETS then BUCKETS else Points(vs, k) + Up(vs, k)
  }

  lemma BoundaryAt(vs: seq<Variant>, k: nat)
    requires k < |vs| && NoNegative(vs)
    ensures Below(Peak(vs, k), BUCKETS) == Boundary(vs, k)
  {
    PointsGrow(vs, 0, k);
    PeakIsCumulative(vs, k);
    if Points(vs, k) >= BUCKETS {
      PastTheWhole(vs, k);
      AllBelow(Cumulative(vs, k), BUCKETS);
    } else {
      BelowBoundary(vs, k, BUCKETS);
    }
  }

  /** How many buckets each variant gets, for all non-negative allocations. */
  lemma SharesShift(vs: seq<Variant>, i: nat)
    requires i < |vs| && NoNegative(vs)
    ensures Share(vs, i, BUCKETS) == Boundary(vs, i + 1) - Boundary(vs, i)
  {
    ShareFormula(vs, i, BUCKETS);
    BoundaryAt(vs, i);
    if i < |vs| - 1 {
      BoundaryAt(vs, i + 1);
    }
  }

  /** As long as the last variant is reached, every other one gets its allocation, or one bucket more
      or less, and the last one what is left. */
  lemma SharesOfReached(vs: seq<Variant>, i: nat)
    requires i < |vs| && NoNegative(vs) && Points(vs, |vs| - 1) <= BUCKETS
    ensures Share(vs, i, BUCKETS) == vs[i].points - Up(vs, i)
            + if i == |vs| - 1 then BUCKETS - Points(vs, |vs|) else Up(vs, i + 1)
  {
    SharesShift(vs, i);
    PointsGrow(vs, i, |vs| - 1);
    if i < |vs| - 1 {
      PointsGrow(vs, i + 1, |vs| - 1);
    }
  }

  ghost predicate Exact(vs: seq<Variant>)
    requires vs != []
  {
    forall i | 0 <= i < |vs| :: Share(vs, i, BUCKETS) == vs[i].points
  }

  ghost predicate NoneRoundsUp(vs: seq<Variant>) {
    forall k | 0 < k < |vs| :: !RoundsUp(vs, k)
  }

  lemma NothingRoundsUp(vs: seq<Variant>)
    ensures Up(vs, 0) == 0
  {
    assert Hundredths(0) == 0.0;
  }

  lemma {:induction false} ExactMeansNoneUp(vs: seq<Variant>, k: nat)
    requires vs != [] && k < |vs| && NoNegative(vs) && Exact(vs) && Points(vs, |vs|) == BUCKETS
    ensures Up(vs, k) == 0
  {
    if k == 0 {
      NothingRoundsUp(vs);
    } else {
      ExactMeansNoneUp(vs, k - 1);
      PointsGrow(vs, |vs| - 1, |vs|);
      SharesOfReached(vs, k - 1);
      assert Share(vs, k - 1, BUCKETS) == vs[k - 1].points;
    }
  }

  /** With allocations adding up to the whole, every variant gets exactly its own if and only if none is
      negative and no sum before the last comes out above its own bucket's percentage. */
  lemma SharesAreAllocations(vs: seq<Variant>)
    requires vs != [] && Points(vs, |vs|) == BUCKETS
    ensures Exact(vs) <==> NoNegative(vs) && NoneRoundsUp(vs)
  {
    if NoNegative(vs) && NoneRoundsUp(vs) {
      PointsGrow(vs, |vs| - 1, |vs|);
      NothingRoundsUp(vs);
      forall i | 0 <= i < |vs|
        ensures Share(vs, i, BUCKETS) == vs[i].points
      {
        SharesOfReached(vs, i);
      }
    }
    if Exact(vs) {
      forall i | 0 <= i < |vs|
        ensures vs[i].points >= 0
      {
        assert Share(vs, i, BUCKETS) == vs[i].points;
      }
      forall k | 0 < k < |vs|
        ensures !RoundsUp(vs, k)
      {
        ExactMeansNoneUp(vs, k);
      }
    }
  }

  // ---- Where a boundary does move ----

  /** A tenth, two and three tenths. */
  lemma Tenths(a: int, b: int, c: int)
    requires a == 10 && b == 20 && c == 30
    ensures Hundredths(a) * 72057594037927936.0 == 7205759403792794.0
    ensures Hundredths(b) * 36028797018963968.0 == 7205759403792794.0
    ensures Hundredths(c) * 18014398509481984.0 == 5404319552844595.0
  {
    RoundAt56(a as real / 100.0);
    RoundAt55(b as real / 100.0);
    RoundAt54(c as real / 100.0);
  }

  lemma TenthsSum(a: int, b: int, c: int)
    requires a == 10 && b == 20 && c == 30
    ensures Round(Hundredths(a) + Hundredths(b)) > Hundredths(c)
  {
    Tenths(a, b, c);
    RoundAt54(Hundredths(a) + Hundredths(b));
  }

  lemma FirstTwoSums(vs: seq<Variant>)
    requires |vs| == 3 && vs[0].points == 10 && vs[1].points == 20
    ensures Points(vs, 1) == 10 && Points(vs, 2) == 30
    ensures !RoundsUp(vs, 1) && RoundsUp(vs, 2)
  {
    assert Points(vs, 0) == 0 && Points(vs, 1) == 10 && Points(vs, 2) == 30;
    RoundTwice(vs[0].points as real / 100.0);
    assert Cumulative(vs, 1) == Round(Cumulative(vs, 0) + Percent(vs[0])) == Percent(vs[0]);
    TenthsSum(vs[0].points, vs[1].points, Points(vs, 2));
  }

  /** Allocations of 0.10, 0.20 and 99.70 per cent get 10, 21 and 9969 buckets. */
  lemma OneBucketMoves(vs: seq<Variant>)
    requires |vs| == 3 && vs[0].points == 10 && vs[1].points == 20 && vs[2].points == 9970
    ensures RoundsUp(vs, 2)
    ensures Share(vs, 0, BUCKETS) == 10 && Share(vs, 1, BUCKETS) == 21 && Share(vs, 2, BUCKETS) == 9969
  {
    FirstTwoSums(vs);
    assert Points(vs, 3) == 10000;
    NothingRoundsUp(vs);
    SharesOfReached(vs, 0);
    SharesOfReached(vs, 1);
    SharesOfReached(vs, 2);
  }
}
