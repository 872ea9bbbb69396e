/** Variant selection: which of the ten thousand buckets each variant gets, in double arithmetic. */
module AbTest {
  import opened Common
  import opened Float64

  const BUCKETS := 10000

  /** `points` is the allocation in hundredths of a percent, as its DECIMAL(5,2) column holds it. */
  datatype Variant = Variant(id: int, name: string, points: int, isControl: bool)

  /** The double nearest to a number of hundredths. */
  function Hundredths(n: int): real {
    Round(n as real / 100.0)
  }

  function Percent(v: Variant): real {
    Hundredths(v.points)
  }

  function BucketToPercent(bucket: int): real {
    Hundredths(bucket)
  }

  /** The first k allocations, added up as the loop does. */
  function Cumulative(vs: seq<Variant>, k: nat): real
    requires k <= |vs|
  {
    if k == 0 then 0.0 else Round(Cumulative(vs, k - 1) + Percent(vs[k - 1]))
  }

  /** The first k allocations do not reach past the bucket. */
  predicate Reached(bucket: int, vs: seq<Variant>, k: nat)
    requires k <= |vs|
  {
    Cumulative(vs, k) <= BucketToPercent(bucket)
  }

  /** The variant for a bucket, looking from the k-th on. */
  function From(bucket: int, vs: seq<Variant>, k: nat): (i: nat)
    requires k < |vs|
    ensures k <= i < |vs|
    ensures forall j | k < j <= i :: Reached(bucket, vs, j)
    ensures i < |vs| - 1 ==> !Reached(bucket, vs, i + 1)
    decreases |vs| - k
  {
    if !Reached(bucket, vs, k + 1) || k == |vs| - 1 then k else From(bucket, vs, k + 1)
  }

  function Selected(bucket: int, vs: seq<Variant>): (i: nat)
    requires vs != []
    ensures i < |vs|
  {
    From(bucket, vs, 0)
  }

  /** None of the sums up to the variant's is above the bucket's percentage, and the next one is. */
  ghost predicate IsSelected(bucket: int, vs: seq<Variant>, i: nat)
    requires i < |vs|
  {
    var percent := Round(bucket as real / 100.0);
    && (forall j | 0 < j <= i :: Cumulative(vs, j) <= percent)
    && (i == |vs| - 1 || percent < Cumulative(vs, i + 1))
  }

  lemma SelectedIs(bucket: int, vs: seq<Variant>)
    requires vs != []
    ensures IsSelected(bucket, vs, Selected(bucket, vs))
  {
    var i, percent := Selected(bucket, vs), BucketToPercent(bucket);
    forall j | 0 < j <= i
      ensures Cumulative(vs, j) <= percent
    {
      assert Reached(bucket, vs, j);
    }
    if i < |vs| - 1 {
      assert !Reached(bucket, vs, i + 1);
    }
  }

  method SelectVariant(bucket: int, vs: seq<Variant>) returns (v: Option<Variant>)
    ensures v == if vs == [] then None else Some(vs[Selected(bucket, vs)])
    ensures vs != [] ==> exists i :: 0 <= i < |vs| && v == Some(vs[i]) && IsSelected(bucket, vs, i)
  {
    if |vs| == 0 {
      return None;
    }
    SelectedIs(bucket, vs);
    var cumulative := 0.0;
    var bucketPercent := BucketToPercent(bucket);
    for i := 0 to |vs|
      invariant cumulative == Cumulative(vs, i)
      invariant i < |vs| ==> Selected(bucket, vs) == From(bucket, vs, i)
      invariant i == |vs| ==> Selected(bucket, vs) == i - 1
    {
      cumulative := Round(cumulative + Percent(vs[i]));
      if bucketPercent < cumulative {
        return Some(vs[i]);
      }
    }
    return Some(vs[|vs| - 1]);
  }

  // ---- Shares of any allocations ----

  /** How many of the first n buckets select the variant. */
  function Share(vs: seq<Variant>, i: nat, n: nat): nat
    requires vs != []
  {
    if n == 0 then 0 else Share(vs, i, n - 1) + (if Selected(n - 1, vs) == i then 1 else 0)
  }

  /** How many of the first n buckets are below a percentage. */
  function Below(x: real, n: nat): nat {
    if n == 0 then 0 else Below(x, n - 1) + (if BucketToPercent(n - 1) < x then 1 else 0)
  }

  function Greater(x: real, y: real): (m: real)
    ensures m >= x && m >= y && (m == x || m == y)
  {
    if x >= y then x else y
  }

  /** The highest of zero and the first k cumulative percentages. */
  function Peak(vs: seq<Variant>, k: nat): (p: real)
    requires k <= |vs|
    ensures p >= 0.0
  {
    if k == 0 then 0.0 else Greater(Peak(vs, k - 1), Cumulative(vs, k))
  }

  lemma {:induction false} PeakAbove(vs: seq<Variant>, k: nat, j: nat)
    requires 1 <= j <= k <= |vs|
    ensures Cumulative(vs, j) <= Peak(vs, k)
  {
    if j < k {
      PeakAbove(vs, k - 1, j);
    }
  }

  lemma {:induction false} PeakBelow(vs: seq<Variant>, k: nat, bucket: nat)
    requires k <= |vs| && forall j | 1 <= j <= k :: Reached(bucket, vs, j)
    ensures Peak(vs, k) <= BucketToPercent(bucket)
  {
    if k > 0 {
      assert Reached(bucket, vs, k);
      PeakBelow(vs, k - 1, bucket);
    } else {
      RoundGrows(0.0, bucket as real / 100.0);
    }
  }

  /** A variant gets the buckets between two peaks, the last one the rest. */
  lemma SelectedBetween(bucket: nat, vs: seq<Variant>, i: nat)
    requires i < |vs|
    ensures Selected(bucket, vs) == i
            <==> Peak(vs, i) <= BucketToPercent(bucket) && (i == |vs| - 1 || BucketToPercent(bucket) < Peak(vs, i + 1))
  {
    var s := Selected(bucket, vs);
    PeakBelow(vs, s, bucket);
    if s < i {
      PeakAbove(vs, i, s + 1);
    } else if i < s {
      assert forall j | 1 <= j <= i + 1 :: Reached(bucket, vs, j);
      PeakBelow(vs, i + 1, bucket);
    } else if i < |vs| - 1 {
      PeakAbove(vs, i + 1, i + 1);
    }
  }

  lemma {:induction false} ShareFormula(vs: seq<Variant>, i: nat, n: nat)
    requires i < |vs|
    ensures Peak(vs, i) <= Peak(vs, i + 1)
    ensures Share(vs, i, n) == (if i == |vs| - 1 then n else Below(Peak(vs, i + 1), n)) - Below(Peak(vs, i), n)
  {
    if n > 0 {
      ShareFormula(vs, i, n - 1);
      SelectedBetween(n - 1, vs, i);
    }
  }

  lemma {:induction false} ShareWitness(vs: seq<Variant>, i: nat, n: nat) returns (bucket: nat)
    requires vs != [] && Share(vs, i, n) > 0
    ensures bucket < n && Selected(bucket, vs) == i
  {
    if Selected(n - 1, vs) == i {
      bucket := n - 1;
    } else {
      bucket := ShareWitness(vs, i, n - 1);
    }
  }
}
