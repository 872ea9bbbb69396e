/** Consumers that act on counts they read earlier: how often they can act before the limit is reached.

    A row has a count. A consumer that holds a copy of the row, with the count as it was read, may act on
    it once; the row's count then becomes the copy's plus one, higher or lower than it was. */
module StaleCounts {
  // ---- Multisets ----

  /** The number of multisets of d elements of b kinds. */
  function Ways(b: nat, d: nat): nat {
    if d == 0 then 1 else if b == 0 then 0 else Ways(b - 1, d) + Ways(b, d - 1)
  }

  function Factorial(n: nat): nat {
    if n == 0 then 1 else n * Factorial(n - 1)
  }

  lemma Regroup(k: nat, p: nat, q: nat, w: nat, f: nat)
    requires p * q * w == f
    ensures (k * p) * q * w == k * f && p * (k * q) * w == k * f
  {
    assert (k * p) * q * w == k * (p * q * w);
    assert p * (k * q) * w == k * (p * q * w);
  }

  lemma SumOfProducts(k: nat, x: nat, y: nat, b: nat, d: nat, f: nat)
    requires k * x == b * f && k * y == d * f
    ensures k * (x + y) == (b + d) * f
  {
    assert k * (x + y) == k * x + k * y;
  }

  lemma {:induction false} FewerKinds(b: nat, d: nat)
    requires d > 0
    requires b > 0 ==> Factorial(d) * Factorial(b - 1) * Ways(b, d) == Factorial(b + d - 1)
    ensures Factorial(d) * Factorial(b) * Ways(b, d) == b * Factorial(b + d - 1)
  {
    if b == 0 {
      WaysOfNone(d);
    } else {
      Regroup(b, Factorial(d), Factorial(b - 1), Ways(b, d), Factorial(b + d - 1));
    }
  }

  /** Ways(b + 1, d) is the binomial coefficient of b + d over d. */
  lemma {:induction false} WaysIsBinomial(b: nat, d: nat)
    ensures Factorial(d) * Factorial(b) * Ways(b + 1, d) == Factorial(b + d)
    decreases b + d
  {
    if d > 0 {
      var f := Factorial(b + d - 1);
      WaysIsBinomial(b, d - 1);
      Regroup(d, Factorial(d - 1), Factorial(b), Ways(b + 1, d - 1), f);
      if b > 0 {
        WaysIsBinomial(b - 1, d);
      }
      FewerKinds(b, d);
      SumOfProducts(Factorial(d) * Factorial(b), Ways(b, d), Ways(b + 1, d - 1), b, d, f);
    }
  }

  lemma WaysOfNone(d: nat)
    requires d > 0
    ensures Ways(0, d) == 0
  {
  }

  lemma {:induction false} WaysGrow(a: nat, b: nat, d: nat)
    requires a <= b
    ensures Ways(a, d) <= Ways(b, d)
    decreases b
  {
    if a < b {
      WaysGrow(a, b - 1, d);
      if d > 0 {
        assert Ways(b, d) == Ways(b - 1, d) + Ways(b, d - 1);
      }
    }
  }

  lemma {:induction false} SomeWay(b: nat, d: nat)
    requires b > 0
    ensures Ways(b, d) >= 1
  {
    if d > 0 {
      SomeWay(b, d - 1);
    }
  }

  lemma {:induction false} WaysOfOne(d: nat)
    ensures Ways(1, d) == 1
  {
    if d > 0 {
      WaysOfOne(d - 1);
    }
  }

  lemma {:induction false} WaysOfTwo(d: nat)
    ensures Ways(2, d) == d + 1
  {
    if d > 0 {
      WaysOfOne(d);
      WaysOfTwo(d - 1);
    }
  }

  lemma WaysSplit(k: nat, d: nat)
    requires k > 0 && d > 0
    ensures Ways(k + 1, d) == Ways(k, d) + Ways(k + 1, d - 1)
    ensures Ways(k, d) >= 1 && Ways(k + 1, d - 1) >= 1
  {
    SomeWay(k, d);
    SomeWay(k + 1, d - 1);
  }

  /** From x to y actions, all but one of Ways(b, e). */
  ghost predicate Gains(x: nat, y: nat, b: nat, e: nat) {
    y + 1 == x + Ways(b, e)
  }

  /** What the others gain, one action, and what all gain from there. */
  lemma GainsAdd(x: nat, y: nat, z: nat, b: nat, e: nat)
    requires b > 1 && e > 0 && Gains(x, y, b - 1, e) && Gains(y + 1, z, b, e - 1)
    ensures Gains(x, z, b, e)
  {
  }

  lemma NothingGained(x: nat, b: nat, e: nat)
    requires b == 1 || e == 0
    ensures Gains(x, x, b, e)
  {
    WaysOfOne(e);
  }

  lemma TwoAreTooMany(n: nat, d: nat)
    requires n >= 2 && d > 0
    ensures Ways(n + 1, d) > d + 1
  {
    WaysOfTwo(d);
    WaysSplit(2, d);
    WaysGrow(3, n + 1, d);
  }

  // ---- Counting copies ----

  /** How many of the consumers' counts are above t; a consumer without a copy counts as above all. */
  function Above(vs: seq<int>, t: int): (n: nat)
    ensures n <= |vs|
  {
    if vs == [] then 0 else Above(vs[..|vs| - 1], t) + if vs[|vs| - 1] > t then 1 else 0
  }

  lemma {:induction false} AboveGrows(vs: seq<int>, ws: seq<int>, t: int)
    requires |vs| == |ws| && forall i | 0 <= i < |vs| :: vs[i] > t ==> ws[i] > t
    ensures Above(vs, t) <= Above(ws, t)
    decreases |vs|
  {
    if vs != [] {
      AboveGrows(vs[..|vs| - 1], ws[..|ws| - 1], t);
    }
  }

  lemma {:induction false} AboveFalls(vs: seq<int>, t: int, u: int)
    requires t <= u
    ensures Above(vs, u) <= Above(vs, t)
    decreases |vs|
  {
    if vs != [] {
      AboveFalls(vs[..|vs| - 1], t, u);
    }
  }

  lemma {:induction false} OneMoreAbove(vs: seq<int>, w: nat, x: int, t: int)
    requires w < |vs| && vs[w] <= t < x
    ensures Above(vs[w := x], t) == Above(vs, t) + 1
    decreases |vs|
  {
    var m := |vs| - 1;
    if w == m {
      assert vs[w := x][..m] == vs[..m];
    } else {
      assert vs[w := x][..m] == vs[..m][w := x];
      OneMoreAbove(vs[..m], w, x, t);
    }
  }

  // ---- What is used up ----

  /** What must have been used up where the count is c and the copies' counts are `vs`. */
  function Used(vs: seq<int>, c: nat, limit: nat): nat
    requires c <= limit
  {
    if c == 0 then 0 else Used(vs, c - 1, limit) + Ways(Above(vs, c - 1), limit - (c - 1))
  }

  /** Copies that are dropped, or read at the count as it is, use up nothing. */
  lemma {:induction false} UsedGrows(vs: seq<int>, ws: seq<int>, c: nat, limit: nat)
    requires c <= limit && |vs| == |ws| && forall i | 0 <= i < |vs| :: ws[i] >= vs[i] || ws[i] >= c
    ensures Used(vs, c, limit) <= Used(ws, c, limit)
  {
    if c > 0 {
      UsedGrows(vs, ws, c - 1, limit);
      AboveGrows(vs, ws, c - 1);
      WaysGrow(Above(vs, c - 1), Above(ws, c - 1), limit - (c - 1));
    }
  }

  lemma {:induction false} UsedClimbs(vs: seq<int>, c: nat, d: nat, limit: nat)
    requires c <= d <= limit
    ensures Used(vs, c, limit) <= Used(vs, d, limit)
  {
    if c < d {
      UsedClimbs(vs, c, d - 1, limit);
    }
  }

  /** Counting on from v costs less than one more copy above v has ways. */
  lemma {:induction false} ClimbingCosts(vs: seq<int>, v: nat, c: nat, limit: nat, b: nat)
    requires v <= c <= limit && Above(vs, v) <= b
    ensures Used(vs, c, limit) + Ways(b + 1, limit - c) <= Used(vs, v, limit) + Ways(b + 1, limit - v)
  {
    if v < c {
      ClimbingCosts(vs, v, c - 1, limit, b);
      AboveFalls(vs, v, c - 1);
      WaysGrow(Above(vs, c - 1), b, limit - (c - 1));
    }
  }

  /** Acting on a copy uses up at least one, however far the count falls. */
  lemma ActingUses(vs: seq<int>, w: nat, none: int, c: nat, limit: nat)
    requires w < |vs| && 0 <= vs[w] < limit <= none && c <= limit
    ensures Used(vs, c, limit) + 1 <= Used(vs[w := none], vs[w] + 1, limit)
  {
    var v, b := vs[w], Above(vs, vs[w]);
    UsedGrows(vs, vs[w := none], v, limit);
    OneMoreAbove(vs, w, none, v);
    if c <= v {
      UsedClimbs(vs, c, v, limit);
      SomeWay(b + 1, limit - v);
    } else {
      ClimbingCosts(vs, v, c, limit, b);
      SomeWay(b + 1, limit - c);
    }
  }

  /** There is an end to what can be used up. */
  lemma UsedAtMost(vs: seq<int>, c: nat, limit: nat)
    requires c <= limit
    ensures Used(vs, c, limit) + 1 <= Ways(|vs| + 1, limit)
  {
    ClimbingCosts(vs, 0, c, limit, |vs|);
    SomeWay(|vs| + 1, limit - c);
  }

  /** How many copies there are. */
  function Copies(vs: seq<int>, limit: nat): nat {
    |vs| - Above(vs, limit - 1)
  }

  /** Even counting one for each copy. */
  lemma {:induction false} CopiesFit(vs: seq<int>, c: nat, limit: nat)
    requires c <= limit && forall i | 0 <= i < |vs| :: vs[i] >= 0
    ensures Used(vs, c, limit) + Copies(vs, limit) + 1 <= Ways(|vs| + 1, limit)
    decreases Copies(vs, limit)
  {
    if w: nat :| w < |vs| && vs[w] < limit {
      OneMoreAbove(vs, w, limit, limit - 1);
      ActingUses(vs, w, limit, c, limit);
      CopiesFit(vs[w := limit], vs[w] + 1, limit);
    } else {
      AllAbove(vs, limit - 1);
      UsedAtMost(vs, c, limit);
    }
  }

  lemma {:induction false} AllAbove(vs: seq<int>, t: int)
    requires forall i | 0 <= i < |vs| :: vs[i] > t
    ensures Above(vs, t) == |vs|
    decreases |vs|
  {
    if vs != [] {
      AllAbove(vs[..|vs| - 1], t);
    }
  }
}
