/** ORDER BY allocation leaves the order of equal allocations open: when that matters. */
module AbOrder {
  import opened Float64
  import opened AbTest
  import opened AbShares

  ghost predicate Ascending(vs: seq<Variant>) {
    forall i, j | 0 <= i < j < |vs| :: vs[i].points <= vs[j].points
  }

  /** An answer of the query for variants `vs`. */
  ghost predicate Loads(ws: seq<Variant>, vs: seq<Variant>) {
    multiset(ws) == multiset(vs) && Ascending(ws)
  }

  ghost predicate Distinct(vs: seq<Variant>) {
    forall i, j | 0 <= i < j < |vs| :: vs[i] != vs[j]
  }

  ghost predicate SameChoice(ws: seq<Variant>, vs: seq<Variant>, bucket: int)
    requires ws != [] && vs != []
  {
    ws[Selected(bucket, ws)] == vs[Selected(bucket, vs)]
  }

  ghost predicate OrderFree(vs: seq<Variant>)
    requires vs != []
  {
    forall ws, bucket | Loads(ws, vs) && ws != [] && 0 <= bucket < BUCKETS :: SameChoice(ws, vs, bucket)
  }

  lemma LoadedHas(ws: seq<Variant>, vs: seq<Variant>, i: nat) returns (j: nat)
    requires multiset(ws) == multiset(vs) && i < |ws|
    ensures j < |vs| && vs[j] == ws[i]
  {
    assert ws[i] in multiset(ws);
    assert ws[i] in vs;
    j :| j < |vs| && vs[j] == ws[i];
  }

  lemma SameLength(ws: seq<Variant>, vs: seq<Variant>)
    requires multiset(ws) == multiset(vs)
    ensures |ws| == |vs|
  {
    assert |multiset(ws)| == |ws| && |multiset(vs)| == |vs|;
  }

  // ---- Every order has the same allocations in the same places ----

  lemma Front(ws: seq<Variant>)
    requires ws != []
    ensures multiset(ws) == multiset(ws[..|ws| - 1]) + multiset{ws[|ws| - 1]}
  {
    assert ws == ws[..|ws| - 1] + [ws[|ws| - 1]];
  }

  lemma Without(vs: seq<Variant>, j: nat)
    requires j < |vs|
    ensures multiset(vs) == multiset(vs[..j] + vs[j + 1..]) + multiset{vs[j]}
  {
    assert vs == vs[..j] + [vs[j]] + vs[j + 1..];
    assert multiset(vs[..j] + vs[j + 1..]) == multiset(vs[..j]) + multiset(vs[j + 1..]);
  }

  lemma OneTaken(a: multiset<Variant>, b: multiset<Variant>, v: Variant)
    requires a + multiset{v} == b + multiset{v}
    ensures a == b
  {
    assert a == a + multiset{v} - multiset{v} == b;
  }

  lemma Moved(ws: seq<Variant>, vs: seq<Variant>, j: nat)
    requires vs != [] && |ws| == |vs| && multiset(ws) == multiset(vs) && j < |vs| && vs[j] == ws[|ws| - 1]
    ensures multiset(ws[..|ws| - 1]) == multiset(vs[..j] + vs[j + 1..])
  {
    Front(ws);
    Without(vs, j);
    OneTaken(multiset(ws[..|ws| - 1]), multiset(vs[..j] + vs[j + 1..]), vs[j]);
  }

  ghost predicate SamePoints(ws: seq<Variant>, vs: seq<Variant>) {
    |ws| == |vs| && forall i | 0 <= i < |vs| :: ws[i].points == vs[i].points
  }

  /** The last of one order stands among the highest of the other. */
  lemma LastIsHighest(ws: seq<Variant>, vs: seq<Variant>, j: nat)
    requires vs != [] && |ws| == |vs| && multiset(ws) == multiset(vs) && Ascending(ws) && Ascending(vs)
    requires j < |vs| && vs[j] == ws[|ws| - 1]
    ensures forall k | j <= k < |vs| :: vs[k].points == ws[|ws| - 1].points
  {
    forall k | j <= k < |vs|
      ensures vs[k].points == ws[|ws| - 1].points
    {
      var i := LoadedHas(vs, ws, k);
      assert i < |ws| - 1 ==> ws[i].points <= ws[|ws| - 1].points;
      assert j < k ==> vs[j].points <= vs[k].points;
    }
  }

  lemma {:induction false} LoadsKeepPoints(ws: seq<Variant>, vs: seq<Variant>)
    requires multiset(ws) == multiset(vs) && Ascending(ws) && Ascending(vs)
    ensures SamePoints(ws, vs)
    decreases |ws|
  {
    SameLength(ws, vs);
    if ws != [] {
      var n := |ws| - 1;
      var j := LoadedHas(ws, vs, n);
      var rest := vs[..j] + vs[j + 1..];
      Moved(ws, vs, j);
      LastIsHighest(ws, vs, j);
      assert Ascending(rest);
      LoadsKeepPoints(ws[..n], rest);
      forall i | 0 <= i < |vs|
        ensures ws[i].points == vs[i].points
      {
        if i < n {
          assert ws[..n][i].points == rest[i].points;
          assert rest[i] == if i < j then vs[i] else vs[i + 1];
        }
      }
    }
  }

  lemma {:induction false} SameCumulative(ws: seq<Variant>, vs: seq<Variant>, k: nat)
    requires |ws| == |vs| && k <= |vs| && forall i | 0 <= i < |vs| :: ws[i].points == vs[i].points
    ensures Cumulative(ws, k) == Cumulative(vs, k)
  {
    if k > 0 {
      SameCumulative(ws, vs, k - 1);
    }
  }

  lemma {:induction false} SameFrom(ws: seq<Variant>, vs: seq<Variant>, bucket: int, k: nat)
    requires |ws| == |vs| && k < |vs| && forall i | 0 <= i < |vs| :: ws[i].points == vs[i].points
    ensures From(bucket, ws, k) == From(bucket, vs, k)
    decreases |vs| - k
  {
    SameCumulative(ws, vs, k + 1);
    if k < |vs| - 1 {
      SameFrom(ws, vs, bucket, k + 1);
    }
  }

  /** No other variant has the same allocation. */
  ghost predicate Alone(vs: seq<Variant>, i: nat)
    requires i < |vs|
  {
    forall j | 0 <= j < |vs| && j != i :: vs[j].points != vs[i].points
  }

  lemma AloneStays(ws: seq<Variant>, vs: seq<Variant>, i: nat)
    requires Loads(ws, vs) && SamePoints(ws, vs) && i < |vs| && Alone(vs, i)
    ensures ws[i] == vs[i]
  {
    var j := LoadedHas(ws, vs, i);
  }

  // ---- With a tie ----

  /** Two neighbours change places. */
  function Swapped(vs: seq<Variant>, i: nat): seq<Variant>
    requires i + 1 < |vs|
  {
    vs[i := vs[i + 1]][i + 1 := vs[i]]
  }

  lemma SameParts(a: seq<Variant>, x: Variant, y: Variant, b: seq<Variant>)
    ensures multiset(a + [x, y] + b) == multiset(a + [y, x] + b)
  {
    assert multiset([x, y]) == multiset([y, x]);
    assert multiset(a + [x, y] + b) == multiset(a) + multiset([x, y]) + multiset(b);
    assert multiset(a + [y, x] + b) == multiset(a) + multiset([y, x]) + multiset(b);
  }

  lemma SwappedParts(vs: seq<Variant>, i: nat)
    requires i + 1 < |vs|
    ensures vs == vs[..i] + [vs[i], vs[i + 1]] + vs[i + 2..]
    ensures Swapped(vs, i) == vs[..i] + [vs[i + 1], vs[i]] + vs[i + 2..]
  {
  }

  lemma SwappedLoads(vs: seq<Variant>, i: nat)
    requires i + 1 < |vs| && Ascending(vs) && vs[i].points == vs[i + 1].points
    ensures Loads(Swapped(vs, i), vs)
  {
    SwappedParts(vs, i);
    SameParts(vs[..i], vs[i], vs[i + 1], vs[i + 2..]);
    SwappedAscends(vs, i);
  }

  lemma SwappedAscends(vs: seq<Variant>, i: nat)
    requires i + 1 < |vs| && Ascending(vs) && vs[i].points == vs[i + 1].points
    ensures Ascending(Swapped(vs, i))
  {
    var ws := Swapped(vs, i);
    assert forall k | 0 <= k < |vs| :: ws[k].points == vs[k].points;
  }

  lemma NeighbourTied(vs: seq<Variant>, k: nat) returns (i: nat)
    requires Ascending(vs) && k < |vs| && !Alone(vs, k)
    ensures i + 1 < |vs| && (i == k || i + 1 == k) && vs[i].points == vs[i + 1].points
  {
    var j :| 0 <= j < |vs| && j != k && vs[j].points == vs[k].points;
    i := if j > k then k else k - 1;
    assert if j > k then vs[k].points <= vs[k + 1].points <= vs[j].points
           else vs[j].points <= vs[k - 1].points <= vs[k].points;
  }

  lemma SwappedChoice(vs: seq<Variant>, i: nat, bucket: nat)
    requires i + 1 < |vs| && vs[i].points == vs[i + 1].points && vs[i] != vs[i + 1]
    requires Selected(bucket, vs) == i || Selected(bucket, vs) == i + 1
    ensures !SameChoice(Swapped(vs, i), vs, bucket)
  {
    SameFrom(Swapped(vs, i), vs, bucket, 0);
  }

  /** A variant that is selected and has an equal: some order gives its place to a neighbour. */
  lemma TieDecides(vs: seq<Variant>, bucket: nat) returns (ws: seq<Variant>)
    requires vs != [] && Ascending(vs) && Distinct(vs) && bucket < BUCKETS && !Alone(vs, Selected(bucket, vs))
    ensures Loads(ws, vs) && ws != [] && !SameChoice(ws, vs, bucket)
  {
    var i := NeighbourTied(vs, Selected(bucket, vs));
    ws := Swapped(vs, i);
    SwappedLoads(vs, i);
    SwappedChoice(vs, i, bucket);
  }

  ghost predicate SelectedAlone(vs: seq<Variant>)
    requires vs != []
  {
    forall bucket | 0 <= bucket < BUCKETS :: Alone(vs, Selected(bucket, vs))
  }

  /** For any allocations: every order the query may give the variants in selects the same variant for
      every bucket if and only if no variant that gets a bucket has an equal allocation beside it. */
  lemma OrderIsFreeExactly(vs: seq<Variant>)
    requires vs != [] && Ascending(vs) && Distinct(vs)
    ensures OrderFree(vs) <==> SelectedAlone(vs)
  {
    if SelectedAlone(vs) {
      forall ws, bucket | Loads(ws, vs) && ws != [] && 0 <= bucket < BUCKETS
        ensures SameChoice(ws, vs, bucket)
      {
        LoadsKeepPoints(ws, vs);
        SameFrom(ws, vs, bucket, 0);
        AloneStays(ws, vs, Selected(bucket, vs));
      }
    }
    if bucket: nat :| bucket < BUCKETS && !Alone(vs, Selected(bucket, vs)) {
      var ws := TieDecides(vs, bucket);
    }
  }

  // ---- Non-negative allocations ----

  /** Only zeros are tied. */
  ghost predicate Untied(vs: seq<Variant>) {
    forall i, j | 0 <= i < j < |vs| :: vs[i].points == vs[j].points ==> vs[i].points == 0
  }

  lemma {:induction false} ZeroLast(vs: seq<Variant>, k: nat)
    requires k <= |vs| && vs != [] && NoNegative(vs) && Ascending(vs) && vs[|vs| - 1].points == 0
    ensures Points(vs, k) == 0
  {
    if k > 0 {
      ZeroLast(vs, k - 1);
    }
  }

  lemma ZeroAddsNothing(vs: seq<Variant>, i: nat)
    requires i < |vs| && NoNegative(vs) && vs[i].points == 0
    ensures Cumulative(vs, i + 1) == Cumulative(vs, i)
  {
    CumulativeIsDouble(vs, i);
    assert Percent(vs[i]) == 0.0;
  }

  /** A variant without an allocation is not selected, while the last one has some. */
  lemma SelectedHasPoints(vs: seq<Variant>, bucket: nat)
    requires vs != [] && NoNegative(vs) && vs[|vs| - 1].points > 0
    ensures vs[Selected(bucket, vs)].points > 0
  {
    var i := Selected(bucket, vs);
    assert Reached(bucket, vs, i) by {
      if i == 0 { RoundGrows(0.0, bucket as real / 100.0); }
    }
    if vs[i].points == 0 {
      ZeroAddsNothing(vs, i);
    }
  }

  lemma UntiedIsAlone(vs: seq<Variant>)
    requires vs != [] && NoNegative(vs) && vs[|vs| - 1].points > 0 && Untied(vs)
    ensures SelectedAlone(vs)
  {
    forall bucket | 0 <= bucket < BUCKETS
      ensures Alone(vs, Selected(bucket, vs))
    {
      SelectedHasPoints(vs, bucket);
    }
  }

  /** Of two neighbours with the same positive allocation one gets a bucket, but for two that have a
      hundredth each and begin where the last bucket ends. */
  lemma NeighboursGetABucket(vs: seq<Variant>, i: nat) returns (bucket: nat)
    requires i + 1 < |vs| && NoNegative(vs) && Points(vs, |vs| - 1) <= BUCKETS
    requires vs[i].points == vs[i + 1].points > 0
    requires i + 2 < |vs| || vs[i].points > 1 || Points(vs, i) < BUCKETS - 1
    ensures bucket < BUCKETS && (Selected(bucket, vs) == i || Selected(bucket, vs) == i + 1)
  {
    SharesOfReached(vs, i);
    SharesOfReached(vs, i + 1);
    PointsGrow(vs, i + 1, |vs| - 1);
    assert Points(vs, i + 1) == Points(vs, i) + vs[i].points;
    assert Points(vs, i + 2) == Points(vs, i + 1) + vs[i + 1].points;
    if Share(vs, i, BUCKETS) > 0 {
      bucket := ShareWitness(vs, i, BUCKETS);
    } else {
      bucket := ShareWitness(vs, i + 1, BUCKETS);
    }
  }

  lemma {:induction false} ZerosBefore(vs: seq<Variant>, i: nat)
    requires 0 < i < |vs| && NoNegative(vs) && Ascending(vs) && vs[i - 1].points == 0
    ensures Points(vs, i) == 0
  {
    if i > 1 {
      ZerosBefore(vs, i - 1);
    }
  }

  /** A tie of positive allocations at which one of the two gets a bucket. */
  lemma TieWithABucket(vs: seq<Variant>, i: nat) returns (bucket: nat)
    requires i + 1 < |vs| && NoNegative(vs) && Ascending(vs) && Points(vs, |vs| - 1) <= BUCKETS
    requires vs[i].points == vs[i + 1].points > 0
    ensures bucket < BUCKETS && !Alone(vs, Selected(bucket, vs))
  {
    if i + 2 < |vs| || vs[i].points > 1 || Points(vs, i) < BUCKETS - 1 {
      bucket := NeighboursGetABucket(vs, i);
    } else {
      if i == 0 || vs[i - 1].points == 0 {
        if i > 0 { ZerosBefore(vs, i); }
        assert false;
      }
      bucket := NeighboursGetABucket(vs, i - 1);
    }
  }

  /** For non-negative allocations of which the last is reached, that is if and only if no two
      variants have the same positive allocation. */
  lemma OrderIsFreeWithoutTies(vs: seq<Variant>)
    requires vs != [] && NoNegative(vs) && Ascending(vs) && Distinct(vs)
    requires vs[|vs| - 1].points > 0 && Points(vs, |vs| - 1) <= BUCKETS
    ensures OrderFree(vs) <==> Untied(vs)
  {
    OrderIsFreeExactly(vs);
    if Untied(vs) {
      UntiedIsAlone(vs);
    } else {
      var i, j :| 0 <= i < j < |vs| && vs[i].points == vs[j].points && vs[i].points != 0;
      assert vs[i].points <= vs[i + 1].points <= vs[j].points;
      var bucket := TieWithABucket(vs, i);
    }
  }
}
