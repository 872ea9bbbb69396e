/** Double arithmetic (IEEE 754 binary64): a result is the double nearest to the exact one, ties to
    the even significand. The range of exponents is not bounded here. */
module Float64 {
  // ---- Scaling by powers of two ----

  /** x * 2^e. */
  function Shift(x: real, e: int): real
    decreases if e < 0 then -e else e
  {
    if e == 0 then x else if e > 0 then 2.0 * Shift(x, e - 1) else Shift(x, e + 1) / 2.0
  }

  lemma ShiftNext(x: real, e: int)
    ensures Shift(x, e + 1) == 2.0 * Shift(x, e)
  {
  }

  lemma {:induction false} ShiftShift(x: real, a: int, b: int)
    ensures Shift(Shift(x, a), b) == Shift(x, a + b)
    decreases if b < 0 then -b else b
  {
    if b > 0 {
      ShiftShift(x, a, b - 1);
      ShiftNext(x, a + b - 1);
    } else if b < 0 {
      ShiftShift(x, a, b + 1);
      ShiftNext(x, a + b);
    }
  }

  lemma {:induction false} ShiftGrows(x: real, y: real, e: int)
    ensures x <= y <==> Shift(x, e) <= Shift(y, e)
    ensures x < y <==> Shift(x, e) < Shift(y, e)
    decreases if e < 0 then -e else e
  {
    if e > 0 { ShiftGrows(x, y, e - 1); } else if e < 0 { ShiftGrows(x, y, e + 1); }
  }

  lemma {:induction false} ShiftSum(x: real, y: real, e: int)
    ensures Shift(x + y, e) == Shift(x, e) + Shift(y, e)
    decreases if e < 0 then -e else e
  {
    if e > 0 { ShiftSum(x, y, e - 1); } else if e < 0 { ShiftSum(x, y, e + 1); }
  }

  lemma {:induction false} ShiftZero(e: int)
    ensures Shift(0.0, e) == 0.0
    decreases if e < 0 then -e else e
  {
    if e > 0 { ShiftZero(e - 1); } else if e < 0 { ShiftZero(e + 1); }
  }

  lemma {:induction false} ShiftUp(x: real, a: int, b: int)
    requires x > 0.0 && a <= b
    ensures 0.0 < Shift(x, a) <= Shift(x, b) && (a < b ==> 2.0 * Shift(x, a) <= Shift(x, b))
    decreases b - a
  {
    if a < b {
      ShiftUp(x, a, b - 1);
      ShiftNext(x, b - 1);
    } else {
      ShiftGrows(0.0, x, a);
      ShiftZero(a);
    }
  }

  lemma {:induction false} ShiftInt(n: int, k: nat) returns (m: int)
    ensures Shift(n as real, k) == m as real
  {
    if k == 0 {
      m := n;
    } else {
      var h := ShiftInt(n, k - 1);
      m := 2 * h;
    }
  }

  const TWO52: int := 0x10_0000_0000_0000
  const TWO53: int := 0x20_0000_0000_0000

  lemma ShiftEight(x: real)
    ensures Shift(x, 8) == 256.0 * x
  {
    ShiftShift(x, 4, 4);
    assert Shift(x, 4) == 16.0 * x;
    assert Shift(16.0 * x, 4) == 16.0 * (16.0 * x);
  }

  lemma ShiftSixteen(x: real)
    ensures Shift(x, 16) == 65536.0 * x
  {
    ShiftEight(x);
    ShiftShift(x, 8, 8);
    ShiftEight(256.0 * x);
  }

  lemma ShiftTwentyFour(x: real)
    ensures Shift(x, 24) == 16777216.0 * x
  {
    ShiftSixteen(x);
    ShiftShift(x, 16, 8);
    ShiftEight(Shift(x, 16));
  }

  lemma ShiftFortyEight(x: real)
    ensures Shift(x, 48) == 281474976710656.0 * x
  {
    ShiftTwentyFour(x);
    ShiftShift(x, 24, 24);
    ShiftTwentyFour(Shift(x, 24));
  }

  lemma ShiftFour(x: real)
    ensures Shift(x, 4) == 16.0 * x
  {
  }

  lemma ShiftFiftyTwo(x: real)
    ensures Shift(x, 52) == TWO52 as real * x && Shift(x, 53) == TWO53 as real * x
  {
    ShiftFortyEight(x);
    ShiftShift(x, 48, 4);
    ShiftFour(281474976710656.0 * x);
    ShiftNext(x, 52);
  }

  // ---- The nearest integer ----

  function NearestInt(x: real): (n: int)
    ensures n as real - 0.5 <= x <= n as real + 0.5
  {
    var f := x.Floor;
    var d := x - f as real;
    if d < 0.5 || (d == 0.5 && f % 2 == 0) then f else f + 1
  }

  lemma NearestIntGrows(x: real, y: real)
    requires x <= y
    ensures NearestInt(x) <= NearestInt(y)
  {
  }

  lemma NearestIntOfInt(n: int)
    ensures NearestInt(n as real) == n
  {
  }

  // ---- The nearest double ----

  lemma ProductShrinks(q: real, x: real)
    requires q <= 1.0 && x > 0.0
    ensures q * x <= x
  {
  }

  lemma Inverse(x: real, c: real)
    requires 0.0 < x < c
    ensures c / x > 1.0
  {
    var q := c / x;
    assert q * x == c;
    if q <= 1.0 {
      ProductShrinks(q, x);
    }
  }

  function ExponentRank(x: real): nat
    requires x > 0.0
  {
    if x >= 1.0 then x.Floor else Inverse(x, 1.0); 2 + (1.0 / x).Floor
  }

  lemma ExponentRankFalls(x: real)
    requires x > 0.0
    ensures x >= 2.0 ==> ExponentRank(x / 2.0) < ExponentRank(x)
    ensures x < 1.0 ==> ExponentRank(2.0 * x) < ExponentRank(x)
  {
    if x < 1.0 {
      Inverse(x, 1.0);
      if 2.0 * x < 1.0 {
        var y := 1.0 / x;
        Inverse(2.0 * x, 1.0);
        assert 1.0 / (2.0 * x) == y / 2.0;
      }
    }
  }

  /** The exponent of the significand's leading bit. */
  function Exponent(x: real): (e: int)
    requires x > 0.0
    ensures Shift(1.0, e) <= x < 2.0 * Shift(1.0, e)
    decreases ExponentRank(x)
  {
    ExponentRankFalls(x);
    if x >= 2.0 then
      var e := Exponent(x / 2.0);
      ShiftNext(1.0, e);
      e + 1
    else if x < 1.0 then
      var e := Exponent(2.0 * x);
      ShiftNext(1.0, e - 1);
      e - 1
    else 0
  }

  function Significand(x: real): int
    requires x > 0.0
  {
    NearestInt(Shift(x, 52 - Exponent(x)))
  }

  function RoundPositive(x: real): real
    requires x > 0.0
  {
    Shift(Significand(x) as real, Exponent(x) - 52)
  }

  function Round(x: real): real {
    if x == 0.0 then 0.0 else if x > 0.0 then RoundPositive(x) else -RoundPositive(-x)
  }

  /** The bound on the relative error of a rounding. */
  const UNIT: real := 1.0 / 9007199254740992.0

  lemma ExponentIs(x: real, e: int)
    requires Shift(1.0, e) <= x < 2.0 * Shift(1.0, e) && x > 0.0
    ensures Exponent(x) == e
  {
    var f := Exponent(x);
    if f < e { ShiftUp(1.0, f, e); } else if e < f { ShiftUp(1.0, e, f); }
  }

  lemma ExponentGrows(x: real, y: real)
    requires 0.0 < x <= y
    ensures Exponent(x) <= Exponent(y)
  {
    if Exponent(y) < Exponent(x) {
      ShiftUp(1.0, Exponent(y), Exponent(x));
    }
  }

  /** A significand has fifty-three bits, or is the next power of two. */
  lemma SignificandBounds(x: real)
    requires x > 0.0
    ensures TWO52 as real <= Shift(x, 52 - Exponent(x)) <= TWO53 as real
    ensures TWO52 <= Significand(x) <= TWO53
  {
    var e := Exponent(x);
    var y, one := Shift(x, 52 - e), Shift(1.0, e);
    ShiftShift(1.0, e, 52 - e);
    ShiftFiftyTwo(1.0);
    ShiftGrows(one, x, 52 - e);
    ShiftNext(1.0, e);
    ShiftShift(1.0, e + 1, 52 - e);
    ShiftGrows(x, Shift(1.0, e + 1), 52 - e);
    NearestIntOfInt(TWO52);
    NearestIntOfInt(TWO53);
    NearestIntGrows(TWO52 as real, y);
    NearestIntGrows(y, TWO53 as real);
  }

  /** A rounding stays in its binade, or reaches the start of the next one. */
  lemma RoundInBinade(x: real)
    requires x > 0.0
    ensures Shift(1.0, Exponent(x)) <= Round(x) <= 2.0 * Shift(1.0, Exponent(x))
  {
    var e := Exponent(x);
    SignificandBounds(x);
    ShiftFiftyTwo(1.0);
    ShiftShift(1.0, 52, e - 52);
    ShiftShift(1.0, 53, e - 52);
    ShiftNext(1.0, e);
    ShiftGrows(TWO52 as real, Significand(x) as real, e - 52);
    ShiftGrows(Significand(x) as real, TWO53 as real, e - 52);
  }

  /** Rounding never reverses an order. */
  lemma RoundGrows(x: real, y: real)
    requires 0.0 <= x <= y
    ensures 0.0 <= Round(x) <= Round(y)
  {
    if x > 0.0 {
      var e, f := Exponent(x), Exponent(y);
      ExponentGrows(x, y);
      RoundInBinade(x);
      RoundInBinade(y);
      if e == f {
        ShiftGrows(x, y, 52 - e);
        NearestIntGrows(Shift(x, 52 - e), Shift(y, 52 - e));
        ShiftGrows(Significand(x) as real, Significand(y) as real, e - 52);
      } else {
        ShiftUp(1.0, e, f);
      }
    } else if y > 0.0 {
      RoundInBinade(y);
    }
  }

  lemma ShiftDown(x: real)
    ensures Shift(x, -53) == UNIT * x
  {
    ShiftShift(x, -53, 53);
    ShiftFiftyTwo(Shift(x, -53));
  }

  lemma Halves(m: real, e: int)
    ensures Shift(m - 0.5, e) == Shift(m, e) - Shift(0.5, e) && Shift(m + 0.5, e) == Shift(m, e) + Shift(0.5, e)
  {
    ShiftSum(m - 0.5, 0.5, e);
    ShiftSum(m, 0.5, e);
  }

  /** Half the distance of doubles where x is. */
  lemma RoundWithin(x: real)
    requires x > 0.0
    ensures var half := UNIT * Shift(1.0, Exponent(x));
            -half <= RoundPositive(x) - x <= half
  {
    var e := Exponent(x);
    var y, m := Shift(x, 52 - e), Significand(x) as real;
    ShiftShift(x, 52 - e, e - 52);
    ShiftGrows(m - 0.5, y, e - 52);
    ShiftGrows(y, m + 0.5, e - 52);
    Halves(m, e - 52);
    HalfSpacing(e);
  }

  lemma HalfSpacing(e: int)
    ensures Shift(0.5, e - 52) == UNIT * Shift(1.0, e)
  {
    ShiftShift(1.0, -1, e - 52);
    ShiftShift(1.0, e, -53);
    assert Shift(1.0, -1) == 0.5;
    ShiftDown(Shift(1.0, e));
  }

  /** The error is at most UNIT of the exact result, and of the rounded one. */
  lemma RoundError(x: real)
    requires x >= 0.0
    ensures -(UNIT * x) <= Round(x) - x <= UNIT * x
    ensures -(UNIT * Round(x)) <= Round(x) - x <= UNIT * Round(x)
  {
    if x > 0.0 {
      RoundWithin(x);
      RoundInBinade(x);
    }
  }

  /** A significand, scaled, is a double. */
  lemma RoundOfSignificand(m: int, e: int)
    requires TWO52 <= m <= TWO53
    ensures Shift(m as real, e) > 0.0 && Round(Shift(m as real, e)) == Shift(m as real, e)
  {
    var x := Shift(m as real, e);
    ShiftZero(e);
    ShiftGrows(0.0, m as real, e);
    ShiftFiftyTwo(1.0);
    ShiftShift(1.0, 52, e);
    ShiftShift(1.0, 53, e);
    ShiftNext(1.0, 52 + e);
    ShiftGrows(TWO52 as real, m as real, e);
    ShiftGrows(m as real, TWO53 as real, e);
    if m < TWO53 {
      ExponentIs(x, 52 + e);
      ShiftShift(m as real, e, -e);
      NearestIntOfInt(m);
    } else {
      ShiftNext(1.0, 53 + e);
      ShiftUp(1.0, 53 + e, 54 + e);
      ExponentIs(x, 53 + e);
      ShiftShift(m as real, e, -1 - e);
      assert Shift(m as real, -1) == TWO52 as real;
      NearestIntOfInt(TWO52);
      ShiftNext(TWO52 as real, 0);
      ShiftShift(TWO52 as real, 1, e);
    }
  }

  /** A double is its own rounding. */
  lemma RoundTwice(x: real)
    requires x >= 0.0
    ensures Round(Round(x)) == Round(x)
  {
    if x > 0.0 {
      SignificandBounds(x);
      RoundOfSignificand(Significand(x), Exponent(x) - 52);
    }
  }

  /** Whole numbers up to 2^53 are doubles. */
  lemma RoundOfInt(n: nat)
    requires n <= TWO53
    ensures Round(n as real) == n as real
  {
    if n == TWO53 {
      RoundOfSignificand(TWO53, 0);
    } else if n > 0 {
      var x := n as real;
      var e := Exponent(x);
      ShiftFiftyTwo(1.0);
      if e > 52 { ShiftUp(1.0, 53, e); }
      var m := ShiftInt(n, 52 - e);
      NearestIntOfInt(m);
      ShiftShift(x, 52 - e, e - 52);
    }
  }

  /** Doubling is exact. */
  lemma RoundDouble(x: real)
    requires x >= 0.0
    ensures Round(2.0 * x) == 2.0 * Round(x)
  {
    if x > 0.0 {
      var e := Exponent(x);
      ShiftNext(1.0, e);
      ExponentIs(2.0 * x, e + 1);
      ShiftShift(x, 1, 51 - e);
      assert Shift(x, 1) == 2.0 * x;
      ShiftNext(Significand(x) as real, e - 52);
    }
  }

  /** So is any scaling by a power of two. */
  lemma {:induction false} RoundShift(x: real, k: int)
    requires x >= 0.0
    ensures Shift(x, k) >= 0.0 && Round(Shift(x, k)) == Shift(Round(x), k)
    decreases if k < 0 then -k else k
  {
    if k > 0 {
      RoundShift(x, k - 1);
      RoundDouble(Shift(x, k - 1));
    } else if k < 0 {
      RoundShift(x, k + 1);
      RoundDouble(Shift(x, k));
    }
  }

  lemma RoundOfNegative(x: real)
    ensures Round(-x) == -Round(x)
  {
  }

  lemma ExponentAt(y: real, k: int)
    requires TWO52 as real <= y < TWO53 as real
    ensures Shift(y, -k) > 0.0 && Exponent(Shift(y, -k)) == 52 - k
  {
    var e := 52 - k;
    ShiftFiftyTwo(1.0);
    ShiftShift(1.0, 52, -k);
    ShiftShift(1.0, 53, -k);
    ShiftNext(1.0, e);
    ShiftGrows(TWO52 as real, y, -k);
    ShiftGrows(y, TWO53 as real, -k);
    ShiftGrows(0.0, y, -k);
    ShiftZero(-k);
    ExponentIs(Shift(y, -k), e);
  }

  lemma RoundScaled(y: real, k: int)
    requires TWO52 as real <= y < TWO53 as real
    ensures Shift(Round(Shift(y, -k)), k) == NearestInt(y) as real
  {
    ExponentAt(y, k);
    ShiftShift(y, -k, k);
    ShiftShift(NearestInt(y) as real, -k, k);
  }

  /** A rounding read off the number scaled by 2^k. */
  lemma RoundAt(x: real, y: real, k: int)
    requires y == Shift(x, k) && TWO52 as real <= y < TWO53 as real
    ensures Shift(Round(x), k) == NearestInt(y) as real
  {
    ShiftShift(x, k, -k);
    RoundScaled(y, k);
  }

  /** Scaling by 2^53 to 2^56. */
  lemma Scales(x: real)
    ensures Shift(x, 53) == 9007199254740992.0 * x && Shift(x, 54) == 18014398509481984.0 * x
    ensures Shift(x, 55) == 36028797018963968.0 * x && Shift(x, 56) == 72057594037927936.0 * x
  {
    ShiftFiftyTwo(x);
    ShiftNext(x, 53);
    ShiftNext(x, 54);
    ShiftNext(x, 55);
  }

  lemma RoundAt53(x: real)
    requires TWO52 as real <= 9007199254740992.0 * x < TWO53 as real
    ensures 9007199254740992.0 * Round(x) == NearestInt(9007199254740992.0 * x) as real
  {
    Scales(x);
    Scales(Round(x));
    RoundAt(x, 9007199254740992.0 * x, 53);
  }

  lemma RoundAt54(x: real)
    requires TWO52 as real <= 18014398509481984.0 * x < TWO53 as real
    ensures 18014398509481984.0 * Round(x) == NearestInt(18014398509481984.0 * x) as real
  {
    Scales(x);
    Scales(Round(x));
    RoundAt(x, 18014398509481984.0 * x, 54);
  }

  lemma RoundAt55(x: real)
    requires TWO52 as real <= 36028797018963968.0 * x < TWO53 as real
    ensures 36028797018963968.0 * Round(x) == NearestInt(36028797018963968.0 * x) as real
  {
    Scales(x);
    Scales(Round(x));
    RoundAt(x, 36028797018963968.0 * x, 55);
  }

  lemma RoundAt56(x: real)
    requires TWO52 as real <= 72057594037927936.0 * x < TWO53 as real
    ensures 72057594037927936.0 * Round(x) == NearestInt(72057594037927936.0 * x) as real
  {
    Scales(x);
    Scales(Round(x));
    RoundAt(x, 72057594037927936.0 * x, 56);
  }
}
