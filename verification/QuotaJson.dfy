/** Two hand-written parsers of quota maps, against any rendering of a flat JSON object of integers. */
module QuotaJson {
  // ---- 64-bit arithmetic ----

  const TWO64 := 0x1_0000_0000_0000_0000
  const TWO63 := 0x8000_0000_0000_0000

  function Wrap64(x: int): (w: int)
    ensures -TWO63 <= w < TWO63
  {
    (x + TWO63) % TWO64 - TWO63
  }

  /** x is y and a multiple of 2^64. */
  ghost predicate Apart(x: int, y: int, k: int) {
    x == y + k * TWO64
  }

  lemma WrapApart(x: int) returns (k: int)
    ensures Apart(Wrap64(x), x, k)
  {
    k := -((x + TWO63) / TWO64);
  }

  lemma ApartWraps(x: int, y: int, k: int)
    requires Apart(x, y, k)
    ensures Wrap64(x) == Wrap64(y)
  {
    assert x + TWO63 == (y + TWO63) + k * TWO64;
    ModShift(y + TWO63, k);
  }

  lemma {:induction false} ModShift(a: int, k: int)
    ensures (a + k * TWO64) % TWO64 == a % TWO64
    decreases if k < 0 then -k else k
  {
    if k > 0 {
      ModShift(a, k - 1);
      assert a + k * TWO64 == a + (k - 1) * TWO64 + TWO64;
    } else if k < 0 {
      ModShift(a, k + 1);
      assert a + k * TWO64 == a + (k + 1) * TWO64 - TWO64;
    }
  }

  lemma WrapAdd(a: int, d: int, p: int)
    requires 0 <= d <= 9
    ensures Wrap64(Wrap64(a) + Wrap64(d * Wrap64(p))) == Wrap64(a + d * p)
  {
    var i := WrapApart(a);
    var j := WrapApart(p);
    var k := WrapApart(d * Wrap64(p));
    assert d * Wrap64(p) == d * p + (d * j) * TWO64 by {
      assert d * (p + j * TWO64) == d * p + (d * j) * TWO64;
    }
    ApartWraps(Wrap64(a) + Wrap64(d * Wrap64(p)), a + d * p, i + d * j + k);
  }

  lemma WrapTimesTen(p: int)
    ensures Wrap64(Wrap64(p) * 10) == Wrap64(p * 10)
  {
    var j := WrapApart(p);
    ApartWraps(Wrap64(p) * 10, p * 10, j * 10);
  }

  // ---- Digits ----

  predicate IsDigit(c: char) {
    '0' <= c <= '9'
  }

  function DigitOf(c: char): (d: nat)
    requires IsDigit(c)
    ensures d <= 9
  {
    (c - '0') as int
  }

  predicate AllDigits(s: string) {
    forall i | 0 <= i < |s| :: IsDigit(s[i])
  }

  /** The number a digit string stands for. */
  function ValueOf(num: string): nat
    requires AllDigits(num)
  {
    if num == [] then 0 else ValueOf(num[..|num| - 1]) * 10 + DigitOf(num[|num| - 1])
  }

  function Pow10(n: nat): nat {
    if n == 0 then 1 else Pow10(n - 1) * 10
  }

  lemma {:induction false} ValueFromLeft(num: string)
    requires AllDigits(num) && num != []
    ensures ValueOf(num) == DigitOf(num[0]) * Pow10(|num| - 1) + ValueOf(num[1..])
  {
    var n := |num| - 1;
    if n == 0 {
      assert num[..0] == [] && num[1..] == [];
    } else {
      ValueFromLeft(num[..n]);
      assert num[..n][1..] == num[1..][..n - 1];
      var d, p, v := DigitOf(num[0]), Pow10(n - 1), ValueOf(num[1..][..n - 1]);
      ShiftLeft(d, p, v);
    }
  }

  lemma ShiftLeft(d: int, p: int, v: int)
    ensures (d * p + v) * 10 == d * (p * 10) + v * 10
  {
  }

  /** The digit loop, in wrapping 64-bit arithmetic. */
  method Number(num: string) returns (v: int)
    requires AllDigits(num)
    ensures v == Wrap64(ValueOf(num))
  {
    v := 0;
    var p := 1;
    var i := |num| - 1;
    assert num[|num|..] == [];
    while i >= 0
      invariant -1 <= i < |num|
      invariant v == Wrap64(ValueOf(num[i + 1..]))
      invariant p == Wrap64(Pow10(|num| - 1 - i))
    {
      ValueFromLeft(num[i..]);
      assert num[i..][1..] == num[i + 1..];
      var d := DigitOf(num[i]);
      WrapAdd(ValueOf(num[i + 1..]), d, Pow10(|num| - 1 - i));
      WrapTimesTen(Pow10(|num| - 1 - i));
      v := Wrap64(v + Wrap64(d * p));
      p := Wrap64(p * 10);
      i := i - 1;
    }
    assert num[0..] == num;
  }

  // ---- The two parsers ----

  datatype Dialect = Device | Portal

  /** `num` holds digits only. */
  datatype State = State(out: map<string, int>, key: string, num: string, inKey: bool)

  const START := State(map[], "", "", false)

  predicate Proper(st: State) {
    AllDigits(st.num)
  }

  function Flushed(st: State): (t: State)
    requires Proper(st)
    ensures Proper(t)
  {
    State(if st.key != "" && st.num != "" then st.out[st.key := Wrap64(ValueOf(st.num))] else st.out, "", "", st.inKey)
  }

  function Next(d: Dialect, st: State, c: char): (t: State)
    requires Proper(st)
    ensures Proper(t)
  {
    if d == Device && c == '{' then st
    else if c == '}' then Flushed(st)
    else if c == '"' then st.(inKey := !st.inKey)
    else if IsDigit(c) then st.(num := st.num + [c])
    else if c == ',' then
      if d == Device then Flushed(st).(inKey := false) else Flushed(st)
    else if st.inKey then st.(key := st.key + [c])
    else st
  }

  function Parsed(d: Dialect, st: State, s: string): (t: State)
    requires Proper(st)
    ensures Proper(t)
  {
    if s == [] then st else Next(d, Parsed(d, st, s[..|s| - 1]), s[|s| - 1])
  }

  function QuotasOf(d: Dialect, s: string): map<string, int> {
    Parsed(d, START, s).out
  }

  method Flush(out: map<string, int>, key: string, num: string) returns (out': map<string, int>)
    requires AllDigits(num)
    ensures out' == Flushed(State(out, key, num, false)).out
  {
    out' := out;
    if key != "" && num != "" {
      var v := Number(num);
      out' := out[key := v];
    }
  }

  method ParseQuotas(s: string) returns (out: map<string, int>)
    ensures out == QuotasOf(Device, s)
  {
    out := map[];
    if s == "" {
      return;
    }
    var depth, key, num, inKey := 0, "", "", false;
    for i := 0 to |s|
      invariant AllDigits(num) && State(out, key, num, inKey) == Parsed(Device, START, s[..i])
    {
      assert s[..i + 1][..i] == s[..i];
      var c := s[i];
      if c == '{' {
        depth := depth + 1;
      } else if c == '}' {
        out := Flush(out, key, num);
        key, num := "", "";
        depth := depth - 1;
      } else if c == '"' {
        inKey := !inKey;
      } else if '0' <= c <= '9' {
        num := num + [c];
      } else if c == ',' {
        out := Flush(out, key, num);
        key, num := "", "";
        inKey := false;
      } else if inKey {
        key := key + [c];
      }
    }
    assert s[..|s|] == s;
  }

  method ParseQuotaJSON(s: string) returns (out: map<string, int>)
    ensures out == QuotasOf(Portal, s)
  {
    out := map[];
    var key, num, inKey := "", "", false;
    for i := 0 to |s|
      invariant AllDigits(num) && State(out, key, num, inKey) == Parsed(Portal, START, s[..i])
    {
      assert s[..i + 1][..i] == s[..i];
      var c := s[i];
      if c == '"' {
        inKey := !inKey;
      } else if '0' <= c <= '9' {
        num := num + [c];
      } else if c == ',' || c == '}' {
        out := Flush(out, key, num);
        key, num := "", "";
      } else if inKey {
        key := key + [c];
      }
    }
    assert s[..|s|] == s;
  }
}
