/** Powers of two and bit reversal, as `bitrv2` of `gbcom_common/ns/fft4g.cc` needs them. */
module FftBits {

  function Pow2(e: nat): (p: nat)
    ensures p > 0
  {
    if e == 0 then 1 else 2 * Pow2(e - 1)
  }

  function Bit(x: nat, k: nat): nat {
    x / Pow2(k) % 2
  }

  /** The `t` low bits of `x` in reverse order, the highest of them first. */
  function Rev(t: nat, x: nat): (r: nat)
    ensures r < Pow2(t)
  {
    if t == 0 then 0
    else if x < Pow2(t - 1) then 2 * Rev(t - 1, x)
    else 2 * Rev(t - 1, x - Pow2(t - 1)) + 1
  }

  lemma {:induction false} Pow2Sum(d: nat, e: nat)
    ensures Pow2(d + e) == Pow2(d) * Pow2(e)
  {
    if d > 0 {
      Pow2Sum(d - 1, e);
      assert Pow2(d + e) == 2 * Pow2(d - 1 + e);
      Product(Pow2(d - 1), Pow2(e));
    }
  }

  lemma Product(x: int, y: int)
    ensures 2 * (x * y) == (2 * x) * y
  {
  }

  /** A product of a natural and a bound stays below the product of the bounds. */
  lemma BelowProduct(h: nat, d: nat, l: nat, e: nat)
    requires h < e && l < d
    ensures h * d + l < e * d
  {
    assert (h + 1) * d <= e * d;
    assert (h + 1) * d == h * d + d;
  }

  lemma Multiple(k: int, d: nat)
    ensures k >= 1 ==> k * d >= d
    ensures k <= -1 ==> k * d + d <= 0
    ensures k * d - d == (k - 1) * d
  {
    if k >= 1 { assert (k - 1) * d >= 0; }
    if k <= -1 { assert (-k - 1) * d >= 0; }
  }

  lemma Minus(x: int, y: int, d: int)
    ensures (x - y) * d == x * d - y * d
  {
  }

  lemma QuotientRemainder(h: nat, d: nat, l: nat)
    requires l < d
    ensures (h * d + l) / d == h && (h * d + l) % d == l
  {
    var x := h * d + l;
    assert x == (x / d) * d + x % d;
    Minus(x / d, h, d);
    Multiple(x / d - h, d);
  }

  /** Dividing a number below e * d. */
  lemma Quotient(x: nat, d: nat, e: nat)
    requires d > 0 && x < e * d
    ensures x == x / d * d + x % d && x / d < e
  {
    Minus(x / d, e, d);
    Multiple(x / d - e, d);
  }

  lemma Pow2Step(t: nat)
    requires t > 0
    ensures Pow2(t) == 2 * Pow2(t - 1)
  {
  }

  lemma RevLow(t: nat, y: nat)
    requires t > 0 && y < Pow2(t - 1)
    ensures Rev(t, y) == 2 * Rev(t - 1, y)
  {
  }

  lemma RevHigh(t: nat, y: nat)
    requires t > 0 && y < Pow2(t - 1)
    ensures Rev(t, Pow2(t - 1) + y) == 2 * Rev(t - 1, y) + 1
  {
  }

  /** Reversing a number of `u` high and `s` low bits swaps the two groups and reverses each. */
  lemma {:induction false} RevConcat(u: nat, s: nat, hi: nat, lo: nat)
    requires hi < Pow2(u) && lo < Pow2(s)
    ensures Rev(u + s, hi * Pow2(s) + lo) == Rev(s, lo) * Pow2(u) + Rev(u, hi)
  {
    hide Rev, Pow2;
    if u == 0 {
      NoBits(hi);
    } else {
      Pow2Step(u);
      var h := if hi < Pow2(u - 1) then hi else hi - Pow2(u - 1);
      RevConcat(u - 1, s, h, lo);
      RevConcatStep(u, s, hi, h, lo, h * Pow2(s) + lo, hi * Pow2(s) + lo);
    }
  }

  lemma NoBits(hi: nat)
    ensures Pow2(0) == 1 && Rev(0, hi) == 0
  {
  }

  lemma DoubledSum(r: int, x: int, a: int, v: int, p: int)
    requires r == x * a + v && p == 2 * a
    ensures 2 * r == x * p + 2 * v
  {
    Swap2(x, a, p);
  }

  /** One more high bit: y is x behind it. */
  lemma RevConcatStep(u: nat, s: nat, hi: nat, h: nat, lo: nat, x: nat, y: nat)
    requires u > 0 && h < Pow2(u - 1) && (hi == h || hi == h + Pow2(u - 1)) && lo < Pow2(s)
    requires x == h * Pow2(s) + lo && y == hi * Pow2(s) + lo
    requires Rev(u - 1 + s, x) == Rev(s, lo) * Pow2(u - 1) + Rev(u - 1, h)
    ensures Rev(u + s, y) == Rev(s, lo) * Pow2(u) + Rev(u, hi)
  {
    hide Rev, Pow2;
    RevDoubled(u, s, hi, h, lo, x, y);
    Pow2Step(u);
    DoubledSum(Rev(u - 1 + s, x), Rev(s, lo), Pow2(u - 1), Rev(u - 1, h), Pow2(u));
  }

  lemma RevDoubled(u: nat, s: nat, hi: nat, h: nat, lo: nat, x: nat, y: nat)
    requires u > 0 && h < Pow2(u - 1) && (hi == h || hi == h + Pow2(u - 1)) && lo < Pow2(s)
    requires x == h * Pow2(s) + lo && y == hi * Pow2(s) + lo
    ensures var c := if hi == h then 0 else 1;
            Rev(u + s, y) == 2 * Rev(u - 1 + s, x) + c && Rev(u, hi) == 2 * Rev(u - 1, h) + c
  {
    hide Rev, Pow2;
    assert u + s - 1 == u - 1 + s;
    Pow2Sum(u - 1, s);
    BelowProduct(h, Pow2(s), lo, Pow2(u - 1));
    if hi == h {
      RevLow(u + s, x);
      RevLow(u, h);
    } else {
      Distribute(h, Pow2(u - 1), Pow2(s));
      RevHigh(u + s, x);
      RevHigh(u, h);
    }
  }

  lemma Distribute(x: int, y: int, z: int)
    ensures (x + y) * z == x * z + y * z
  {
  }

  lemma Swap2(x: int, y: int, z: int)
    requires z == 2 * y
    ensures x * z == 2 * (x * y)
  {
  }

  /** Reversal undoes itself. */
  lemma {:induction false} RevInvolution(t: nat, x: nat)
    requires x < Pow2(t)
    ensures Rev(t, Rev(t, x)) == x
  {
    if t == 0 {
      assert x == 0;
    } else {
      hide Rev, Pow2;
      var p := Pow2(t - 1);
      var y := if x < p then x else x - p;
      Pow2Step(t);
      RevInvolution(t - 1, y);
      if x < p { RevLow(t, y); } else { RevHigh(t, y); }
      LowBitFirst(t, Rev(t - 1, y), if x < p then 0 else 1);
    }
  }

  lemma LowBitFirst(t: nat, r: nat, c: nat)
    requires t > 0 && r < Pow2(t - 1) && c < 2
    ensures Rev(t, 2 * r + c) == (if c == 0 then 0 else Pow2(t - 1)) + Rev(t - 1, r)
  {
    assert Pow2(0) == 1 && Pow2(1) == 2 && Rev(1, c) == c;
    RevConcat(t - 1, 1, r, c);
  }

  /** Bit k of the reversal is bit t - 1 - k of the number. */
  lemma {:induction false} RevBits(t: nat, x: nat, k: nat)
    requires x < Pow2(t) && k < t
    ensures Bit(Rev(t, x), k) == Bit(x, t - 1 - k)
  {
    hide Bit;
    var p := Pow2(t - 1);
    Pow2Step(t);
    var c, y := if x < p then 0 else 1, if x < p then x else x - p;
    var r := Rev(t - 1, y);
    if c == 0 { RevLow(t, y); } else { RevHigh(t, y); }
    if k > 0 {
      RevBits(t - 1, y, k - 1);
      HalfBit(r, c, k);
      if c == 1 { TopBit(y, t - 1, t - 1 - k); }
    } else {
      LowBit(r, c);
      HighBit(y, t - 1);
    }
  }

  lemma LowBit(r: nat, c: nat)
    requires c < 2
    ensures Bit(2 * r + c, 0) == c
  {
    assert Pow2(0) == 1;
  }

  lemma HighBit(y: nat, t: nat)
    requires y < Pow2(t)
    ensures Bit(y, t) == 0 && Bit(Pow2(t) + y, t) == 1
  {
    QuotientRemainder(0, Pow2(t), y);
    QuotientRemainder(1, Pow2(t), y);
  }

  lemma HalfBit(r: nat, c: nat, k: nat)
    requires c < 2 && k > 0
    ensures Bit(2 * r + c, k) == Bit(r, k - 1)
  {
    var d := Pow2(k - 1);
    var q, e := r / d, r % d;
    assert r == q * d + e;
    assert 2 * r + c == q * (2 * d) + (2 * e + c) by { Swap2(q, d, 2 * d); }
    QuotientRemainder(q, 2 * d, 2 * e + c);
  }

  lemma TopBit(y: nat, t: nat, k: nat)
    requires y < Pow2(t) && k < t
    ensures Bit(Pow2(t) + y, k) == Bit(y, k)
  {
    hide Pow2;
    Pow2Sum(k, t - 1 - k);
    Pow2Step(t);
    DivShift(y, Pow2(k), Pow2(t - 1 - k));
    EvenShift(Pow2(t - 1 - k), y / Pow2(k));
  }

  lemma EvenShift(g: nat, x: int)
    ensures (2 * g + x) % 2 == x % 2
  {
  }

  lemma DivShift(y: nat, d: nat, g: nat)
    requires d > 0
    ensures (2 * (d * g) + y) / d == 2 * g + y / d
  {
    assert y == y / d * d + y % d;
    ShiftedQuotient(y, d, g, y / d, y % d);
  }

  lemma ShiftedQuotient(y: nat, d: nat, g: nat, q: nat, e: nat)
    requires e < d && y == q * d + e
    ensures (2 * (d * g) + y) / d == 2 * g + q
  {
    QuotientRemainder(2 * g + q, d, e);
    assert 2 * (d * g) + y == (2 * g + q) * d + e by {
      Distribute(2 * g, q, d);
      Product(g, d);
    }
  }

  lemma {:induction false} Pow2Order(d: nat, e: nat)
    requires d <= e
    ensures Pow2(d) <= Pow2(e) && (d < e ==> Pow2(d) < Pow2(e))
    decreases e - d
  {
    if d < e { Pow2Order(d, e - 1); }
  }
}
