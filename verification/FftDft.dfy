/** What the passes of `gbcom_common/ns/fft4g.cc` compute: with a table of roots of unity, the
    discrete Fourier transform. */
module FftDft {
  import opened FftBits
  import opened FftComplex
  import opened FftPass
  import opened FftTransform
  import opened FftBitReversal

  // ---------- complex arithmetic ----------

  lemma MulComm(x: Complex, y: Complex)
    ensures Mul(x, y) == Mul(y, x)
  {
  }

  lemma MulAssociates(x: Complex, y: Complex, z: Complex)
    ensures Mul(Mul(x, y), z) == Mul(x, Mul(y, z))
  {
    Brackets(x.re, x.im, y.re, y.im, z.re, z.im);
    Brackets(x.re, x.im, y.re, y.im, z.im, -z.re);
    Minus(y.re, z.re);
    Minus(y.im, z.re);
    Minus(x.re * y.im + x.im * y.re, z.re);
  }

  lemma Brackets(a: real, b: real, c: real, d: real, e: real, f: real)
    ensures (a * c - b * d) * e - (a * d + b * c) * f == a * (c * e - d * f) - b * (c * f + d * e)
  {
    assert (a * c - b * d) * e == (a * c) * e - (b * d) * e;
    assert (a * d + b * c) * f == (a * d) * f + (b * c) * f;
    Triple(a, c, e);
    Triple(b, d, e);
    Triple(a, d, f);
    Triple(b, c, f);
    assert a * (c * e - d * f) == a * (c * e) - a * (d * f);
    assert b * (c * f + d * e) == b * (c * f) + b * (d * e);
  }

  lemma Minus(a: real, b: real)
    ensures a * -b == -(a * b)
  {
  }

  lemma Triple(a: real, b: real, c: real)
    ensures (a * b) * c == a * (b * c)
  {
  }

  lemma MulAdd(x: Complex, y: Complex, z: Complex)
    ensures Mul(Add(x, y), z) == Add(Mul(x, z), Mul(y, z))
  {
  }

  lemma AddZero(x: Complex)
    ensures Add(x, ZERO) == x && Add(ZERO, x) == x
  {
  }

  lemma AddAssociates(x: Complex, y: Complex, z: Complex)
    ensures Add(Add(x, y), z) == Add(x, Add(y, z))
  {
  }

  function Power(z: Complex, k: nat): Complex {
    if k == 0 then ONE else Mul(z, Power(z, k - 1))
  }

  lemma MulOne(z: Complex)
    ensures Mul(ONE, z) == z && Mul(z, ONE) == z
  {
  }

  lemma {:induction false} PowerSum(z: Complex, a: nat, b: nat)
    ensures Power(z, a + b) == Mul(Power(z, a), Power(z, b))
  {
    hide Mul;
    if a == 0 {
      MulOne(Power(z, b));
    } else {
      PowerSum(z, a - 1, b);
      assert a + b - 1 == a - 1 + b;
      MulAssociates(z, Power(z, a - 1), Power(z, b));
    }
  }

  lemma {:induction false} PowerProduct(z: Complex, a: nat, b: nat)
    ensures Power(Power(z, a), b) == Power(z, a * b)
  {
    hide Mul;
    if b > 0 {
      PowerProduct(z, a, b - 1);
      MinusOne(a, b);
      PowerSum(z, a, a * (b - 1));
    }
  }

  lemma MinusOne(a: nat, b: nat)
    requires b > 0
    ensures a * b == a + a * (b - 1)
  {
  }

  lemma {:induction false} PowerOfOne(k: nat)
    ensures Power(ONE, k) == ONE
  {
    hide Mul;
    if k > 0 {
      PowerOfOne(k - 1);
      MulOne(ONE);
    }
  }

  lemma {:induction false} PowerNorm(z: Complex, k: nat)
    requires Norm(z) == 1.0
    ensures Norm(Power(z, k)) == 1.0
  {
    hide Mul, Norm;
    if k == 0 {
      assert Norm(ONE) == 1.0 by { NormOfOne(); }
    } else {
      PowerNorm(z, k - 1);
      NormMul(z, Power(z, k - 1));
    }
  }

  lemma NormOfOne()
    ensures Norm(ONE) == 1.0
  {
  }

  lemma NormMul(x: Complex, y: Complex)
    ensures Norm(Mul(x, y)) == Norm(x) * Norm(y)
  {
    var a, b, c, d := x.re, x.im, y.re, y.im;
    Square(a * c, b * d);
    SquareSum(a * d, b * c);
    Cross(a, b, c, d);
  }

  lemma Square(x: real, y: real)
    ensures (x - y) * (x - y) == x * x - 2.0 * (x * y) + y * y
  {
  }

  lemma SquareSum(x: real, y: real)
    ensures (x + y) * (x + y) == x * x + 2.0 * (x * y) + y * y
  {
  }

  lemma Cross(a: real, b: real, c: real, d: real)
    ensures (a * c) * (b * d) == (a * d) * (b * c)
    ensures (a * c) * (a * c) + (b * d) * (b * d) + (a * d) * (a * d) + (b * c) * (b * c)
         == (a * a + b * b) * (c * c + d * d)
  {
  }

  // ---------- the roots of unity ----------

  const IMAGINARY := Complex(0.0, 1.0)

  /** z is a 2^q-th root of unity whose quarter turn is the imaginary unit. */
  ghost predicate Root(z: Complex, q: nat) {
    q >= 2 && Norm(z) == 1.0 && Power(z, Pow2(q - 2)) == IMAGINARY
  }

  predicate InTable(q: nat, g: int) {
    q >= 2 && 0 < g < Pow2(q - 2)
  }

  /** The table `makewt` is meant to fill: entry g is the power of z with the reversed exponent. */
  ghost predicate TableOf(w: seq<real>, z: Complex, q: nat) {
    forall g | InTable(q, g) :: Pair(w, g) == Power(z, Rev(q - 2, g))
  }

  lemma EntryIsPower(w: seq<real>, z: Complex, q: nat, g: nat)
    requires q >= 2 && TableOf(w, z, q) && g < Pow2(q - 2)
    ensures Entry(w, g) == Power(z, Rev(q - 2, g))
  {
    if g == 0 { RevZero(q - 2); }
  }

  lemma {:induction false} RevZero(t: nat)
    ensures Rev(t, 0) == 0
  {
    if t > 0 { RevZero(t - 1); }
  }

  /** The factors of group g are the powers 1, 2, 3 of its table entry. */
  lemma FactorsArePowers(w: seq<real>, z: Complex, q: nat, g: nat)
    requires Root(z, q) && TableOf(w, z, q) && g < Pow2(q - 2)
    ensures var u := Power(z, Rev(q - 2, g));
            Factors(w, g) == Twiddle(u, Mul(u, u), Mul(u, Mul(u, u)))
  {
    hide Rev, Power, Mul, Norm, Third, Second, First;
    var u := Power(z, Rev(q - 2, g));
    PowerNorm(z, Rev(q - 2, g));
    ThirdIsCube(u);
    FirstIsPower(w, z, q, g);
    SecondIsSquare(w, z, q, g);
  }

  lemma FirstIsPower(w: seq<real>, z: Complex, q: nat, g: nat)
    requires Root(z, q) && TableOf(w, z, q) && g < Pow2(q - 2)
    ensures First(w, g) == Power(z, Rev(q - 2, g))
  {
    EntryIsPower(w, z, q, g);
    if g == 1 {
      hide Rev, Power, Norm, Second;
      var u := Power(z, Rev(q - 2, 1));
      SecondIsSquare(w, z, q, 1);
      assert Second(w, 1) == IMAGINARY by { SecondOfOne(w); }
      PowerNorm(z, Rev(q - 2, 1));
      EqualParts(u);
    }
  }

  lemma SecondOfOne(w: seq<real>)
    ensures Second(w, 1) == IMAGINARY
  {
    assert 1 / 2 == 0;
  }

  /** A square root of the imaginary unit on the unit circle has equal parts. */
  lemma EqualParts(u: Complex)
    requires Norm(u) == 1.0 && Mul(u, u) == IMAGINARY
    ensures u.re == u.im
  {
    assert (u.re - u.im) * (u.re + u.im) == u.re * u.re - u.im * u.im;
    if u.re == -u.im {
      assert u.re * u.im == -(u.re * u.re);
    }
  }

  lemma SecondIsSquare(w: seq<real>, z: Complex, q: nat, g: nat)
    requires Root(z, q) && TableOf(w, z, q) && g < Pow2(q - 2)
    ensures var u := Power(z, Rev(q - 2, g)); Second(w, g) == Mul(u, u)
  {
    hide Rev, Power, Mul, Norm, Pow2;
    var r := Rev(q - 2, g);
    PowerSum(z, r, r);
    var k, b := g / 2, g % 2;
    EntryIsPower(w, z, q, k);
    TwiceReversed(q - 2, k, b);
    PowerSum(z, Pow2(q - 2), Rev(q - 2, k));
    TurnedIsProduct(Power(z, Rev(q - 2, k)));
  }

  lemma TurnedIsProduct(x: Complex)
    ensures Turned(x) == Mul(IMAGINARY, x)
  {
  }

  /** Doubling a reversal drops the last bit, which counts for a whole turn of the others. */
  lemma TwiceReversed(t: nat, k: nat, b: nat)
    requires b < 2 && 2 * k + b < Pow2(t)
    ensures 2 * Rev(t, 2 * k + b) == (if b == 0 then 0 else Pow2(t)) + Rev(t, k)
  {
    if t == 0 {
      assert k == 0 && b == 0;
      RevZero(0);
    } else {
      Pow2Step(t);
      LowBitFirst(t, k, b);
      RevLow(t, k);
    }
  }

  // ---------- sums over ranges of the reversed array ----------

  /** The terms lo, ..., hi - 1 of output o of the transform of x, whose places are reversed. */
  function Part(x: seq<real>, z: Complex, q: nat, lo: nat, hi: nat, o: nat): Complex
    decreases hi
  {
    if lo >= hi then ZERO
    else Add(Part(x, z, q, lo, hi - 1, o), Mul(Pair(x, hi - 1), Power(z, Rev(q, hi - 1) * o)))
  }

  lemma {:induction false} PartSplit(x: seq<real>, z: Complex, q: nat, lo: nat, mid: nat, hi: nat, o: nat)
    requires lo <= mid <= hi
    ensures Part(x, z, q, lo, hi, o) == Add(Part(x, z, q, lo, mid, o), Part(x, z, q, mid, hi, o))
    decreases hi
  {
    hide Mul, Add, Pair, Power, Rev;
    if mid < hi {
      PartSplit(x, z, q, lo, mid, hi - 1, o);
      AddAssociates(Part(x, z, q, lo, mid, o), Part(x, z, q, mid, hi - 1, o),
                    Mul(Pair(x, hi - 1), Power(z, Rev(q, hi - 1) * o)));
    } else {
      AddZero(Part(x, z, q, lo, mid, o));
    }
  }

  predicate InPart(lo: nat, hi: nat, j: int) {
    lo <= j < hi
  }

  /** Moving the output by h multiplies every term by the same factor v. */
  lemma {:induction false} ShiftPart(x: seq<real>, z: Complex, q: nat, lo: nat, hi: nat, o: nat, h: nat, v: Complex)
    requires forall j | InPart(lo, hi, j) :: Power(z, Rev(q, j) * h) == v
    ensures Part(x, z, q, lo, hi, o + h) == Mul(v, Part(x, z, q, lo, hi, o))
    decreases hi
  {
    hide Mul, Add, Pair, Power, Rev;
    if lo >= hi {
      MulZero(v);
    } else {
      var r := Rev(q, hi - 1);
      assert InPart(lo, hi, hi - 1);
      assert forall j | InPart(lo, hi - 1, j) :: InPart(lo, hi, j);
      ShiftPart(x, z, q, lo, hi - 1, o, h, v);
      DistributeRight(r, o, h);
      PowerSum(z, r * o, r * h);
      ShiftTerm(Part(x, z, q, lo, hi - 1, o), Pair(x, hi - 1), Power(z, r * o), v);
    }
  }

  lemma MulZero(v: Complex)
    ensures Mul(v, ZERO) == ZERO
  {
  }

  lemma DistributeRight(r: int, o: int, h: int)
    ensures r * (o + h) == r * o + r * h
  {
  }

  lemma ShiftTerm(s: Complex, x: Complex, y: Complex, v: Complex)
    ensures Add(Mul(v, s), Mul(x, Mul(y, v))) == Mul(v, Add(s, Mul(x, y)))
  {
    hide Mul, Add;
    MulAssociates(x, y, v);
    MulAdd(s, Mul(x, y), v);
    MulComm(v, s);
    MulComm(v, Add(s, Mul(x, y)));
  }

  // ---------- exponents ----------

  lemma Turns(z: Complex, q: nat)
    requires Root(z, q)
    ensures Power(z, Pow2(q)) == ONE && Power(z, Pow2(q - 1)) == Sub(ZERO, ONE)
  {
    hide Power, Mul;
    var p := Pow2(q - 2);
    Pow2Step(q);
    Pow2Step(q - 1);
    PowerSum(z, p, p);
    PowerSum(z, p + p, p + p);
    assert Mul(IMAGINARY, IMAGINARY) == Sub(ZERO, ONE) && Mul(Sub(ZERO, ONE), Sub(ZERO, ONE)) == ONE by {
      ImaginarySquare();
    }
  }

  lemma ImaginarySquare()
    ensures Mul(IMAGINARY, IMAGINARY) == Sub(ZERO, ONE) && Mul(Sub(ZERO, ONE), Sub(ZERO, ONE)) == ONE
  {
  }

  /** Whole turns do not count. */
  lemma WholeTurns(z: Complex, q: nat, a: nat, k: nat)
    requires Power(z, Pow2(q)) == ONE
    ensures Power(z, a * Pow2(q) + k) == Power(z, k)
  {
    hide Power, Mul, Pow2;
    PowerSum(z, a * Pow2(q), k);
    PowerProduct(z, Pow2(q), a);
    PowerOfOne(a);
    MulOne(Power(z, k));
    Commute(a, Pow2(q));
  }

  lemma Commute(a: int, b: int)
    ensures a * b == b * a
  {
  }

  /** The reversed place of term l in block 4g + b, times the stride. */
  lemma BlockExponent(q: nat, e: nat, g: nat, b: nat, l: nat)
    requires e + 2 <= q && g < Pow2(q - e - 2) && b < 4 && l < Pow2(e)
    ensures 4 * g + b < Pow2(q - e)
    ensures Rev(q, (4 * g + b) * Pow2(e) + l) * Pow2(e)
         == Rev(e, l) * Pow2(q) + (Rev(2, b) * Pow2(q - 2) + Rev(q - 2, g))
  {
    hide Rev, Pow2;
    Pow2Step(q - e);
    Pow2Step(q - e - 1);
    SmallPowers();
    RevConcat(q - e, e, 4 * g + b, l);
    RevConcat(q - e - 2, 2, g, b);
    Pow2Sum(q - e, e);
    Pow2Sum(q - e - 2, e);
    Scaled(Rev(e, l), Pow2(q - e), Rev(2, b), Pow2(q - e - 2), Rev(q - e - 2, g), Pow2(e));
    WidenedReversal(q, e, g);
  }

  /** Reversing with e more zeros in front moves the reversal up by e bits. */
  lemma WidenedReversal(q: nat, e: nat, g: nat)
    requires e + 2 <= q && g < Pow2(q - e - 2)
    ensures Rev(q - 2, g) == Rev(q - e - 2, g) * Pow2(e)
  {
    hide Rev;
    RevConcat(e, q - e - 2, 0, g);
    RevZero(e);
  }

  lemma Scaled(a: nat, p: nat, b: nat, r: nat, c: nat, h: nat)
    ensures (a * p + (b * r + c)) * h == a * (p * h) + (b * (r * h) + c * h)
  {
    Distribute(a * p, b * r + c, h);
    Distribute(b * r, c, h);
    MulAssoc(a, p, h);
    MulAssoc(b, r, h);
  }

  lemma PowersOf(u: Complex)
    ensures Power(u, 0) == ONE && Power(u, 1) == u && Power(u, 2) == Mul(u, u) && Power(u, 3) == Mul(u, Mul(u, u))
  {
    hide Mul;
    MulOne(u);
  }

  /** Multiplying k times by the imaginary unit. */
  function Rotated(k: nat, x: Complex): Complex {
    if k == 0 then x else Turned(Rotated(k - 1, x))
  }

  lemma {:induction false} RotatedIsProduct(k: nat, x: Complex)
    ensures Rotated(k, x) == Mul(Power(IMAGINARY, k), x)
  {
    hide Mul, Turned;
    if k == 0 {
      MulOne(x);
    } else {
      RotatedIsProduct(k - 1, x);
      TurnedIsProduct(Rotated(k - 1, x));
      MulAssociates(IMAGINARY, Power(IMAGINARY, k - 1), x);
    }
  }

  /** The rotations of four blocks in four outputs. */
  lemma SmallRotations(x: Complex)
    ensures Rotated(0, x) == x && Rotated(1, x) == Turned(x)
    ensures Rotated(2, x) == Sub(ZERO, x) && Rotated(3, x) == Sub(ZERO, Turned(x))
    ensures Rotated(4, x) == x && Rotated(6, x) == Sub(ZERO, x) && Rotated(9, x) == Turned(x)
  {
    RotateStep(0, x);
    RotateStep(1, x);
    RotateStep(2, x);
    RotateStep(3, x);
    RotateStep(4, x);
    RotateStep(5, x);
    RotateStep(6, x);
    RotateStep(7, x);
    RotateStep(8, x);
  }

  lemma RotateStep(k: nat, x: Complex)
    ensures Rotated(k + 1, x) == Turned(Rotated(k, x)) && Rotated(0, x) == x
  {
  }

  /** The power of the imaginary unit that block b of four contributes. */
  function Corner(b: nat): Complex {
    Power(IMAGINARY, Rev(2, b))
  }

  lemma CornerIs(b: nat)
    ensures Corner(b) == Power(IMAGINARY, Rev(2, b))
  {
  }

  /** What moving the output by h multiplies a term of block 4g + b by. */
  lemma BlockFactor(z: Complex, q: nat, e: nat, g: nat, b: nat, l: nat)
    requires Root(z, q) && e + 2 <= q && g < Pow2(q - e - 2) && b < 4 && l < Pow2(e)
    ensures Power(z, Rev(q, (4 * g + b) * Pow2(e) + l) * Pow2(e)) == Mul(Corner(b), Power(z, Rev(q - 2, g)))
  {
    hide Power, Mul, Rev, Pow2, Corner;
    BlockExponent(q, e, g, b, l);
    Turns(z, q);
    WholeTurns(z, q, Rev(e, l), Rev(2, b) * Pow2(q - 2) + Rev(q - 2, g));
    PowerSum(z, Rev(2, b) * Pow2(q - 2), Rev(q - 2, g));
    Commute(Rev(2, b), Pow2(q - 2));
    PowerProduct(z, Pow2(q - 2), Rev(2, b));
    assert Corner(b) == Power(IMAGINARY, Rev(2, b)) by { CornerIs(b); }
  }

  /** Moving the output c times by h. */
  lemma {:induction false} BlockPart(x: seq<real>, z: Complex, q: nat, e: nat, g: nat, b: nat, c: nat, o: nat)
    requires Root(z, q) && e + 2 <= q && g < Pow2(q - e - 2) && b < 4
    ensures var lo, h := (4 * g + b) * Pow2(e), Pow2(e);
            Part(x, z, q, lo, lo + h, c * h + o)
              == Mul(Power(Mul(Corner(b), Power(z, Rev(q - 2, g))), c), Part(x, z, q, lo, lo + h, o))
  {
    hide Power, Mul, Rev, Pow2, Corner, Part;
    var lo, h := (4 * g + b) * Pow2(e), Pow2(e);
    var v := Mul(Corner(b), Power(z, Rev(q - 2, g)));
    var p := Part(x, z, q, lo, lo + h, o);
    if c == 0 {
      PowerStart(v);
      MulOne(p);
    } else {
      BlockPart(x, z, q, e, g, b, c - 1, o);
      forall j | InPart(lo, lo + h, j) ensures Power(z, Rev(q, j) * h) == v {
        BlockFactor(z, q, e, g, b, j - lo);
      }
      ShiftPart(x, z, q, lo, lo + h, (c - 1) * h + o, h, v);
      Distribute(c - 1, 1, h);
      PowerStep(v, c);
      MulAssociates(v, Power(v, c - 1), p);
    }
  }

  lemma PowerStart(v: Complex)
    ensures Power(v, 0) == ONE
  {
  }

  lemma PowerStep(v: Complex, c: nat)
    requires c > 0
    ensures Power(v, c) == Mul(v, Power(v, c - 1))
  {
  }

  /** A sum over four neighbouring ranges. */
  lemma FourParts(x: seq<real>, z: Complex, q: nat, lo: nat, h: nat, o: nat)
    ensures Part(x, z, q, lo, lo + 4 * h, o)
      == Add(Add(Part(x, z, q, lo, lo + h, o), Part(x, z, q, lo + h, lo + 2 * h, o)),
             Add(Part(x, z, q, lo + 2 * h, lo + 3 * h, o), Part(x, z, q, lo + 3 * h, lo + 4 * h, o)))
  {
    hide Part, Add;
    PartSplit(x, z, q, lo, lo + 2 * h, lo + 4 * h, o);
    PartSplit(x, z, q, lo, lo + h, lo + 2 * h, o);
    PartSplit(x, z, q, lo + 2 * h, lo + 3 * h, lo + 4 * h, o);
  }

  // ---------- the four-point transform as a sum ----------

  lemma {:induction false} PowerOfProduct(k: Complex, u: Complex, c: nat)
    ensures Power(Mul(k, u), c) == Mul(Power(k, c), Power(u, c))
  {
    hide Mul;
    if c == 0 {
      MulOne(ONE);
    } else {
      PowerOfProduct(k, u, c - 1);
      Regroup(k, u, Power(k, c - 1), Power(u, c - 1));
    }
  }

  lemma Regroup(k: Complex, u: Complex, k': Complex, u': Complex)
    ensures Mul(Mul(k, u), Mul(k', u')) == Mul(Mul(k, k'), Mul(u, u'))
  {
    hide Mul;
    MulAssociates(k, u, Mul(k', u'));
    MulAssociates(u, k', u');
    MulComm(u, k');
    MulAssociates(k', u, u');
    MulAssociates(k, k', Mul(u, u'));
  }

  /** Term b of output c. */
  function Term(x: Complex, u: Complex, b: nat, c: nat): Complex {
    Mul(Power(Mul(Corner(b), u), c), x)
  }

  lemma TermFactored(x: Complex, u: Complex, b: nat, c: nat)
    ensures Term(x, u, b, c) == Mul(Power(u, c), Mul(Power(Corner(b), c), x))
  {
    hide Mul, Power, Corner;
    PowerOfProduct(Corner(b), u, c);
    MulComm(Power(Corner(b), c), Power(u, c));
    MulAssociates(Power(u, c), Power(Corner(b), c), x);
  }

  lemma SumFactored(u: Complex, a: Complex, b: Complex, c: Complex, d: Complex)
    ensures Add(Add(Mul(u, a), Mul(u, b)), Add(Mul(u, c), Mul(u, d))) == Mul(u, Add(Add(a, b), Add(c, d)))
  {
    hide Mul, Add;
    MulAdd(a, b, u);
    MulAdd(c, d, u);
    MulAdd(Add(a, b), Add(c, d), u);
    MulComm(u, a);
    MulComm(u, b);
    MulComm(u, c);
    MulComm(u, d);
    MulComm(u, Add(Add(a, b), Add(c, d)));
  }

  /** The outputs of `Turn` with the powers of u for factors. */
  lemma TurnIsSum(x: Quad, u: Complex, c: nat)
    requires c < 4
    ensures Pick(Turn(x, Twiddle(u, Mul(u, u), Mul(u, Mul(u, u)))), c)
      == Add(Add(Term(x.x0, u, 0, c), Term(x.x1, u, 1, c)), Add(Term(x.x2, u, 2, c), Term(x.x3, u, 3, c)))
  {
    hide Mul, Add, Power, Corner, Term;
    TurnFactored(x, u, c);
    TermFactored(x.x0, u, 0, c);
    TermFactored(x.x1, u, 1, c);
    TermFactored(x.x2, u, 2, c);
    TermFactored(x.x3, u, 3, c);
    SumFactored(Power(u, c), Mul(Power(Corner(0), c), x.x0), Mul(Power(Corner(1), c), x.x1),
                Mul(Power(Corner(2), c), x.x2), Mul(Power(Corner(3), c), x.x3));
  }

  function CornerSum(x: Quad, c: nat): Complex {
    Add(Add(Mul(Power(Corner(0), c), x.x0), Mul(Power(Corner(1), c), x.x1)),
        Add(Mul(Power(Corner(2), c), x.x2), Mul(Power(Corner(3), c), x.x3)))
  }

  /** A corner's power is a rotation. */
  lemma CornerTimes(b: nat, c: nat, k: nat, x: Complex)
    requires b < 4 && k == Rev(2, b) * c
    ensures Mul(Power(Corner(b), c), x) == Rotated(k, x)
  {
    hide Power, Mul, Rev, Rotated;
    PowerProduct(IMAGINARY, Rev(2, b), c);
    CornerIs(b);
    RotatedIsProduct(k, x);
  }

  /** The sums of `Turn` in front of the factors. */
  lemma CornerSumIs(x: Quad, c: nat)
    requires c < 4
    ensures CornerSum(x, c) == Pick(Turn(x, PLAIN), c)
  {
    hide Power, Mul, Rotated, Rev, Turn, Corner;
    SmallRev();
    CornerTimes(0, c, 0, x.x0);
    CornerTimes(1, c, 2 * c, x.x1);
    CornerTimes(2, c, c, x.x2);
    CornerTimes(3, c, 3 * c, x.x3);
    SmallRotations(x.x0);
    SmallRotations(x.x1);
    SmallRotations(x.x2);
    SmallRotations(x.x3);
    PlainTurn(x);
  }

  lemma PlainTurn(x: Quad)
    ensures Turn(x, PLAIN) == Quad(Add(Add(x.x0, x.x1), Add(x.x2, x.x3)),
                                   Add(Sub(x.x0, x.x1), Turned(Sub(x.x2, x.x3))),
                                   Sub(Add(x.x0, x.x1), Add(x.x2, x.x3)),
                                   Sub(Sub(x.x0, x.x1), Turned(Sub(x.x2, x.x3))))
  {
    MulOne(Add(Sub(x.x0, x.x1), Turned(Sub(x.x2, x.x3))));
    MulOne(Sub(Add(x.x0, x.x1), Add(x.x2, x.x3)));
    MulOne(Sub(Sub(x.x0, x.x1), Turned(Sub(x.x2, x.x3))));
  }

  lemma TurnFactored(x: Quad, u: Complex, c: nat)
    requires c < 4
    ensures Pick(Turn(x, Twiddle(u, Mul(u, u), Mul(u, Mul(u, u)))), c) == Mul(Power(u, c), CornerSum(x, c))
  {
    hide Power, CornerSum, Mul, Add, Sub, Turned;
    PowersOf(u);
    CornerSumIs(x, c);
    PlainTurn(x);
    MulOne(Pick(Turn(x, PLAIN), 0));
  }

  // ---------- the passes build the transform ----------

  predicate InBlock(q: nat, e: nat, g: int, o: int) {
    e <= q && 0 <= g < Pow2(q - e) && 0 <= o < Pow2(e)
  }

  /** Where block g of size 2^e starts. */
  function Block(e: nat, g: nat): nat {
    g * Pow2(e)
  }

  /** Every block of size 2^e holds the first outputs of the transform of its part of x. */
  ghost predicate Done(x: seq<real>, s: seq<real>, z: Complex, q: nat, e: nat) {
    e <= q && forall g, o | InBlock(q, e, g, o) ::
      Pair(s, Block(e, g) + o) == Part(x, z, q, Block(e, g), Block(e, g) + Pow2(e), o)
  }

  lemma FirstDone(x: seq<real>, z: Complex, q: nat)
    ensures Done(x, x, z, q, 0)
  {
    hide Mul, Add, Pair, Rev;
    assert Pow2(0) == 1;
    forall g, o | InBlock(q, 0, g, o)
      ensures Pair(x, Block(0, g) + o) == Part(x, z, q, Block(0, g), Block(0, g) + Pow2(0), o)
    {
      assert o == 0 && Block(0, g) == g;
      OneTerm(x, z, q, g);
    }
  }

  lemma OneTerm(x: seq<real>, z: Complex, q: nat, g: nat)
    ensures Part(x, z, q, g, g + 1, 0) == Pair(x, g)
  {
    hide Mul, Pair, Rev;
    TimesZero(Rev(q, g));
    PowerStart(z);
    MulOne(Pair(x, g));
  }

  lemma TimesZero(r: int)
    ensures r * 0 == 0
  {
  }

  /** What a pass leaves in branch c of a quadruple. */
  lemma PassAt(f: Work, g: nat, c: nat, o: nat)
    requires g < f.G && c < 4 && o < f.h
    ensures Pair(Pass(f), Base(f.h, g, o) + c * f.h)
         == Pick(Turn(QuadAt(f.s, Base(f.h, g, o), f.h), Factors(f.w, g)), c)
  {
    hide Pair, FromPlaces, Pick, Turn, QuadAt, Factors;
    var i := Base(f.h, g, o) + c * f.h;
    Fourfold(g, f.h);
    Distribute(4 * g, c, f.h);
    QuotientRemainder(4 * g + c, f.h, o);
    Fourfold(f.G, f.h);
    BelowProduct(4 * g + c, f.h, o, 4 * f.G);
    PairFrom(f.G * (4 * f.h), (j: nat) => Output(f, j), i);
  }

  lemma FourBlocks(e: nat, g: nat, o: nat)
    ensures Block(e + 2, g) == Block(e, 4 * g) && Base(Pow2(e), g, o) == Block(e + 2, g) + o
    ensures Block(e, 4 * g + 1) == Block(e, 4 * g) + Pow2(e)
    ensures Block(e, 4 * g + 2) == Block(e, 4 * g) + 2 * Pow2(e)
    ensures Block(e, 4 * g + 3) == Block(e, 4 * g) + 3 * Pow2(e)
    ensures Pow2(e + 2) == 4 * Pow2(e)
  {
    hide Pow2;
    PowerOfFour(e);
    Fourfold(g, Pow2(e));
    Distribute(4 * g, 1, Pow2(e));
    Distribute(4 * g, 2, Pow2(e));
    Distribute(4 * g, 3, Pow2(e));
  }

  /** The quadruple in front of a pass holds the sums of four neighbouring blocks. */
  lemma QuadIsDone(x: seq<real>, s: seq<real>, z: Complex, q: nat, e: nat, g: nat, o: nat)
    requires Done(x, s, z, q, e) && e + 2 <= q && g < Pow2(q - e - 2) && o < Pow2(e)
    ensures var h, lo := Pow2(e), Block(e + 2, g);
            QuadAt(s, Base(h, g, o), h)
              == Quad(Part(x, z, q, lo, lo + h, o), Part(x, z, q, lo + h, lo + 2 * h, o),
                      Part(x, z, q, lo + 2 * h, lo + 3 * h, o), Part(x, z, q, lo + 3 * h, lo + 4 * h, o))
  {
    hide Part, Pair, Block, Pow2, Base;
    FourBlocks(e, g, o);
    assert Pow2(q - e) == 4 * Pow2(q - e - 2) by { PowerOfFour(q - e - 2); }
    assert InBlock(q, e, 4 * g, o) && InBlock(q, e, 4 * g + 1, o);
    assert InBlock(q, e, 4 * g + 2, o) && InBlock(q, e, 4 * g + 3, o);
  }

  /** The four terms are the parts of the moved output. */
  lemma MovedParts(x: seq<real>, z: Complex, q: nat, e: nat, g: nat, c: nat, o: nat)
    requires Root(z, q) && e + 2 <= q && g < Pow2(q - e - 2) && c < 4
    ensures var h, lo, u := Pow2(e), Block(e + 2, g), Power(z, Rev(q - 2, g));
            Part(x, z, q, lo, lo + 4 * h, c * h + o)
              == Add(Add(Term(Part(x, z, q, lo, lo + h, o), u, 0, c),
                         Term(Part(x, z, q, lo + h, lo + 2 * h, o), u, 1, c)),
                     Add(Term(Part(x, z, q, lo + 2 * h, lo + 3 * h, o), u, 2, c),
                         Term(Part(x, z, q, lo + 3 * h, lo + 4 * h, o), u, 3, c)))
  {
    hide Part, Mul, Add, Power, Pow2, Rev, Corner;
    FourBlocks(e, g, o);
    BlockPart(x, z, q, e, g, 0, c, o);
    BlockPart(x, z, q, e, g, 1, c, o);
    BlockPart(x, z, q, e, g, 2, c, o);
    BlockPart(x, z, q, e, g, 3, c, o);
    FourParts(x, z, q, Block(e + 2, g), Pow2(e), c * Pow2(e) + o);
  }

  lemma StepAt(x: seq<real>, s: seq<real>, z: Complex, q: nat, e: nat, w: seq<real>, g: nat, c: nat, o: nat,
               i: nat)
    requires Root(z, q) && TableOf(w, z, q) && Done(x, s, z, q, e)
    requires e + 2 <= q && g < Pow2(q - e - 2) && c < 4 && o < Pow2(e) && i == c * Pow2(e) + o
    ensures Pair(Pass(Work(s, Pow2(e), Pow2(q - e - 2), w)), Block(e + 2, g) + i)
         == Part(x, z, q, Block(e + 2, g), Block(e + 2, g) + 4 * Pow2(e), i)
  {
    hide Part, Pair, Block, Pow2, Base, Pass, Turn, Pick, Term, Add, Mul, QuadAt, Rev, Power, Factors, Root, TableOf, Done;
    var h, lo := Pow2(e), Block(e + 2, g);
    FourBlocks(e, g, o);
    Pow2Order(q - e - 2, q - 2);
    var f := Work(s, h, Pow2(q - e - 2), w);
    PassAt(f, g, c, o);
    QuadIsDone(x, s, z, q, e, g, o);
    var u := Power(z, Rev(q - 2, g));
    assert Root(z, q) ==> q >= 2 by { RootSize(z, q); }
    FactorsArePowers(w, z, q, g);
    TurnIsSum(QuadAt(s, Base(h, g, o), h), u, c);
    MovedParts(x, z, q, e, g, c, o);
  }

  lemma RootSize(z: Complex, q: nat)
    ensures Root(z, q) ==> q >= 2
  {
  }

  lemma NextDone(x: seq<real>, s: seq<real>, z: Complex, q: nat, e: nat, w: seq<real>)
    requires Root(z, q) && TableOf(w, z, q) && Done(x, s, z, q, e) && e + 2 <= q
    ensures Done(x, Pass(Work(s, Pow2(e), Pow2(q - e - 2), w)), z, q, e + 2)
  {
    hide Part, Pair, Block, Pow2, Pass, Root, TableOf, Done;
    var f := Work(s, Pow2(e), Pow2(q - e - 2), w);
    var e' := e + 2;
    forall g, o' | InBlock(q, e', g, o')
      ensures Pair(Pass(f), Block(e', g) + o') == Part(x, z, q, Block(e', g), Block(e', g) + Pow2(e'), o')
    {
      PowerOfFour(e);
      Quotient(o', Pow2(e), 4);
      assert q - (e + 2) == q - e - 2;
      StepAt(x, s, z, q, e, w, g, o' / Pow2(e), o' % Pow2(e), o');
    }
    DoneIs(x, Pass(f), z, q, e');
  }

  lemma DoneIs(x: seq<real>, s: seq<real>, z: Complex, q: nat, e: nat)
    ensures Done(x, s, z, q, e) <==> e <= q && forall g, o | InBlock(q, e, g, o) ::
      Pair(s, Block(e, g) + o) == Part(x, z, q, Block(e, g), Block(e, g) + Pow2(e), o)
  {
  }

  // ---------- the last stage with one factor two left ----------

  /** Moving the output by half the size changes the sign of the second half of the terms. */
  lemma HalfFactor(z: Complex, q: nat, b: nat, l: nat)
    requires Root(z, q) && b < 2 && l < Pow2(q - 1)
    ensures Power(z, Rev(q, b * Pow2(q - 1) + l) * Pow2(q - 1)) == (if b == 0 then ONE else Sub(ZERO, ONE))
  {
    hide Power, Mul, Rev, Pow2, Norm;
    Pow2Step(q);
    Turns(z, q);
    if b == 0 { RevLow(q, l); } else { RevHigh(q, l); }
    HalfTurns(Rev(q - 1, l), Pow2(q - 1));
    WholeTurns(z, q, Rev(q - 1, l), if b == 0 then 0 else Pow2(q - 1));
    PowerStart(z);
  }

  lemma HalfTurns(r: nat, h: nat)
    ensures (2 * r) * h == r * (2 * h) && (2 * r + 1) * h == r * (2 * h) + h
  {
    Swap2(r, h, 2 * h);
    Product(r, h);
    Distribute(2 * r, 1, h);
  }

  lemma HalfPart(x: seq<real>, z: Complex, q: nat, b: nat, o: nat)
    requires Root(z, q) && b < 2
    ensures var h := Pow2(q - 1);
            Part(x, z, q, b * h, b * h + h, o + h)
              == Mul(if b == 0 then ONE else Sub(ZERO, ONE), Part(x, z, q, b * h, b * h + h, o))
  {
    hide Power, Mul, Rev, Part, Pow2;
    var h := Pow2(q - 1);
    var v := if b == 0 then ONE else Sub(ZERO, ONE);
    forall j | InPart(b * h, b * h + h, j) ensures Power(z, Rev(q, j) * h) == v {
      HalfFactor(z, q, b, j - b * h);
    }
    ShiftPart(x, z, q, b * h, b * h + h, o, h, v);
  }

  lemma HalvedIsDone(x: seq<real>, s: seq<real>, z: Complex, q: nat, o: nat)
    requires Root(z, q) && Done(x, s, z, q, q - 1) && o < Pow2(q)
    ensures Pair(Halved(s, Pow2(q - 1)), o) == Part(x, z, q, 0, Pow2(q), o)
  {
    hide Part, Pair, FromPlaces, Mul, Power, Block, Done;
    var h := Pow2(q - 1);
    Pow2Step(q);
    PairFrom(2 * h, (j: nat) => HalvedOutput(s, h, j), o);
    var l := if o < h then o else o - h;
    DoneIs(x, s, z, q, q - 1);
    TwoBlocks(q - 1);
    assert InBlock(q, q - 1, 0, l) && InBlock(q, q - 1, 1, l);
    PartSplit(x, z, q, 0, h, 2 * h, o);
    if o >= h {
      HalfPart(x, z, q, 0, l);
      HalfPart(x, z, q, 1, l);
      MulOne(Part(x, z, q, 0, h, l));
      MinusTimes(Part(x, z, q, h, 2 * h, l));
    }
  }

  lemma TwoBlocks(e: nat)
    ensures Block(e, 0) == 0 && Block(e, 1) == Pow2(e) && Pow2(1) == 2
  {
  }

  lemma MinusTimes(x: Complex)
    ensures Mul(Sub(ZERO, ONE), x) == Sub(ZERO, x)
  {
  }

  // ---------- the theorem ----------

  lemma {:induction false} ForwardDone(x: seq<real>, s: seq<real>, z: Complex, q: nat, e: nat, w: seq<real>, o: nat)
    requires Root(z, q) && TableOf(w, z, q) && Done(x, s, z, q, e) && o < Pow2(q)
    ensures Pair(Forward(s, e, q, w), o) == Part(x, z, q, 0, Pow2(q), o)
    decreases q - e
  {
    hide Part, Pair, Pass, Root, TableOf, Done, Pow2, Halved, Block;
    DoneIs(x, s, z, q, e);
    if e + 2 <= q {
      NextDone(x, s, z, q, e, w);
      ForwardDone(x, Pass(Work(s, Pow2(e), Pow2(q - e - 2), w)), z, q, e + 2, w, o);
    } else if e + 1 == q {
      HalvedIsDone(x, s, z, q, o);
    } else {
      SmallPowers();
      TwoBlocks(e);
      assert InBlock(q, q, 0, o);
    }
  }

  // ---------- summing in another order ----------

  function SumOf(f: nat -> Complex, n: nat): Complex {
    if n == 0 then ZERO else Add(SumOf(f, n - 1), f(n - 1))
  }

  /** Output o of the discrete Fourier transform of the n numbers in s, with the root z. */
  function Dft(s: seq<real>, z: Complex, n: nat, o: nat): Complex {
    SumOf((k: nat) => DftTerm(s, z, k, o), n)
  }

  function DftTerm(s: seq<real>, z: Complex, k: nat, o: nat): Complex {
    Mul(Pair(s, k), Power(z, k * o))
  }

  lemma {:induction false} SumEqual(f: nat -> Complex, g: nat -> Complex, n: nat)
    requires forall k: nat :: k < n ==> f(k) == g(k)
    ensures SumOf(f, n) == SumOf(g, n)
  {
    hide Add;
    if n > 0 { SumEqual(f, g, n - 1); }
  }

  lemma {:induction false} SumSplit(f: nat -> Complex, g: nat -> Complex, m: nat, n: nat)
    requires forall k: nat :: k < n ==> g(k) == f(m + k)
    ensures SumOf(f, m + n) == Add(SumOf(f, m), SumOf(g, n))
  {
    hide SumOf;
    if n == 0 {
      SumNone(g);
    } else {
      SumSplit(f, g, m, n - 1);
      SumStep(f, m + (n - 1));
      SumStep(g, n - 1);
    }
  }

  lemma SumStep(f: nat -> Complex, n: nat)
    ensures SumOf(f, n + 1) == Add(SumOf(f, n), f(n))
  {
  }

  lemma {:induction false} SumEvenOdd(f: nat -> Complex, even: nat -> Complex, odd: nat -> Complex, n: nat)
    requires forall k: nat :: even(k) == f(2 * k)
    requires forall k: nat :: odd(k) == f(2 * k + 1)
    ensures SumOf(f, 2 * n) == Add(SumOf(even, n), SumOf(odd, n))
  {
    hide SumOf;
    if n == 0 {
      SumNone(f);
      SumNone(even);
      SumNone(odd);
    } else {
      var m := n - 1;
      SumEvenOdd(f, even, odd, m);
      SumStep(f, 2 * m);
      SumStep(f, 2 * m + 1);
      SumStep(even, m);
      SumStep(odd, m);
    }
  }

  lemma SumNone(f: nat -> Complex)
    ensures SumOf(f, 0) == ZERO
  {
  }

  function OfReversed(f: nat -> Complex, q: nat): nat -> Complex {
    (j: nat) => f(Rev(q, j))
  }

  /** A sum over all places may run through them in reversed order. */
  lemma {:induction false} SumReversed(f: nat -> Complex, q: nat)
    ensures SumOf(OfReversed(f, q), Pow2(q)) == SumOf(f, Pow2(q))
  {
    hide Rev, Pow2, Add, SumOf;
    if q == 0 {
      SmallPowers();
      RevZero(0);
      SumEqual(OfReversed(f, 0), f, 1);
    } else {
      var h := Pow2(q - 1);
      var even, odd := (k: nat) => f(2 * k), (k: nat) => f(2 * k + 1);
      var r := OfReversed(f, q);
      Pow2Step(q);
      SumReversed(even, q - 1);
      SumReversed(odd, q - 1);
      ReversedHalves(f, q, even, odd, OfReversed(odd, q - 1));
      SumEqual(r, OfReversed(even, q - 1), h);
      SumSplit(r, OfReversed(odd, q - 1), h, h);
      SumEvenOdd(f, even, odd, h);
    }
  }

  lemma ReversedHalves(f: nat -> Complex, q: nat, even: nat -> Complex, odd: nat -> Complex, g: nat -> Complex)
    requires q > 0 && (forall k: nat :: even(k) == f(2 * k)) && (forall k: nat :: odd(k) == f(2 * k + 1))
    requires g == OfReversed(odd, q - 1)
    ensures forall j: nat :: j < Pow2(q - 1) ==> OfReversed(f, q)(j) == OfReversed(even, q - 1)(j)
    ensures forall j: nat :: j < Pow2(q - 1) ==> g(j) == OfReversed(f, q)(Pow2(q - 1) + j)
  {
    forall j: nat | j < Pow2(q - 1) ensures OfReversed(f, q)(j) == OfReversed(even, q - 1)(j) {
      RevLow(q, j);
    }
    forall j: nat | j < Pow2(q - 1) ensures g(j) == OfReversed(f, q)(Pow2(q - 1) + j) {
      RevHigh(q, j);
    }
  }

  lemma {:induction false} PartIsSum(s: seq<real>, x: seq<real>, z: Complex, q: nat, n: nat, o: nat)
    requires forall i :: 0 <= i < n ==> Pair(x, i) == Pair(s, Rev(q, i))
    ensures Part(x, z, q, 0, n, o) == SumOf((j: nat) => DftTerm(s, z, Rev(q, j), o), n)
  {
    hide Pair, Rev, Power, Mul, Add;
    if n > 0 { PartIsSum(s, x, z, q, n - 1, o); }
  }

  /** Bit reversal and `cftfsub` together are the discrete Fourier transform. */
  lemma ForwardIsDft(s: seq<real>, x: seq<real>, z: Complex, q: nat, w: seq<real>, o: nat)
    requires Root(z, q) && TableOf(w, z, q) && Reversed(s, x, q) && o < Pow2(q)
    ensures Pair(Forward(x, 0, q, w), o) == Dft(s, z, Pow2(q), o)
  {
    hide Root, TableOf, Pair, Rev, Pow2, Part, Forward, Done, DftTerm;
    FirstDone(x, z, q);
    ForwardDone(x, x, z, q, 0, w, o);
    PartIsSum(s, x, z, q, Pow2(q), o);
    var f := (k: nat) => DftTerm(s, z, k, o);
    SumReversed(f, q);
    SumEqual(OfReversed(f, q), (j: nat) => DftTerm(s, z, Rev(q, j), o), Pow2(q));
  }
}
