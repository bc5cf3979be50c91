/** The forward direction of `WebRtc_rdft` in `gbcom_common/ns/fft4g.cc` is the discrete Fourier
    transform of the reals. */
module FftRealDft {
  import opened FftBits
  import opened FftComplex
  import opened FftPass
  import opened FftTransform
  import opened FftBitReversal
  import opened FftDft
  import opened FftReal
  import opened FftInverse

  // ---------- what the transform is ----------

  function Sample(s: seq<real>, j: nat): real {
    if j < |s| then s[j] else 0.0
  }

  /** Output k of the discrete Fourier transform of n reals: the sum of s[j] * y^(jk). */
  function RealDft(s: seq<real>, y: Complex, n: nat, k: nat): Complex {
    SumOf((j: nat) => Scale(Sample(s, j), Power(y, j * k)), n)
  }

  /** y lies on the unit circle, 2^q steps are half a turn and half as many a quarter. */
  ghost predicate RealRoot(y: Complex, q: nat) {
    Norm(y) == 1.0 && Power(y, Pow2(q)) == MINUS && (q >= 1 ==> Power(y, Pow2(q - 1)) == IMAGINARY)
  }

  /** The cosine table as `makect` is meant to fill it: cosines from the front and sines from the back,
      halved, ks entries apart. */
  ghost predicate CosTable(t: Tables, n: nat, y: Complex) {
    n > 0 &&
    var ks := 2 * t.nc / n;
    forall u | InFirstHalf(n, u) ::
      2.0 * Read(t.c, u * ks) == Power(y, u).re && 2.0 * Read(t.c, t.nc - u * ks) == Power(y, u).im
  }

  /** Both tables for 2^q complex numbers, with the root y of twice the order. */
  ghost predicate RealTables(t: Tables, y: Complex, q: nat) {
    RealRoot(y, q) && (q >= 2 ==> TableOf(t.w, Mul(y, y), q) && CosTable(t, Pow2(q), y))
  }

  // ---------- even and odd samples ----------

  /** The sum over the samples with this remainder modulo two. */
  function Half(s: seq<real>, z: Complex, n: nat, k: nat, b: nat): Complex {
    SumOf((j: nat) => HalfTerm(s, z, k, b, j), n)
  }

  function HalfTerm(s: seq<real>, z: Complex, k: nat, b: nat, j: nat): Complex {
    Scale(Sample(s, 2 * j + b), Power(z, j * k))
  }

  /** The transform of the reals out of the two halves. */
  lemma RealSplit(s: seq<real>, y: Complex, n: nat, k: nat)
    ensures var z := Mul(y, y);
            RealDft(s, y, 2 * n, k) == Add(Half(s, z, n, k, 0), Mul(Power(y, k), Half(s, z, n, k, 1)))
  {
    hide SumOf, Power, Mul, Add, Scale, Sample, HalfTerm;
    var z := Mul(y, y);
    var f := (j: nat) => Scale(Sample(s, j), Power(y, j * k));
    var even, odd := (j: nat) => f(2 * j), (j: nat) => f(2 * j + 1);
    var half := (j: nat) => HalfTerm(s, z, k, 1, j);
    SumEvenOdd(f, even, odd, n);
    forall j: nat | j < n ensures even(j) == HalfTerm(s, z, k, 0, j) && odd(j) == Mul(Power(y, k), half(j)) {
      TermSplit(s, y, k, j);
    }
    SumEqual(even, (j: nat) => HalfTerm(s, z, k, 0, j), n);
    SumScale(Power(y, k), half, odd, n);
  }

  lemma TermSplit(s: seq<real>, y: Complex, k: nat, j: nat)
    ensures var z := Mul(y, y);
            && Scale(Sample(s, 2 * j), Power(y, (2 * j) * k)) == HalfTerm(s, z, k, 0, j)
            && Scale(Sample(s, 2 * j + 1), Power(y, (2 * j + 1) * k)) == Mul(Power(y, k), HalfTerm(s, z, k, 1, j))
  {
    hide Power, Mul, Scale, Sample;
    var z := Mul(y, y);
    EvenPower(y, j, k);
    ScaleMul(Sample(s, 2 * j + 1), Power(y, k), Power(z, j * k));
  }

  lemma EvenPower(y: Complex, j: nat, k: nat)
    ensures Power(y, (2 * j) * k) == Power(Mul(y, y), j * k)
    ensures Power(y, (2 * j + 1) * k) == Mul(Power(y, k), Power(Mul(y, y), j * k))
  {
    hide Power, Mul;
    SquareIsPower(y);
    PowerProduct(y, 2, j * k);
    MulAssoc(2, j, k);
    Distribute(2 * j, 1, k);
    assert (2 * j + 1) * k == k + (2 * j) * k;
    PowerSum(y, k, (2 * j) * k);
  }

  lemma SquareIsPower(y: Complex)
    ensures Power(y, 2) == Mul(y, y)
  {
    hide Mul;
    PowersOf(y);
  }

  lemma ScaleMul(f: real, x: Complex, y: Complex)
    ensures Scale(f, Mul(x, y)) == Mul(x, Scale(f, y))
  {
  }

  /** The complex transform out of the two halves. */
  lemma ComplexSplit(s: seq<real>, z: Complex, n: nat, k: nat)
    requires |s| == 2 * n
    ensures Dft(s, z, n, k) == Add(Half(s, z, n, k, 0), Turned(Half(s, z, n, k, 1)))
  {
    hide SumOf, Power, Mul, Add, Scale, Turned;
    var even, odd := (j: nat) => HalfTerm(s, z, k, 0, j), (j: nat) => HalfTerm(s, z, k, 1, j);
    var turned := (j: nat) => Mul(IMAGINARY, odd(j));
    var f := (j: nat) => DftTerm(s, z, j, k);
    SumScale(IMAGINARY, odd, turned, n);
    forall j: nat | j < n ensures f(j) == Add(even(j), turned(j)) {
      PairParts(s, j, n);
      PairTerm(Pair(s, j), Power(z, j * k));
    }
    SumAdd(even, turned, f, n);
    TurnedIsProduct(Half(s, z, n, k, 1));
  }

  lemma PairParts(s: seq<real>, j: nat, n: nat)
    requires |s| == 2 * n && j < n
    ensures Pair(s, j) == Complex(Sample(s, 2 * j), Sample(s, 2 * j + 1))
  {
  }

  lemma PairTerm(x: Complex, p: Complex)
    ensures Mul(x, p) == Add(Scale(x.re, p), Mul(IMAGINARY, Scale(x.im, p)))
  {
  }

  /** A whole turn behind, the halves are conjugated. */
  lemma HalfMirrored(s: seq<real>, z: Complex, n: nat, k: nat, b: nat)
    requires k <= n && Norm(z) == 1.0 && Power(z, n) == ONE
    ensures Half(s, z, n, n - k, b) == Conj(Half(s, z, n, k, b))
  {
    hide SumOf, Power, Scale, Conj, Norm;
    var f, g := (j: nat) => HalfTerm(s, z, k, b, j), (j: nat) => HalfTerm(s, z, n - k, b, j);
    forall j: nat | j < n ensures g(j) == Conj(f(j)) {
      PowerMirrored(z, n, j, k);
      ConjScale(Sample(s, 2 * j + b), Power(z, j * k));
    }
    ConjSum(f, g, n);
  }

  lemma PowerMirrored(z: Complex, n: nat, j: nat, k: nat)
    requires k <= n && Norm(z) == 1.0 && Power(z, n) == ONE
    ensures Power(z, j * (n - k)) == Conj(Power(z, j * k))
  {
    hide Power, Mul, Conj, Norm;
    DistributeRight(j, k, n - k);
    PowerSum(z, j * k, j * (n - k));
    Commute(j, n);
    PowerProduct(z, n, j);
    PowerOfOne(j);
    PowerNorm(z, j * k);
    ConjIsInverse(Power(z, j * k), Power(z, j * (n - k)));
  }

  lemma ConjScale(f: real, x: Complex)
    ensures Scale(f, Conj(x)) == Conj(Scale(f, x))
  {
  }

  // ---------- one place of the split ----------

  /** What the split makes of both places, on the halves e and o of place u, for y^u == p. */
  lemma SplitIsReal(e: Complex, o: Complex, p: Complex)
    ensures var x, x' := Add(e, Turned(o)), Add(Conj(e), Turned(Conj(o)));
            var m := Mul(Complex(0.5 - p.im / 2.0, p.re / 2.0), Sub(x, Conj(x')));
            && Sub(x, m) == Add(e, Mul(p, o))
            && Add(x', Conj(m)) == Add(Conj(e), Mul(Sub(ZERO, Conj(p)), Conj(o)))
  {
    var x, x' := Add(e, Turned(o)), Add(Conj(e), Turned(Conj(o)));
    assert Sub(x, Conj(x')) == Complex(-2.0 * o.im, 2.0 * o.re);
    Halves(p.im, o.im);
    Halves(p.re, o.re);
    Halves(p.im, o.re);
    Halves(p.re, o.im);
  }

  lemma Halves(a: real, b: real)
    ensures (0.5 - a / 2.0) * (2.0 * b) == b - a * b && (0.5 - a / 2.0) * (-2.0 * b) == a * b - b
    ensures (a / 2.0) * (2.0 * b) == a * b && (a / 2.0) * (-2.0 * b) == -(a * b)
  {
  }

  /** The power of the mirrored place. */
  lemma HalfTurnMirrored(y: Complex, n: nat, u: nat)
    requires u <= n && Norm(y) == 1.0 && Power(y, n) == MINUS
    ensures Power(y, n - u) == Sub(ZERO, Conj(Power(y, u)))
  {
    hide Power, Mul, Norm;
    PowerSum(y, u, n - u);
    PowerNorm(y, u);
    MinusInverse(Power(y, u), Power(y, n - u));
  }

  lemma MinusInverse(x: Complex, y: Complex)
    requires Norm(x) == 1.0 && Mul(x, y) == MINUS
    ensures y == Sub(ZERO, Conj(x))
  {
    hide Mul, Norm;
    MinusTwice(x, y);
    ConjIsInverse(x, Sub(ZERO, y));
  }

  lemma MinusTwice(x: Complex, y: Complex)
    requires Mul(x, y) == MINUS
    ensures Mul(x, Sub(ZERO, y)) == ONE
  {
  }

  lemma WeightIsPower(t: Tables, f: seq<real>, n: nat, y: Complex, u: nat)
    requires |f| == 2 * n && CosTable(t, n, y) && InFirstHalf(n, u)
    ensures var r := SplitCall(f, t.nc, t.c, false);
            var p := Power(y, u);
            Weight(r, u * r.ks) == Complex(0.5 - p.im / 2.0, p.re / 2.0)
  {
    hide Power;
    var r := SplitCall(f, t.nc, t.c, false);
    assert r.ks == 2 * t.nc / n;
  }

  /** f holds the complex transform of s. */
  ghost predicate Transformed(s: seq<real>, f: seq<real>, z: Complex, n: nat) {
    |s| == |f| == 2 * n && forall k | InArray(n, k) :: Pair(f, k) == Dft(s, z, n, k)
  }

  /** Places u and n - u behind `rftfsub`. */
  lemma SplitPlaces(s: seq<real>, f: seq<real>, t: Tables, y: Complex, n: nat, u: nat)
    requires Transformed(s, f, Mul(y, y), n) && Norm(y) == 1.0 && Power(y, n) == MINUS
    requires CosTable(t, n, y) && InFirstHalf(n, u)
    ensures var r := SplitCall(f, t.nc, t.c, false);
            Target(r, u) == RealDft(s, y, 2 * n, u) && Target(r, n - u) == RealDft(s, y, 2 * n, n - u)
  {
    hide Pair, Dft, Weight, Target, RealDft, Half, Mul, Add, Sub, Conj, Turned, Power, Norm, CosTable;
    var z, r := Mul(y, y), SplitCall(f, t.nc, t.c, false);
    var e, o, p := Half(s, z, n, u, 0), Half(s, z, n, u, 1), Power(y, u);
    assert InArray(n, u) && InArray(n, n - u);
    SquareTurn(y, n);
    ComplexSplit(s, z, n, u);
    ComplexSplit(s, z, n, n - u);
    HalfMirrored(s, z, n, u, 0);
    HalfMirrored(s, z, n, u, 1);
    RealSplit(s, y, n, u);
    RealSplit(s, y, n, n - u);
    HalfTurnMirrored(y, n, u);
    WeightIsPower(t, f, n, y, u);
    Targets(r, u);
    SplitIsReal(e, o, p);
  }

  lemma SquareTurn(y: Complex, n: nat)
    requires Norm(y) == 1.0 && Power(y, n) == MINUS
    ensures Norm(Mul(y, y)) == 1.0 && Power(Mul(y, y), n) == ONE
  {
    hide Power, Mul, Norm;
    NormMul(y, y);
    SquareIsPower(y);
    PowerProduct(y, 2, n);
    PowerProduct(y, n, 2);
    assert 2 * n == n * 2;
    MinusPower(1);
  }

  // ---------- the ends and the middle ----------

  /** Without a turn the halves are real. */
  lemma HalfAtZero(s: seq<real>, z: Complex, n: nat, m: nat, b: nat)
    requires Power(z, n) == ONE
    ensures Half(s, z, m, 0, b).im == 0.0 && Half(s, z, m, n, b) == Half(s, z, m, 0, b)
  {
    hide Power, SumOf, Scale;
    forall j: nat ensures HalfTerm(s, z, n, b, j) == HalfTerm(s, z, 0, b, j) == Scale(Sample(s, 2 * j + b), ONE) {
      Commute(j, n);
      PowerProduct(z, n, j);
      PowerOfOne(j);
      TimesZero(j);
      PowerStart(z);
    }
    SumEqual((j: nat) => HalfTerm(s, z, n, b, j), (j: nat) => HalfTerm(s, z, 0, b, j), m);
    RealSum((j: nat) => HalfTerm(s, z, 0, b, j), m, s, b);
  }

  lemma {:induction false} RealSum(f: nat -> Complex, n: nat, s: seq<real>, b: nat)
    requires forall j: nat :: f(j) == Scale(Sample(s, 2 * j + b), ONE)
    ensures SumOf(f, n).im == 0.0
  {
    if n > 0 { RealSum(f, n - 1, s, b); }
  }

  /** The two outputs that share the first place. */
  lemma FirstPlace(s: seq<real>, f: seq<real>, y: Complex, n: nat)
    requires Transformed(s, f, Mul(y, y), n) && n > 0 && Norm(y) == 1.0 && Power(y, n) == MINUS
    ensures var x0, x1 := RealDft(s, y, 2 * n, 0), RealDft(s, y, 2 * n, n);
            && x0.im == 0.0 && x1.im == 0.0
            && Pair(f, 0).re + Pair(f, 0).im == x0.re && Pair(f, 0).re - Pair(f, 0).im == x1.re
  {
    hide Pair, Dft, RealDft, Half, Mul, Power, Norm;
    var z := Mul(y, y);
    assert InArray(n, 0);
    SquareTurn(y, n);
    ComplexSplit(s, z, n, 0);
    RealSplit(s, y, n, 0);
    RealSplit(s, y, n, n);
    HalfAtZero(s, z, n, n, 0);
    HalfAtZero(s, z, n, n, 1);
    PowerStart(y);
    MulOne(Half(s, z, n, 0, 1));
    MinusTimes(Half(s, z, n, 0, 1));
  }

  /** The place in the middle. */
  lemma MiddlePlace(s: seq<real>, f: seq<real>, y: Complex, n: nat, h: nat)
    requires Transformed(s, f, Mul(y, y), n) && n == 2 * h && h > 0 && Power(y, h) == IMAGINARY
    ensures Pair(f, h) == RealDft(s, y, 2 * n, h)
  {
    hide Pair, Dft, RealDft, Half, Mul, Power, Turned, Add;
    assert InArray(n, h);
    ComplexSplit(s, Mul(y, y), n, h);
    RealSplit(s, y, n, h);
    TurnedIsProduct(Half(s, Mul(y, y), n, h, 1));
  }

  // ---------- the theorem ----------

  /** The array in front of `rftfsub`. */
  function Spectrum(s: seq<real>, q: nat, t: Tables): seq<real> {
    if q == 0 then s else if q == 1 then Forward(s, 0, 1, t.w) else Forward(Permuted(s, q), 0, q, t.w)
  }

  lemma SpectrumIsDft(s: seq<real>, q: nat, t: Tables, y: Complex)
    requires |s| == 2 * Pow2(q) && RealTables(t, y, q)
    ensures Transformed(s, Spectrum(s, q, t), Mul(y, y), Pow2(q))
  {
    hide Pair, Dft, Mul, Power, Norm, Forward, Permuted, Pow2, CosTable;
    SmallPowers();
    var z := Mul(y, y);
    if q == 0 {
      OneOutput(s, z);
    } else if q == 1 {
      TwoOutputs(s, t, y);
    } else {
      RootOfSquare(y, q);
      PermutedIsReversed(s, q);
      PermutedSize(s, q);
      ForwardSize(Permuted(s, q), 0, q, t.w);
      forall k | InArray(Pow2(q), k) ensures Pair(Spectrum(s, q, t), k) == Dft(s, z, Pow2(q), k) {
        ForwardIsDft(s, Permuted(s, q), z, q, t.w, k);
      }
    }
  }

  lemma RootOfSquare(y: Complex, q: nat)
    requires RealRoot(y, q) && q >= 2
    ensures Root(Mul(y, y), q)
  {
    hide Mul, Power, Norm, Pow2;
    NormMul(y, y);
    SquareIsPower(y);
    Pow2Step(q - 1);
    PowerProduct(y, 2, Pow2(q - 2));
  }

  lemma OneOutput(s: seq<real>, z: Complex)
    ensures Dft(s, z, 1, 0) == Pair(s, 0)
  {
    hide Pair, Mul, Add;
    var f := (k: nat) => DftTerm(s, z, k, 0);
    SumStep(f, 0);
    SumNone(f);
    MulOne(Pair(s, 0));
    AddZero(Pair(s, 0));
  }

  lemma TwoOutputs(s: seq<real>, t: Tables, y: Complex)
    requires |s| == 4 && RealRoot(y, 1)
    ensures Transformed(s, Forward(s, 0, 1, t.w), Mul(y, y), 2)
  {
    hide Pair, Mul, Add, Sub, Power, Norm, Pow2, Forward, Halved;
    SmallPowers();
    FinalStage(s, 0, 1, t.w);
    HalvedSize(s, 1);
    PowersOf(y);
    SquareIsPower(y);
    forall k | InArray(2, k) ensures Pair(Forward(s, 0, 1, t.w), k) == Dft(s, Mul(y, y), 2, k) {
      HalvedAt(s, k);
      DftOfTwo(s, Mul(y, y), k);
    }
  }

  lemma HalvedAt(s: seq<real>, k: nat)
    requires k < 2
    ensures Pair(Halved(s, 1), k) == if k == 0 then Add(Pair(s, 0), Pair(s, 1)) else Sub(Pair(s, 0), Pair(s, 1))
  {
    hide FromPlaces, Pair;
    PairFrom(2, (j: nat) => HalvedOutput(s, 1, j), k);
  }

  lemma DftOfTwo(s: seq<real>, z: Complex, k: nat)
    requires k < 2 && z == MINUS
    ensures Dft(s, z, 2, k) == if k == 0 then Add(Pair(s, 0), Pair(s, 1)) else Sub(Pair(s, 0), Pair(s, 1))
  {
    hide *;
    var f := (j: nat) => DftTerm(s, z, j, k);
    DftIs(s, z, 2, k);
    SumNone(f);
    SumStep(f, 0);
    SumStep(f, 1);
    AddZero(f(0));
    TermOfTwo(s, z, k);
    AddMinus(Pair(s, 0), Pair(s, 1));
  }

  lemma TermOfTwo(s: seq<real>, z: Complex, k: nat)
    requires k < 2 && z == MINUS
    ensures DftTerm(s, z, 0, k) == Pair(s, 0)
    ensures DftTerm(s, z, 1, k) == if k == 0 then Pair(s, 1) else Sub(ZERO, Pair(s, 1))
  {
    hide Pair, Mul, Power, Sub;
    PowersOf(z);
    PowerStart(z);
    assert 0 * k == 0 && 1 * k == k;
    MulOne(Pair(s, 0));
    MulOne(Pair(s, 1));
    MinusTimes(Pair(s, 1));
    MulComm(MINUS, Pair(s, 1));
  }

  lemma AddMinus(x: Complex, y: Complex)
    ensures Add(x, Sub(ZERO, y)) == Sub(x, y)
  {
  }

  /** Places behind `rftfsub`. */
  lemma AnalyzedAt(s: seq<real>, q: nat, t: Tables, k: nat)
    requires q >= 2 && |s| == 2 * Pow2(q) && k < Pow2(q)
    ensures var f := Spectrum(s, q, t);
            |f| == 2 * Pow2(q) && Pair(Analyzed(s, q, t), k) == Target(SplitCall(f, t.nc, t.c, false), k)
  {
    hide Forward, Permuted, Pow2, Result, Target, Pair;
    PermutedSize(s, q);
    ForwardSize(Permuted(s, q), 0, q, t.w);
    Outputs(SplitCall(Spectrum(s, q, t), t.nc, t.c, false), k);
  }

  lemma FirstSplitAt(s: seq<real>, k: nat)
    requires |s| >= 2
    ensures Pair(FirstSplit(s), k)
      == if k == 0 then Complex(Pair(s, 0).re + Pair(s, 0).im, Pair(s, 0).re - Pair(s, 0).im) else Pair(s, k)
  {
  }

  lemma AnalyzedSize(s: seq<real>, q: nat, t: Tables)
    requires |s| == 2 * Pow2(q)
    ensures |Analyzed(s, q, t)| == 2 * Pow2(q) >= 2
  {
    hide Forward, Permuted, Pow2, Result;
    SmallPowers();
    PowerPositive(q);
    if q == 1 {
      ForwardSize(s, 0, 1, t.w);
    } else if q >= 2 {
      PermutedSize(s, q);
      ForwardSize(Permuted(s, q), 0, q, t.w);
      ResultSize(SplitCall(Forward(Permuted(s, q), 0, q, t.w), t.nc, t.c, false));
    }
  }

  lemma PowerPositive(q: nat)
    ensures Pow2(q) > 0
  {
  }

  /** Behind the split every place but the first holds the output of its number. */
  lemma AnalyzedIsDft(s: seq<real>, q: nat, t: Tables, y: Complex, k: nat)
    requires |s| == 2 * Pow2(q) && RealTables(t, y, q) && 0 < k < Pow2(q)
    ensures Pair(Analyzed(s, q, t), k) == RealDft(s, y, 2 * Pow2(q), k)
  {
    hide Forward, Permuted, Pow2, Result, Pair, RealDft, Power, Norm, Mul, Share, Conj, CosTable, Transformed;
    var n, f := Pow2(q), Spectrum(s, q, t);
    SpectrumIsDft(s, q, t, y);
    SmallPowers();
    Pow2Step(q);
    if 2 * k == n { MiddlePlace(s, f, y, n, k); }
    if q >= 2 {
      AnalyzedAt(s, q, t, k);
      if 2 * k < n {
        SplitPlaces(s, f, t, y, n, k);
      } else if 2 * k > n {
        SplitPlaces(s, f, t, y, n, n - k);
      }
    }
  }

  lemma AnalyzedFirst(s: seq<real>, q: nat, t: Tables)
    requires |s| == 2 * Pow2(q)
    ensures Pair(Analyzed(s, q, t), 0) == Pair(Spectrum(s, q, t), 0)
  {
    hide Forward, Permuted, Pow2, Result, Pair, Share;
    PowerPositive(q);
    if q >= 2 { AnalyzedAt(s, q, t, 0); }
  }

  /** The forward direction for n = 2^(q + 1) reals: place k holds output k of the discrete Fourier
      transform, and the first place the two real outputs 0 and n / 2. */
  lemma RealForwardIsDft(s: seq<real>, q: nat, t: Tables, y: Complex, k: nat)
    requires |s| == 2 * Pow2(q) && k < Pow2(q) && RealTables(t, y, q)
    ensures var x := RealForward(s, q, t);
            if k > 0 then Pair(x, k) == RealDft(s, y, |s|, k)
            else Pair(x, 0) == Complex(RealDft(s, y, |s|, 0).re, RealDft(s, y, |s|, Pow2(q)).re)
    ensures RealDft(s, y, |s|, 0).im == 0.0 && RealDft(s, y, |s|, Pow2(q)).im == 0.0
  {
    hide Pow2, Pair, RealDft, Analyzed, Spectrum, FirstSplit, Norm, Power, Mul, CosTable, Transformed;
    PowerPositive(q);
    AnalyzedSize(s, q, t);
    FirstSplitAt(Analyzed(s, q, t), k);
    SpectrumIsDft(s, q, t, y);
    FirstPlace(s, Spectrum(s, q, t), y, Pow2(q));
    if k > 0 { AnalyzedIsDft(s, q, t, y, k); } else { AnalyzedFirst(s, q, t); }
  }

  /** Such tables are suited for the way back, too. */
  lemma RealTablesSuited(s: seq<real>, q: nat, t: Tables, y: Complex)
    requires |s| == 2 * Pow2(q) && RealTables(t, y, q) && q >= 2
    ensures Suited(t, Mul(y, y), q, s)
  {
    hide Pow2, Norm, Power, Mul, Weight, Defect;
    RootOfSquare(y, q);
    var r := SplitCall(s, t.nc, t.c, false);
    forall u | InFirstHalf(r.n, u) ensures Defect(Weight(r.(back := false), u * r.ks)) == 0.0 {
      DefectOfWeight(r, u * r.ks);
      PowerNorm(y, u);
      NormIs(Power(y, u));
    }
  }

  lemma NormIs(x: Complex)
    ensures Norm(x) == x.re * x.re + x.im * x.im
  {
  }
}
