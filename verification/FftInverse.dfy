/** `WebRtc_rdft` of `gbcom_common/ns/fft4g.cc`: the inverse direction after the forward one
    multiplies every number by n / 2. */
module FftInverse {
  import opened FftBits
  import opened FftComplex
  import opened FftPass
  import opened FftTransform
  import opened FftBitReversal
  import opened FftDft
  import opened FftReal

  // ---------- sums of powers ----------

  const MINUS := Sub(ZERO, ONE)

  /** z is a 2^q-th root of unity whose half turn is -1. */
  ghost predicate HalfTurn(z: Complex, q: nat) {
    q >= 1 && Power(z, Pow2(q - 1)) == MINUS
  }

  /** 1 + v + v^2 + ... of n terms. */
  function Geometric(v: Complex, n: nat): Complex {
    if n == 0 then ZERO else Add(Geometric(v, n - 1), Power(v, n - 1))
  }

  lemma {:induction false} GeometricSplit(v: Complex, m: nat, n: nat)
    ensures Geometric(v, m + n) == Add(Geometric(v, m), Mul(Power(v, m), Geometric(v, n)))
  {
    hide Mul, Add, Power;
    if n == 0 {
      MulZero(Power(v, m));
      AddZero(Geometric(v, m));
    } else {
      GeometricSplit(v, m, n - 1);
      assert m + n - 1 == m + (n - 1);
      PowerSum(v, m, n - 1);
      MulSum(Power(v, m), Geometric(v, n - 1), Power(v, n - 1));
      AddAssociates(Geometric(v, m), Mul(Power(v, m), Geometric(v, n - 1)), Mul(Power(v, m), Power(v, n - 1)));
    }
  }

  lemma MulSum(z: Complex, x: Complex, y: Complex)
    ensures Mul(z, Add(x, y)) == Add(Mul(z, x), Mul(z, y))
  {
    hide Mul, Add;
    MulAdd(x, y, z);
    MulComm(z, x);
    MulComm(z, y);
    MulComm(z, Add(x, y));
  }

  /** Where the two halves of a geometric sum cancel, the sum is zero. */
  lemma CancellingHalves(v: Complex, h: nat)
    requires Power(v, h) == MINUS
    ensures Geometric(v, h + h) == ZERO
  {
    hide Power, Geometric;
    GeometricSplit(v, h, h);
    MinusTimes(Geometric(v, h));
  }

  lemma VanishingHalves(v: Complex, h: nat)
    requires Geometric(v, h) == ZERO
    ensures Geometric(v, h + h) == ZERO
  {
    hide Power, Geometric;
    GeometricSplit(v, h, h);
    MulZero(Power(v, h));
  }

  lemma MinusPower(k: nat)
    ensures Power(MINUS, 2 * k) == ONE && Power(MINUS, 2 * k + 1) == MINUS
  {
    hide Mul;
    ImaginarySquare();
    PowersOf(MINUS);
    PowerProduct(MINUS, 2, k);
    PowerOfOne(k);
    MulOne(MINUS);
  }

  /** The powers of z^d over a whole turn add up to zero unless d is a whole number of turns. */
  lemma {:induction false} WholeTurnSum(z: Complex, q: nat, d: nat)
    requires HalfTurn(z, q) && 0 < d < Pow2(q)
    ensures Geometric(Power(z, d), Pow2(q)) == ZERO
    decreases q
  {
    hide Power, Mul, Geometric, Pow2;
    var h := Pow2(q - 1);
    Pow2Step(q);
    var v := Power(z, d);
    if d % 2 == 1 {
      PowerProduct(z, d, h);
      Commute(d, h);
      PowerProduct(z, h, d);
      MinusPower(d / 2);
      CancellingHalves(v, h);
    } else {
      var e := d / 2;
      SmallPowers();
      assert q >= 2;
      PowerProduct(z, 2, e);
      PowerProduct(z, 2, Pow2(q - 2));
      Pow2Step(q - 1);
      WholeTurnSum(Power(z, 2), q - 1, e);
      VanishingHalves(v, h);
    }
  }

  lemma {:induction false} GeometricOfOne(n: nat)
    ensures Geometric(ONE, n) == Complex(n as real, 0.0)
  {
    hide Power;
    if n > 0 {
      GeometricOfOne(n - 1);
      PowerOfOne(n - 1);
    }
  }

  lemma {:induction false} GeometricIsSum(f: nat -> Complex, v: Complex, n: nat)
    requires forall k: nat :: k < n ==> f(k) == Power(v, k)
    ensures SumOf(f, n) == Geometric(v, n)
  {
    hide Power, Add;
    if n > 0 { GeometricIsSum(f, v, n - 1); }
  }

  /** On the unit circle the conjugate is the inverse. */
  lemma ConjIsInverse(x: Complex, y: Complex)
    requires Norm(x) == 1.0 && Mul(x, y) == ONE
    ensures y == Conj(x)
  {
    MulAssociates(Conj(x), x, y);
    MulComm(x, Conj(x));
    assert Mul(Conj(x), x) == ONE by { ConjTimes(x); }
    MulOne(y);
    MulOne(Conj(x));
  }

  lemma ConjTimes(x: Complex)
    requires Norm(x) == 1.0
    ensures Mul(Conj(x), x) == ONE
  {
  }

  function KernelTerm(z: Complex, j: nat, o: nat, k: nat): Complex {
    Mul(Power(z, j * k), Conj(Power(z, k * o)))
  }

  /** A term of the kernel is a power. */
  lemma KernelIsPower(z: Complex, q: nat, j: nat, o: nat, k: nat)
    requires Root(z, q) && o < Pow2(q)
    ensures KernelTerm(z, j, o, k) == Power(Power(z, j + (Pow2(q) - o)), k)
  {
    hide Power, Mul, Conj, Pow2, Norm;
    var n := Pow2(q);
    Turns(z, q);
    PowerNorm(z, k * o);
    DistributeRight(k, o, n - o);
    PowerSum(z, k * o, k * (n - o));
    Commute(k, n);
    PowerProduct(z, n, k);
    PowerOfOne(k);
    ConjIsInverse(Power(z, k * o), Power(z, k * (n - o)));
    Commute(j, k);
    DistributeRight(k, j, n - o);
    PowerSum(z, k * j, k * (n - o));
    Commute(j + (n - o), k);
    PowerProduct(z, j + (n - o), k);
  }

  /** The kernel summed over all k is n for equal places and zero for different ones. */
  lemma KernelSum(f: nat -> Complex, z: Complex, q: nat, j: nat, o: nat)
    requires Root(z, q) && o < Pow2(q) && j < Pow2(q)
    requires forall k: nat :: k < Pow2(q) ==> f(k) == KernelTerm(z, j, o, k)
    ensures SumOf(f, Pow2(q)) == if j == o then Complex(Pow2(q) as real, 0.0) else ZERO
  {
    hide Power, Mul, Pow2, Geometric, KernelTerm, SumOf, Norm;
    var n := Pow2(q);
    var d := j + (n - o);
    forall k: nat | k < n ensures f(k) == Power(Power(z, d), k) {
      KernelIsPower(z, q, j, o, k);
    }
    GeometricIsSum(f, Power(z, d), n);
    Turns(z, q);
    if j == o {
      GeometricOfOne(n);
    } else if j < o {
      WholeTurnSum(z, q, d);
    } else {
      PowerSum(z, n, j - o);
      MulOne(Power(z, j - o));
      WholeTurnSum(z, q, j - o);
    }
  }

  // ---------- the transform and its inverse ----------

  lemma {:induction false} SumAdd(f: nat -> Complex, g: nat -> Complex, h: nat -> Complex, n: nat)
    requires forall k: nat :: k < n ==> h(k) == Add(f(k), g(k))
    ensures SumOf(h, n) == Add(SumOf(f, n), SumOf(g, n))
  {
    if n > 0 { SumAdd(f, g, h, n - 1); }
  }

  lemma {:induction false} SumScale(c: Complex, f: nat -> Complex, g: nat -> Complex, n: nat)
    requires forall k: nat :: k < n ==> g(k) == Mul(c, f(k))
    ensures SumOf(g, n) == Mul(c, SumOf(f, n))
  {
    hide Mul, Add;
    if n == 0 {
      MulZero(c);
    } else {
      SumScale(c, f, g, n - 1);
      MulSum(c, SumOf(f, n - 1), f(n - 1));
    }
  }

  /** The first m terms of output k of the transform, times the factor of the inverse. */
  function BackTerm(s: seq<real>, z: Complex, m: nat, o: nat, k: nat): Complex {
    Mul(SumOf((j: nat) => DftTerm(s, z, j, k), m), Conj(Power(z, k * o)))
  }

  function BackTerms(s: seq<real>, z: Complex, m: nat, o: nat): nat -> Complex {
    (k: nat) => BackTerm(s, z, m, o, k)
  }

  function KernelTerms(z: Complex, j: nat, o: nat): nat -> Complex {
    (k: nat) => KernelTerm(z, j, o, k)
  }

  lemma BackStep(s: seq<real>, z: Complex, m: nat, o: nat, k: nat)
    ensures BackTerm(s, z, m + 1, o, k) == Add(BackTerm(s, z, m, o, k), Mul(Pair(s, m), KernelTerm(z, m, o, k)))
  {
    hide Pair, Mul, Add, Conj, Power, SumOf;
    var f := (j: nat) => DftTerm(s, z, j, k);
    SumStep(f, m);
    var p := Conj(Power(z, k * o));
    MulAdd(SumOf(f, m), DftTerm(s, z, m, k), p);
    MulAssociates(Pair(s, m), Power(z, m * k), p);
  }

  lemma {:induction false} BackSum(s: seq<real>, z: Complex, q: nat, m: nat, o: nat)
    requires Root(z, q) && o < Pow2(q) && m <= Pow2(q)
    ensures SumOf(BackTerms(s, z, m, o), Pow2(q))
         == if o < m then Scale(Pow2(q) as real, Pair(s, o)) else ZERO
  {
    hide Pow2, SumOf, Mul, Add, BackTerm, KernelTerm, Pair, Scale, Root;
    var n := Pow2(q);
    if m == 0 {
      NothingBack(s, z, o, n);
    } else {
      var l := m - 1;
      BackSum(s, z, q, l, o);
      KernelSum(KernelTerms(z, l, o), z, q, l, o);
      var g := (k: nat) => Mul(Pair(s, l), KernelTerm(z, l, o, k));
      SumScale(Pair(s, l), KernelTerms(z, l, o), g, n);
      forall k: nat | k < n
        ensures BackTerms(s, z, m, o)(k) == Add(BackTerms(s, z, l, o)(k), g(k))
      {
        BackStep(s, z, l, o, k);
      }
      SumAdd(BackTerms(s, z, l, o), g, BackTerms(s, z, m, o), n);
      MulZero(Pair(s, l));
      ScaleIsProduct(n as real, Pair(s, l));
      AddZero(Scale(n as real, Pair(s, o)));
      AddZero(ZERO);
    }
  }

  lemma ScaleIsProduct(f: real, x: Complex)
    ensures Mul(x, Complex(f, 0.0)) == Scale(f, x)
  {
  }

  lemma {:induction false} NothingBack(s: seq<real>, z: Complex, o: nat, n: nat)
    ensures SumOf(BackTerms(s, z, 0, o), n) == ZERO
  {
    hide BackTerm;
    if n > 0 {
      NothingBack(s, z, o, n - 1);
      NothingTerm(s, z, o, n - 1);
    }
  }

  lemma NothingTerm(s: seq<real>, z: Complex, o: nat, k: nat)
    ensures BackTerm(s, z, 0, o, k) == ZERO
  {
    hide Mul, Conj, Power;
    SumNone((j: nat) => DftTerm(s, z, j, k));
    ZeroTimes(Conj(Power(z, k * o)));
  }

  lemma ZeroTimes(x: Complex)
    ensures Mul(ZERO, x) == ZERO
  {
  }

  lemma ConjMul(x: Complex, y: Complex)
    ensures Conj(Mul(Conj(x), y)) == Mul(x, Conj(y))
  {
  }

  lemma {:induction false} ConjSum(f: nat -> Complex, g: nat -> Complex, n: nat)
    requires forall k: nat :: k < n ==> g(k) == Conj(f(k))
    ensures SumOf(g, n) == Conj(SumOf(f, n))
  {
    if n > 0 { ConjSum(f, g, n - 1); }
  }

  /** The conjugate of the transform of the conjugate of the transform is the array, n times. */
  lemma InverseDft(s: seq<real>, x: seq<real>, z: Complex, q: nat, o: nat)
    requires Root(z, q) && o < Pow2(q)
    requires forall k :: 0 <= k < Pow2(q) ==> Pair(x, k) == Dft(s, z, Pow2(q), k)
    ensures Conj(Dft(Conjugated(x), z, Pow2(q), o)) == Scale(Pow2(q) as real, Pair(s, o))
  {
    hide Root, Pow2, Pair, Conj, Mul, Power, Dft, DftTerm, SumOf, Conjugated, Scale;
    var n := Pow2(q);
    var f := (k: nat) => DftTerm(Conjugated(x), z, k, o);
    forall k: nat | k < n ensures BackTerms(s, z, n, o)(k) == Conj(f(k)) {
      BackTermIsConj(s, x, z, n, o, k);
    }
    ConjSum(f, BackTerms(s, z, n, o), n);
    BackSum(s, z, q, n, o);
    DftIs(Conjugated(x), z, n, o);
  }

  lemma DftIs(s: seq<real>, z: Complex, n: nat, o: nat)
    ensures Dft(s, z, n, o) == SumOf((k: nat) => DftTerm(s, z, k, o), n)
  {
  }

  lemma BackTermIsConj(s: seq<real>, x: seq<real>, z: Complex, n: nat, o: nat, k: nat)
    requires Pair(x, k) == Dft(s, z, n, k)
    ensures BackTerm(s, z, n, o, k) == Conj(DftTerm(Conjugated(x), z, k, o))
  {
    hide Pair, Conj, Mul, Power, SumOf, Conjugated;
    PairConjugated(x, k);
    ConjMul(Pair(x, k), Power(z, k * o));
  }

  // ---------- WebRtc_rdft ----------

  /** The array after `bitrv2`. */
  function Permuted(s: seq<real>, q: nat): seq<real> {
    FromPlaces(Pow2(q), (i: nat) => Pair(s, Rev(q, i)))
  }

  lemma ReversedIsPermuted(s: seq<real>, s': seq<real>, q: nat)
    requires Reversed(s, s', q)
    ensures s' == Permuted(s, q)
  {
    hide Rev, Pow2, Pair, FromPlaces;
    forall i | 0 <= i < Pow2(q) ensures Pair(s', i) == Pair(Permuted(s, q), i) {
      PairFrom(Pow2(q), (j: nat) => Pair(s, Rev(q, j)), i);
    }
    FromSize(Pow2(q), (j: nat) => Pair(s, Rev(q, j)));
    SamePairs(s', Permuted(s, q), Pow2(q));
  }

  lemma PermutedIsReversed(s: seq<real>, q: nat)
    requires |s| == 2 * Pow2(q)
    ensures Reversed(s, Permuted(s, q), q)
  {
    hide Rev, Pow2, Pair, FromPlaces;
    forall i | 0 <= i < Pow2(q) ensures Pair(Permuted(s, q), i) == Pair(s, Rev(q, i)) {
      PairFrom(Pow2(q), (j: nat) => Pair(s, Rev(q, j)), i);
    }
    FromSize(Pow2(q), (j: nat) => Pair(s, Rev(q, j)));
  }

  /** The first and the last output share one place. */
  function FirstSplit(s: seq<real>): seq<real> {
    if |s| < 2 then s else s[0 := s[0] + s[1]][1 := s[0] - s[1]]
  }

  function FirstMerged(s: seq<real>): seq<real> {
    if |s| < 2 then s else
      var x := 0.5 * (s[0] - s[1]);
      s[0 := s[0] - x][1 := x]
  }

  lemma MergedFirst(s: seq<real>)
    ensures FirstMerged(FirstSplit(s)) == s
  {
    var r := FirstMerged(FirstSplit(s));
    assert |s| >= 2 ==> r[0] == s[0] && r[1] == s[1];
  }

  /** What depends only on the size: the tables. */
  datatype Tables = Tables(w: seq<real>, nc: nat, c: seq<real>)

  /** The forward direction on 2^q complex numbers, before the first place is split. */
  function Analyzed(s: seq<real>, q: nat, t: Tables): seq<real> {
    if q == 0 then s
    else if q == 1 then Forward(s, 0, 1, t.w)
    else Result(SplitCall(Forward(Permuted(s, q), 0, q, t.w), t.nc, t.c, false))
  }

  function RealForward(s: seq<real>, q: nat, t: Tables): seq<real> {
    FirstSplit(Analyzed(s, q, t))
  }

  /** The inverse direction behind the first place; four reals go through `cftfsub` in both. */
  function Synthesized(s: seq<real>, q: nat, t: Tables): seq<real> {
    if q == 0 then s
    else if q == 1 then Forward(s, 0, 1, t.w)
    else Conjugated(Forward(Permuted(Result(SplitCall(s, t.nc, t.c, true)), q), 0, q, t.w))
  }

  function RealBackward(s: seq<real>, q: nat, t: Tables): seq<real> {
    Synthesized(FirstMerged(s), q, t)
  }

  /** The tables hold what `makewt` and `makect` are meant to fill in. */
  ghost predicate Suited(t: Tables, z: Complex, q: nat, s: seq<real>) {
    Root(z, q) && TableOf(t.w, z, q) && Circle(SplitCall(s, t.nc, t.c, false))
  }

  /** The inverse direction of the forward one gives back every number n / 2 = 2^q times. */
  lemma RealInverse(s: seq<real>, q: nat, t: Tables, z: Complex, i: nat)
    requires |s| == 2 * Pow2(q) && i < Pow2(q)
    requires q >= 2 ==> Suited(t, z, q, s)
    ensures Pair(RealBackward(RealForward(s, q, t), q, t), i) == Scale(Pow2(q) as real, Pair(s, i))
  {
    SmallPowers();
    if q == 0 {
      MergedFirst(s);
      assert i == 0;
    } else if q == 1 {
      hide Pow2, Halved, FirstSplit, FirstMerged, Pair, Scale;
      MergedFirst(Halved(s, 1));
      FinalStage(s, 0, 1, t.w);
      FinalStage(Halved(s, 1), 0, 1, t.w);
      HalvedTwice(s, i);
    } else {
      hide *;
      assert Suited(t, z, q, s);
      LongInverse(s, q, t, z, i);
    }
  }

  lemma HalvedTwice(s: seq<real>, i: nat)
    requires i < 2
    ensures Pair(Halved(Halved(s, 1), 1), i) == Scale(2.0, Pair(s, i))
  {
    hide FromPlaces, Pair;
    forall r: seq<real>, k | 0 <= k < 2 ensures Pair(Halved(r, 1), k) == HalvedOutput(r, 1, k) {
      PairFrom(2, (j: nat) => HalvedOutput(r, 1, j), k);
    }
    assert Pair(Halved(s, 1), 0) == HalvedOutput(s, 1, 0);
    assert Pair(Halved(s, 1), 1) == HalvedOutput(s, 1, 1);
  }

  lemma {:induction false} ForwardSize(s: seq<real>, e: nat, q: nat, w: seq<real>)
    requires e <= q && |s| == 2 * Pow2(q)
    ensures |Forward(s, e, q, w)| == 2 * Pow2(q)
    decreases q - e
  {
    hide Pow2, Pass, Total, Halved;
    if e < q { StageSizes(s, e, q, w); }
    if e + 2 <= q {
      ForwardSize(Pass(Work(s, Pow2(e), Pow2(q - e - 2), w)), e + 2, q, w);
    } else if e + 1 == q {
      HalvedSize(s, Pow2(e));
    }
  }

  lemma HalvedSize(s: seq<real>, h: nat)
    ensures |Halved(s, h)| == 4 * h
  {
  }

  lemma PermutedSize(s: seq<real>, q: nat)
    ensures |Permuted(s, q)| == 2 * Pow2(q)
  {
  }

  /** Merging what was split, as the two directions call it. */
  lemma SplitRestored(s: seq<real>, f: seq<real>, t: Tables, n: nat)
    requires |s| == |f| == 2 * n && Circle(SplitCall(s, t.nc, t.c, false))
    ensures Result(SplitCall(Result(SplitCall(f, t.nc, t.c, false)), t.nc, t.c, true)) == Conjugated(f)
  {
    hide Result, Conjugated, Defect;
    var r, r' := SplitCall(f, t.nc, t.c, false), SplitCall(s, t.nc, t.c, false);
    forall u | InFirstHalf(r.n, u) ensures Defect(Weight(r.(back := false), u * r.ks)) == 0.0 {
      assert InFirstHalf(r'.n, u);
      assert Weight(r, u * r.ks) == Weight(r', u * r'.ks);
    }
    ResultSize(r);
    MergeAfterSplit(r);
  }

  lemma LongInverse(s: seq<real>, q: nat, t: Tables, z: Complex, i: nat)
    requires |s| == 2 * Pow2(q) && i < Pow2(q) && q >= 2 && Suited(t, z, q, s)
    ensures Pair(RealBackward(RealForward(s, q, t), q, t), i) == Scale(Pow2(q) as real, Pair(s, i))
  {
    hide Pair, Forward, Permuted, Result, SplitCall, FirstSplit, FirstMerged, Conjugated, Conj, Scale, Pow2, Dft;
    var n := Pow2(q);
    var p := Permuted(s, q);
    var f := Forward(p, 0, q, t.w);
    PermutedIsReversed(s, q);
    forall k | 0 <= k < n ensures Pair(f, k) == Dft(s, z, n, k) {
      ForwardIsDft(s, p, z, q, t.w, k);
    }
    var r := Result(SplitCall(f, t.nc, t.c, false));
    MergedFirst(r);
    PermutedSize(s, q);
    ForwardSize(p, 0, q, t.w);
    SplitRestored(s, f, t, n);
    var m := Conjugated(f);
    PermutedIsReversed(m, q);
    ForwardIsDft(m, Permuted(m, q), z, q, t.w, i);
    PairConjugated(Forward(Permuted(m, q), 0, q, t.w), i);
    InverseDft(s, f, z, q, i);
  }

  method Analyze(n: nat, a: array<real>, bits: array<nat>, w: array<real>, nc: nat, c: array<real>, ghost q: nat)
    requires a != w && a != c && a.Length == n == 2 * Pow2(q)
    requires 4 * w.Length >= n && 4 * nc >= n && c.Length >= nc
    requires q >= 2 ==> bits.Length >= Pow2((q - 1) / 2)
    modifies a, bits
    ensures a[..] == Analyzed(old(a[..]), q, Tables(w[..], nc, c[..]))
  {
    hide Forward, Permuted, Result, SplitCall, Reversed, Pow2;
    SizeClass(q);
    if n > 4 {
      ghost var s := a[..];
      Pow2Step(q + 1);
      Bitrv2(n, bits, a, q + 1);
      ReversedIsPermuted(s, a[..], q);
      Cftfsub(n, a, w, q);
      Rftfsub(n, a, nc, c, Pow2(q - 2) * 2);
    } else if n == 4 {
      Cftfsub(n, a, w, q);
    }
  }

  method Synthesize(n: nat, a: array<real>, bits: array<nat>, w: array<real>, nc: nat, c: array<real>, ghost q: nat)
    requires a != w && a != c && a.Length == n == 2 * Pow2(q)
    requires 4 * w.Length >= n && 4 * nc >= n && c.Length >= nc
    requires q >= 2 ==> bits.Length >= Pow2((q - 1) / 2)
    modifies a, bits
    ensures a[..] == Synthesized(old(a[..]), q, Tables(w[..], nc, c[..]))
  {
    hide Forward, Permuted, Result, SplitCall, Reversed, Pow2, Conjugated;
    SizeClass(q);
    if n > 4 {
      Rftbsub(n, a, nc, c, Pow2(q - 2) * 2);
      ghost var s := a[..];
      Pow2Step(q + 1);
      Bitrv2(n, bits, a, q + 1);
      ReversedIsPermuted(s, a[..], q);
      Cftbsub(n, a, w, q);
    } else if n == 4 {
      Cftfsub(n, a, w, q);
    }
  }

  /** The two directions. `bits` is the part of `ip` behind its two counters, `w` and `c` are the
      two parts of the table. */
  method Rdft(n: nat, isgn: int, a: array<real>, bits: array<nat>, w: array<real>, nc: nat, c: array<real>,
              ghost q: nat)
    requires a != w && a != c && a.Length == n == 2 * Pow2(q)
    requires 4 * w.Length >= n && 4 * nc >= n && c.Length >= nc
    requires q >= 2 ==> bits.Length >= Pow2((q - 1) / 2)
    modifies a, bits
    ensures var t := Tables(w[..], nc, c[..]);
            a[..] == if isgn >= 0 then RealForward(old(a[..]), q, t) else RealBackward(old(a[..]), q, t)
  {
    hide Analyzed, Synthesized, Pow2;
    ghost var s0 := a[..];
    if isgn >= 0 {
      Analyze(n, a, bits, w, nc, c, q);
      ghost var s := a[..];
      var xi := a[0] - a[1];
      a[0] := a[0] + a[1];
      a[1] := xi;
      assert a[..] == FirstSplit(s);
    } else {
      a[1] := 0.5 * (a[0] - a[1]);
      a[0] := a[0] - a[1];
      assert a[..] == FirstMerged(s0);
      Synthesize(n, a, bits, w, nc, c, q);
    }
  }

  lemma SizeClass(q: nat)
    ensures 2 * Pow2(q) > 4 <==> q >= 2
    ensures 2 * Pow2(q) == 4 <==> q == 1
    ensures q >= 2 ==> Pow2(q) == 4 * Pow2(q - 2)
  {
    SmallPowers();
    if q >= 2 { PowerOfFour(q - 2); }
  }
}
