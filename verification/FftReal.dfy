/** `rftfsub`, `rftbsub` and `WebRtc_rdft` of `gbcom_common/ns/fft4g.cc`: the transform of n reals
    out of the one of n / 2 complex numbers, and its inverse. */
module FftReal {
  import opened FftBits
  import opened FftComplex
  import opened FftPass
  import opened FftTransform

  // ---------- splitting and merging ----------

  /** What one call works on: n complex numbers, the cosine table with its size and step, and the
      direction. */
  datatype Call = Call(s: seq<real>, n: nat, c: seq<real>, nc: nat, ks: nat, back: bool)

  function Read(c: seq<real>, i: int): real {
    if 0 <= i < |c| then c[i] else 0.0
  }

  /** The factor for place u, kk being its table index. */
  function Weight(r: Call, kk: int): Complex {
    var w := Complex(0.5 - Read(r.c, r.nc - kk), Read(r.c, kk));
    if r.back then Conj(w) else w
  }

  /** The part of place u that does not mirror into place n - u. */
  function Odd(r: Call, u: nat): Complex
    requires u <= r.n
  {
    Sub(Pair(r.s, u), Conj(Pair(r.s, r.n - u)))
  }

  function Share(r: Call, u: nat): Complex
    requires u <= r.n
  {
    Mul(Weight(r, u * r.ks), Odd(r, u))
  }

  /** What the call leaves in place i. */
  function Target(r: Call, i: nat): Complex
    requires i < r.n
  {
    var y := if i == 0 || 2 * i == r.n then Pair(r.s, i)
             else if 2 * i < r.n then Sub(Pair(r.s, i), Share(r, i))
             else Add(Pair(r.s, i), Conj(Share(r, r.n - i)));
    if r.back then Conj(y) else y
  }

  function Result(r: Call): seq<real> {
    FromPlaces(r.n, (i: nat) => if i < r.n then Target(r, i) else ZERO)
  }

  /** The places already in their final state when the loop stands at u. */
  predicate Final(n: nat, u: nat, i: int) {
    i == 0 || i < u || n - i < u
  }

  ghost predicate Right(r: Call, s: seq<real>, i: nat, final: bool)
    requires i < r.n
  {
    Pair(s, i) == if final then Target(r, i) else Pair(r.s, i)
  }

  predicate InArray(n: nat, i: int) {
    0 <= i < n
  }

  ghost predicate Split(r: Call, s: seq<real>, u: nat) {
    |s| == |r.s| == 2 * r.n && forall i | InArray(r.n, i) :: Right(r, s, i, Final(r.n, u, i))
  }

  lemma SplitStep(r: Call, s: seq<real>, s': seq<real>, u: nat)
    requires Split(r, s, u) && 0 < 2 * u < r.n && |s'| == |s|
    requires Pair(s', u) == Target(r, u) && Pair(s', r.n - u) == Target(r, r.n - u)
    requires forall i: nat :: 2 * i + 1 < |s| && i != u && i != r.n - u ==> Pair(s', i) == Pair(s, i)
    ensures Split(r, s', u + 1)
  {
    hide Pair, Target;
    forall i | InArray(r.n, i) ensures Right(r, s', i, Final(r.n, u + 1, i)) {
      assert Right(r, s, i, Final(r.n, u, i));
    }
  }

  /** The values one round of `rftfsub` computes. */
  method Shares(a: array<real>, c: array<real>, j: nat, k: nat, nc: nat, kk: nat, ghost r: Call, ghost u: nat)
    returns (y0: Complex, y1: Complex)
    requires !r.back && nc == r.nc && c[..] == r.c && kk <= nc && nc - kk < c.Length && kk < c.Length
    requires j == 2 * u && k == 2 * (r.n - u) && 0 < 2 * u < r.n && a.Length == 2 * r.n
    requires kk == u * r.ks && Split(r, a[..], u)
    ensures y0 == Target(r, u) && y1 == Target(r, r.n - u)
  {
    var wkr, wki := 0.5 - c[nc - kk], c[kk];
    var xr, xi := a[j] - a[k], a[j + 1] + a[k + 1];
    var yr := wkr * xr - wki * xi;
    var yi := wkr * xi + wki * xr;
    y0 := Complex(a[j] - yr, a[j + 1] - yi);
    y1 := Complex(a[k] + yr, a[k + 1] - yi);
    Waiting(r, a[..], u);
    assert Share(r, u) == Complex(yr, yi);
  }

  method SharesBack(a: array<real>, c: array<real>, j: nat, k: nat, nc: nat, kk: nat, ghost r: Call, ghost u: nat)
    returns (y0: Complex, y1: Complex)
    requires r.back && nc == r.nc && c[..] == r.c && kk <= nc && nc - kk < c.Length && kk < c.Length
    requires j == 2 * u && k == 2 * (r.n - u) && 0 < 2 * u < r.n && a.Length == 2 * r.n
    requires kk == u * r.ks && Split(r, a[..], u)
    ensures y0 == Target(r, u) && y1 == Target(r, r.n - u)
  {
    var wkr, wki := 0.5 - c[nc - kk], c[kk];
    var xr, xi := a[j] - a[k], a[j + 1] + a[k + 1];
    var yr := wkr * xr + wki * xi;
    var yi := wkr * xi - wki * xr;
    y0 := Complex(a[j] - yr, yi - a[j + 1]);
    y1 := Complex(a[k] + yr, yi - a[k + 1]);
    Waiting(r, a[..], u);
    assert Share(r, u) == Complex(yr, yi);
  }

  /** The two places of round u are still as they were. */
  lemma Waiting(r: Call, s: seq<real>, u: nat)
    requires Split(r, s, u) && 0 < 2 * u < r.n
    ensures Pair(s, u) == Pair(r.s, u) && Pair(s, r.n - u) == Pair(r.s, r.n - u)
  {
    hide Pair, Target;
    assert Right(r, s, u, Final(r.n, u, u)) && Right(r, s, r.n - u, Final(r.n, u, r.n - u));
  }

  /** How the table index grows: it stays below the size of the table. */
  lemma TableIndex(n: nat, nc: nat, ks: nat, u: nat)
    requires n > 0 && 2 * nc >= n && ks == 2 * nc / n && 2 * u < n && u > 0
    ensures 0 < u * ks < nc && u * ks + ks == (u + 1) * ks
  {
    Distribute(u, 1, ks);
    assert ks >= 1;
    assert n * ks <= 2 * nc;
    assert (2 * u) * ks < n * ks by { Smaller(2 * u, n, ks); }
    assert u * ks >= 1 by { Smaller(0, u, ks); }
    Product(u, ks);
  }

  lemma Smaller(x: int, y: int, k: int)
    requires x < y && k > 0
    ensures x * k < y * k
  {
  }

  lemma SplitStart(r: Call, s: seq<real>)
    requires |s| == |r.s| == 2 * r.n && r.n > 0 && Pair(s, 0) == Target(r, 0)
    requires forall i: nat :: 0 < i < r.n ==> Pair(s, i) == Pair(r.s, i)
    ensures Split(r, s, 1)
  {
    hide Pair, Target;
  }

  lemma SplitEnd(r: Call, s: seq<real>, s': seq<real>, h: nat)
    requires r.n == 2 * h && h > 0 && Split(r, s, h) && |s'| == |s|
    requires Pair(s', h) == if r.back then Conj(Pair(s, h)) else Pair(s, h)
    requires forall i: nat :: i < r.n && i != h ==> Pair(s', i) == Pair(s, i)
    ensures s' == Result(r)
  {
    hide Pair, Share, FromPlaces, Conj;
    forall i | 0 <= i < r.n ensures Pair(s', i) == Pair(Result(r), i) {
      assert Right(r, s, i, Final(r.n, h, i));
      PairFrom(r.n, (j: nat) => if j < r.n then Target(r, j) else ZERO, i);
    }
    SamePairs(s', Result(r), r.n);
  }

  function SplitCall(s: seq<real>, nc: nat, c: seq<real>, back: bool): Call {
    Call(s, |s| / 2, c, nc, if |s| / 2 > 0 then 2 * nc / (|s| / 2) else 0, back)
  }

  method Rftfsub(n: nat, a: array<real>, nc: nat, c: array<real>, ghost h: nat)
    requires a != c && a.Length == n == 4 * h && h > 0 && 4 * nc >= n && c.Length >= nc
    modifies a
    ensures a[..] == Result(SplitCall(old(a[..]), nc, c[..], false))
  {
    hide Split, Result, Pair, Target;
    ghost var r := SplitCall(a[..], nc, c[..], false);
    var m := n / 2;
    var ks := 2 * nc / m;
    var kk := 0;
    var j := 2;
    ghost var u := 1;
    assert Pair(a[..], 0) == Target(r, 0) by { TargetOfZero(r); }
    SplitStart(r, a[..]);
    TimesZeroAndOne(ks);
    while j < m
      invariant j == 2 * u && 1 <= u <= h && kk == (u - 1) * ks
      invariant c[..] == r.c && Split(r, a[..], u)
    {
      ghost var s := a[..];
      var k := n - j;
      TableIndex(m, nc, ks, u);
      Distribute(u - 1, 1, ks);
      kk := kk + ks;
      var y0, y1 := Shares(a, c, j, k, nc, kk, r, u);
      StoreTwo(a, j, k, y0, y1, u, r.n - u);
      SplitStep(r, s, a[..], u);
      j := j + 2;
      u := u + 1;
    }
    SplitEnd(r, a[..], a[..], h);
  }

  lemma TargetOfZero(r: Call)
    requires r.n > 0
    ensures Target(r, 0) == if r.back then Conj(Pair(r.s, 0)) else Pair(r.s, 0)
  {
  }

  lemma TimesZeroAndOne(k: int)
    ensures 0 * k == 0 && 1 * k == k
  {
  }

  /** Negating the imaginary part of one place. */
  method Negate(a: array<real>, ghost p: nat, j: nat)
    requires j == 2 * p + 1 < a.Length
    modifies a
    ensures Pair(a[..], p) == Conj(Pair(old(a[..]), p))
    ensures forall i: nat :: 2 * i + 1 < a.Length && i != p ==> Pair(a[..], i) == Pair(old(a[..]), i)
  {
    a[j] := -a[j];
  }

  method Rftbsub(n: nat, a: array<real>, nc: nat, c: array<real>, ghost h: nat)
    requires a != c && a.Length == n == 4 * h && h > 0 && 4 * nc >= n && c.Length >= nc
    modifies a
    ensures a[..] == Result(SplitCall(old(a[..]), nc, c[..], true))
  {
    hide Split, Result, Pair, Target;
    ghost var r := SplitCall(a[..], nc, c[..], true);
    Negate(a, 0, 1);
    var m := n / 2;
    var ks := 2 * nc / m;
    var kk := 0;
    var j := 2;
    ghost var u := 1;
    TargetOfZero(r);
    SplitStart(r, a[..]);
    TimesZeroAndOne(ks);
    while j < m
      invariant j == 2 * u && 1 <= u <= h && kk == (u - 1) * ks
      invariant c[..] == r.c && Split(r, a[..], u)
    {
      ghost var s := a[..];
      var k := n - j;
      TableIndex(m, nc, ks, u);
      Distribute(u - 1, 1, ks);
      kk := kk + ks;
      var y0, y1 := SharesBack(a, c, j, k, nc, kk, r, u);
      StoreTwo(a, j, k, y0, y1, u, r.n - u);
      SplitStep(r, s, a[..], u);
      j := j + 2;
      u := u + 1;
    }
    ghost var s := a[..];
    Negate(a, h, m + 1);
    SplitEnd(r, s, a[..], h);
  }

  // ---------- the two undo each other ----------

  function Scale(f: real, x: Complex): Complex {
    Complex(f * x.re, f * x.im)
  }

  /** How far the weight w misses what merging after splitting needs. */
  function Defect(w: Complex): real {
    2.0 * (w.re - Norm(w))
  }

  /** Merging what was split gives the conjugate, up to the defect of the weight. */
  lemma MergeSplit(x: Complex, y: Complex, w: Complex)
    ensures var d := Sub(x, Conj(y));
            var x', y' := Sub(x, Mul(w, d)), Add(y, Conj(Mul(w, d)));
            var d' := Sub(x', Conj(y'));
            && Conj(Sub(x', Mul(Conj(w), d'))) == Conj(Sub(x, Scale(Defect(w), d)))
            && Conj(Add(y', Conj(Mul(Conj(w), d')))) == Conj(Add(y, Conj(Scale(Defect(w), d))))
  {
    var d := Sub(x, Conj(y));
    var m := Mul(w, d);
    var d' := Sub(Sub(x, m), Conj(Add(y, Conj(m))));
    assert d' == Complex(d.re - 2.0 * m.re, d.im - 2.0 * m.im);
    DoubleShare(w, d);
  }

  lemma DoubleShare(w: Complex, d: Complex)
    ensures var m := Mul(w, d);
            Add(m, Mul(Conj(w), Complex(d.re - 2.0 * m.re, d.im - 2.0 * m.im))) == Scale(Defect(w), d)
  {
    var a, b, r, i := w.re, w.im, d.re, d.im;
    var p, q := a * r - b * i, a * i + b * r;
    Expand(a, b, r, i);
    assert a * (r - 2.0 * p) == a * r - 2.0 * (a * p);
    assert b * (i - 2.0 * q) == b * i - 2.0 * (b * q);
    assert a * (i - 2.0 * q) == a * i - 2.0 * (a * q);
    assert b * (r - 2.0 * p) == b * r - 2.0 * (b * p);
  }

  lemma Expand(a: real, b: real, r: real, i: real)
    ensures var p, q := a * r - b * i, a * i + b * r;
            && a * p + b * q == (a * a + b * b) * r
            && a * q - b * p == (a * a + b * b) * i
  {
  }

  /** The weight of place u misses nothing exactly when twice its two table entries lie on the
      unit circle. */
  lemma DefectOfWeight(r: Call, kk: int)
    requires !r.back
    ensures var x, y := 2.0 * Read(r.c, r.nc - kk), 2.0 * Read(r.c, kk);
            Defect(Weight(r, kk)) == (1.0 - x * x - y * y) / 2.0
  {
    var a, b := Read(r.c, r.nc - kk), Read(r.c, kk);
    assert (0.5 - a) * (0.5 - a) == 0.25 - a + a * a;
    assert (2.0 * a) * (2.0 * a) == 4.0 * (a * a) && (2.0 * b) * (2.0 * b) == 4.0 * (b * b);
  }

  predicate InFirstHalf(n: nat, u: int) {
    0 < 2 * u < n
  }

  /** Twice the table entries every place needs lie on the unit circle. */
  ghost predicate Circle(r: Call) {
    forall u | InFirstHalf(r.n, u) :: Defect(Weight(r.(back := false), u * r.ks)) == 0.0
  }

  lemma Outputs(r: Call, i: nat)
    requires i < r.n
    ensures Pair(Result(r), i) == Target(r, i)
  {
    hide Target, Pair, FromPlaces;
    PairFrom(r.n, (j: nat) => if j < r.n then Target(r, j) else ZERO, i);
  }

  lemma BackWeight(r: Call, s: seq<real>, kk: int)
    requires !r.back
    ensures Weight(r.(s := s, back := true), kk) == Conj(Weight(r, kk))
  {
  }

  /** Merging after splitting, place by place: what is left is the defect times the odd part. */
  lemma MergedAt(r: Call, u: nat)
    requires !r.back && 0 < 2 * u < r.n
    ensures var back := r.(s := Result(r), back := true);
            var d, f := Odd(r, u), Defect(Weight(r, u * r.ks));
            && Pair(Result(back), u) == Conj(Sub(Pair(r.s, u), Scale(f, d)))
            && Pair(Result(back), r.n - u) == Conj(Add(Pair(r.s, r.n - u), Conj(Scale(f, d))))
  {
    hide Pair, Result, Weight, Defect, Mul, Conj, Add, Sub, Target, Share, Scale;
    var back := r.(s := Result(r), back := true);
    Targets(r, u);
    Targets(back, u);
    Outputs(r, u);
    Outputs(r, r.n - u);
    Outputs(back, u);
    Outputs(back, r.n - u);
    BackWeight(r, Result(r), u * r.ks);
    MergeSplit(Pair(r.s, u), Pair(r.s, r.n - u), Weight(r, u * r.ks));
  }

  lemma Targets(r: Call, u: nat)
    requires 0 < 2 * u < r.n
    ensures var y := Mul(Weight(r, u * r.ks), Odd(r, u));
            var y0, y1 := Sub(Pair(r.s, u), y), Add(Pair(r.s, r.n - u), Conj(y));
            && Target(r, u) == (if r.back then Conj(y0) else y0)
            && Target(r, r.n - u) == (if r.back then Conj(y1) else y1)
  {
    hide Pair, Weight, Mul, Conj, Add, Sub, Odd;
    assert r.n - (r.n - u) == u;
  }

  lemma MergedOnAxis(r: Call, i: nat)
    requires !r.back && i < r.n && (i == 0 || 2 * i == r.n)
    ensures Pair(Result(r.(s := Result(r), back := true)), i) == Conj(Pair(r.s, i))
  {
    hide Pair, Result, Share, Conj;
    Outputs(r, i);
    Outputs(r.(s := Result(r), back := true), i);
  }

  lemma NoDefect(x: Complex, d: Complex, f: real)
    requires f == 0.0
    ensures Sub(x, Scale(f, d)) == x && Add(x, Conj(Scale(f, d))) == x
  {
    hide Scale, Sub, Add, Conj;
    ScaleZero(f, d);
    WithoutZero(x);
  }

  lemma WithoutZero(x: Complex)
    ensures Sub(x, ZERO) == x && Add(x, Conj(ZERO)) == x
  {
  }

  lemma ScaleZero(f: real, d: Complex)
    requires f == 0.0
    ensures Scale(f, d) == ZERO
  {
    TimesNothing(f, d.re);
    TimesNothing(f, d.im);
  }

  lemma TimesNothing(f: real, x: real)
    requires f == 0.0
    ensures f * x == 0.0
  {
  }

  /** `rftbsub` after `rftfsub` conjugates the array, for a table on the circle. */
  lemma MergeAfterSplit(r: Call)
    requires !r.back && |r.s| == 2 * r.n && Circle(r)
    ensures Result(r.(s := Result(r), back := true)) == Conjugated(r.s)
  {
    hide Pair, Result, Conjugated, Weight, Defect, Odd, Conj, Sub, Add;
    var back := r.(s := Result(r), back := true);
    forall i | 0 <= i < r.n ensures Pair(Result(back), i) == Pair(Conjugated(r.s), i) {
      PairConjugated(r.s, i);
      if i == 0 || 2 * i == r.n {
        MergedOnAxis(r, i);
      } else {
        var u := if 2 * i < r.n then i else r.n - i;
        MergedAt(r, u);
        assert InFirstHalf(r.n, u);
        NoDefect(Pair(r.s, i), Odd(r, u), Defect(Weight(r, u * r.ks)));
      }
    }
    ResultSize(back);
    SamePairs(Result(back), Conjugated(r.s), r.n);
  }

  lemma ResultSize(r: Call)
    ensures |Result(r)| == 2 * r.n
  {
  }

  /** The array with a one in place u. */
  function Unit(n: nat, u: nat): seq<real> {
    FromPlaces(n, (i: nat) => if i == u then ONE else ZERO)
  }

  lemma UnitAt(n: nat, u: nat, i: nat)
    requires i < n
    ensures Pair(Unit(n, u), i) == (if i == u then ONE else ZERO) && |Unit(n, u)| == 2 * n
  {
    hide FromPlaces;
    PairFrom(n, (j: nat) => if j == u then ONE else ZERO, i);
    FromSize(n, (j: nat) => if j == u then ONE else ZERO);
  }

  /** Off the circle there is an array that merging does not bring back. */
  lemma OffCircle(r: Call, u: nat)
    requires !r.back && InFirstHalf(r.n, u) && Defect(Weight(r, u * r.ks)) != 0.0
    ensures var q := r.(s := Unit(r.n, u));
            |q.s| == 2 * r.n && Result(q.(s := Result(q), back := true)) != Conjugated(q.s)
  {
    hide Pair, Result, Conjugated, Weight, Defect, Unit, Scale, Odd, Conj, Sub, Add;
    var q := r.(s := Unit(r.n, u));
    UnitAt(r.n, u, u);
    UnitAt(r.n, u, r.n - u);
    MergedAt(q, u);
    PairConjugated(q.s, u);
    SameWeight(r, q.s, u * r.ks);
    OddOfUnit(q, u);
    Missed(Defect(Weight(r, u * r.ks)));
  }

  lemma OddOfUnit(q: Call, u: nat)
    requires u <= q.n && Pair(q.s, u) == ONE && Pair(q.s, q.n - u) == ZERO
    ensures Odd(q, u) == ONE
  {
    hide Pair;
  }

  lemma Missed(f: real)
    requires f != 0.0
    ensures Conj(Sub(ONE, Scale(f, ONE))) != Conj(ONE)
  {
    hide Scale;
    ScaleOne(f);
  }

  lemma ScaleOne(f: real)
    ensures Scale(f, ONE) == Complex(f, 0.0)
  {
  }

  lemma FromSize(n: nat, f: nat -> Complex)
    ensures |FromPlaces(n, f)| == 2 * n
  {
  }

  lemma SameWeight(r: Call, s: seq<real>, kk: int)
    requires !r.back
    ensures Weight(r.(s := s), kk) == Weight(r, kk)
  {
  }
}
