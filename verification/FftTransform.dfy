/** `cftfsub` and `cftbsub` of `gbcom_common/ns/fft4g.cc`: passes with growing stride and a last
    stage, which `cftbsub` has in a form of its own. */
module FftTransform {
  import opened FftBits
  import opened FftComplex
  import opened FftPass

  // ---------- passes as functions ----------

  function FromPlaces(n: nat, f: nat -> Complex): (s: seq<real>)
    ensures |s| == 2 * n
  {
    seq(2 * n, k requires 0 <= k < 2 * n => if k % 2 == 0 then f(k / 2).re else f(k / 2).im)
  }

  lemma PairFrom(n: nat, f: nat -> Complex, i: nat)
    requires i < n
    ensures Pair(FromPlaces(n, f), i) == f(i)
  {
    assert (2 * i) / 2 == i && (2 * i + 1) / 2 == i;
  }

  function Pick(x: Quad, c: nat): Complex {
    if c == 0 then x.x0 else if c == 1 then x.x1 else if c == 2 then x.x2 else x.x3
  }

  function Group(h: nat, i: nat): nat
    requires h > 0
  {
    i / h / 4
  }

  /** Which of the four outputs of its quadruple stands in place i. */
  function Branch(h: nat, i: nat): nat
    requires h > 0
  {
    i / h % 4
  }

  function Offset(h: nat, i: nat): nat
    requires h > 0
  {
    i % h
  }

  /** What a pass leaves in place i. */
  function Output(f: Work, i: nat): Complex
    requires f.h > 0
  {
    hide *;
    var g := Group(f.h, i);
    Pick(Turn(QuadAt(f.s, Base(f.h, g, Offset(f.h, i)), f.h), Factors(f.w, g)), Branch(f.h, i))
  }

  function Pass(f: Work): (s: seq<real>)
    requires f.h > 0
    ensures |s| == Total(f)
  {
    FromPlaces(f.G * (4 * f.h), (i: nat) => Output(f, i))
  }

  lemma PassedIsPass(f: Work, s: seq<real>)
    requires f.h > 0 && Passed(f, s)
    ensures s == Pass(f)
  {
    hide Output, Pair, Total, FromPlaces;
    Size(f, s, f.G, 0);
    var n := f.G * (4 * f.h);
    assert Total(f) == 2 * n by { TotalIs(f); }
    forall i | 0 <= i < n ensures Pair(s, i) == Pair(Pass(f), i) {
      PairFrom(n, (j: nat) => Output(f, j), i);
      PassedAt(f, s, i);
    }
    SamePairs(s, Pass(f), n);
  }

  lemma TotalIs(f: Work)
    ensures Total(f) == 2 * (f.G * (4 * f.h))
  {
  }

  lemma PassedAt(f: Work, s: seq<real>, i: nat)
    requires f.h > 0 && Passed(f, s) && i < f.G * (4 * f.h)
    ensures Pair(s, i) == Output(f, i)
  {
    hide Pair, Turn, Factors, Total;
    var g, c, o := Place(f.h, f.G, i);
    assert Ready(f.s, s, f.h, Base(f.h, g, o), Factors(f.w, g), true);
  }

  lemma Place(h: nat, G: nat, i: nat) returns (g: nat, c: nat, o: nat)
    requires h > 0 && i < G * (4 * h)
    ensures InRange(h, G, g, o) && c < 4 && i == Base(h, g, o) + c * h
    ensures g == Group(h, i) && c == Branch(h, i) && o == Offset(h, i)
  {
    var x := i / h;
    g, c, o := x / 4, x % 4, i % h;
    Fourfold(G, h);
    Quotient(i, h, 4 * G);
    Distribute(4 * g, c, h);
    Fourfold(g, h);
  }

  lemma Fourfold(g: nat, h: nat)
    ensures g * (4 * h) == (4 * g) * h
  {
  }

  // ---------- the last stage ----------

  function Halved(s: seq<real>, h: nat): seq<real> {
    FromPlaces(2 * h, (i: nat) => HalvedOutput(s, h, i))
  }

  /** The two-point transforms of numbers h apart. */
  function HalvedOutput(s: seq<real>, h: nat, i: nat): Complex {
    if i < h then Add(Pair(s, i), Pair(s, i + h)) else Sub(Pair(s, i - h), Pair(s, i))
  }

  function Conjugated(s: seq<real>): (r: seq<real>)
    ensures |r| == |s|
  {
    seq(|s|, k requires 0 <= k < |s| => if k % 2 == 0 then s[k] else -s[k])
  }

  lemma PairConjugated(s: seq<real>, i: nat)
    ensures Pair(Conjugated(s), i) == Conj(Pair(s, i))
  {
    assert (2 * i) % 2 == 0 && (2 * i + 1) % 2 == 1;
  }

  /** The transform: passes with the strides 2^e, 2^(e+2), ..., and a two-point stage when one
      factor two is left. */
  function Forward(s: seq<real>, e: nat, q: nat, w: seq<real>): seq<real>
    decreases q - e
  {
    if e + 2 <= q then Forward(Pass(Work(s, Pow2(e), Pow2(q - e - 2), w)), e + 2, q, w)
    else if e + 1 == q then Halved(s, Pow2(e))
    else s
  }

  method RadixFour(l: nat, a: array<real>, ghost h: nat, ghost w: seq<real>)
    requires h > 0 && l == 2 * h && a.Length == 2 * (1 * (4 * h))
    modifies a
    ensures a[..] == Pass(Work(old(a[..]), h, 1, w))
  {
    hide Progress, Base, Total, Indices, Pass;
    ghost var f := Work(a[..], h, 1, w);
    NextStart(h, 0);
    TotalIs(f);
    Start(f);
    var j := 0;
    ghost var o := 0;
    while j < l
      invariant o <= h && j == 2 * o && Progress(f, a[..], 0, o)
    {
      FirstIndices(f, a.Length, 0, o, 0, j);
      TurnPlain(a, j, j + l, j + l + l, j + l + l + l, f, o);
      j := j + 2;
      o := o + 1;
    }
    NextGroup(f, a[..], 0);
    assert Passed(f, a[..]);
    PassedIsPass(f, a[..]);
  }

  function ConjQuad(x: Quad): Quad {
    Quad(Conj(x.x0), Conj(x.x1), Conj(x.x2), Conj(x.x3))
  }

  /** The last stage of `cftbsub` with the offsets before oc done. */
  ghost predicate BackReady(s0: seq<real>, s: seq<real>, h: nat, o: nat, oc: nat) {
    var was := QuadAt(s0, o, h);
    QuadAt(s, o, h) == if o < oc then ConjQuad(Turn(was, PLAIN)) else was
  }

  predicate Offsets(h: nat, o: int) {
    0 <= o < h
  }

  ghost predicate BackProgress(s0: seq<real>, s: seq<real>, h: nat, oc: nat) {
    && |s0| == |s| == 8 * h
    && forall o | Offsets(h, o) :: BackReady(s0, s, h, o, oc)
  }

  method SumsBack(a: array<real>, j: nat, j1: nat, j2: nat, j3: nat, ghost p: nat, ghost h: nat) returns (y: Quad)
    requires j == 2 * p && j1 == j + 2 * h && j2 == j1 + 2 * h && j3 == j2 + 2 * h && j3 + 1 < a.Length
    ensures y == ConjQuad(Turn(QuadAt(a[..], p, h), PLAIN))
  {
    var x0r, x0i := a[j] + a[j1], -a[j + 1] - a[j1 + 1];
    var x1r, x1i := a[j] - a[j1], -a[j + 1] + a[j1 + 1];
    var x2r, x2i := a[j2] + a[j3], a[j2 + 1] + a[j3 + 1];
    var x3r, x3i := a[j2] - a[j3], a[j2 + 1] - a[j3 + 1];
    y := Quad(Complex(x0r + x2r, x0i - x2i), Complex(x1r - x3i, x1i - x3r),
              Complex(x0r - x2r, x0i + x2i), Complex(x1r + x3i, x1i + x3r));
    assert Complex(a[j], a[j + 1]) == Pair(a[..], p);
    assert Complex(a[j1], a[j1 + 1]) == Pair(a[..], p + h);
    assert Complex(a[j2], a[j2 + 1]) == Pair(a[..], p + 2 * h);
    assert Complex(a[j3], a[j3 + 1]) == Pair(a[..], p + 3 * h);
  }

  lemma BackAdvance(s0: seq<real>, s: seq<real>, s': seq<real>, h: nat, oc: nat)
    requires oc < h && BackProgress(s0, s, h, oc)
    requires Placed(s, s', oc, h, ConjQuad(Turn(QuadAt(s, oc, h), PLAIN)))
    ensures BackProgress(s0, s', h, oc + 1)
  {
    hide Pair, Turn, QuadAt, ConjQuad;
    forall o | Offsets(h, o) ensures BackReady(s0, s', h, o, oc + 1) {
      assert BackReady(s0, s, h, o, oc);
      if o != oc {
        Untouched(s, s', oc, o, h);
      }
    }
  }

  method RadixFourBack(l: nat, a: array<real>, ghost h: nat, ghost w: seq<real>)
    requires h > 0 && l == 2 * h && a.Length == 8 * h
    modifies a
    ensures a[..] == Conjugated(Pass(Work(old(a[..]), h, 1, w)))
  {
    hide *;
    ghost var s0 := a[..];
    BackStart(s0, h);
    var j := 0;
    ghost var o := 0;
    while j < l
      invariant o <= h && j == 2 * o && BackProgress(s0, a[..], h, o)
    {
      ghost var s := a[..];
      var y := SumsBack(a, j, j + l, j + l + l, j + l + l + l, o, h);
      Store(a, j, j + l, j + l + l, j + l + l + l, y, o, h);
      BackAdvance(s0, s, a[..], h, o);
      j := j + 2;
      o := o + 1;
    }
    BackEnd(s0, a[..], h, w);
  }

  lemma BackStart(s: seq<real>, h: nat)
    requires |s| == 8 * h
    ensures BackProgress(s, s, h, 0)
  {
    hide QuadAt;
  }

  lemma BackEnd(s0: seq<real>, s: seq<real>, h: nat, w: seq<real>)
    requires h > 0 && BackProgress(s0, s, h, h)
    ensures s == Conjugated(Pass(Work(s0, h, 1, w)))
  {
    hide Output, Pair, Turn, Total, FromPlaces, Conjugated, Conj;
    var f := Work(s0, h, 1, w);
    TotalIs(f);
    var r := Pass(f);
    forall i | 0 <= i < 4 * h ensures Pair(s, i) == Pair(Conjugated(r), i) {
      PairFrom(4 * h, (j: nat) => Output(f, j), i);
      PairConjugated(r, i);
      BackAt(s0, s, h, w, i);
    }
    SamePairs(s, Conjugated(r), 4 * h);
  }

  lemma BackAt(s0: seq<real>, s: seq<real>, h: nat, w: seq<real>, i: nat)
    requires h > 0 && BackProgress(s0, s, h, h) && i < 4 * h
    ensures Pair(s, i) == Conj(Output(Work(s0, h, 1, w), i))
  {
    hide Pair, Turn, Factors, Total, Conj;
    var g, c, o := Place(h, 1, i);
    FirstFactors(w, 0);
    assert BackReady(s0, s, h, o, h);
  }

  /** The two-point stage with the offsets before oc done, conjugated when `back` is set. */
  ghost predicate HalvedReady(s0: seq<real>, s: seq<real>, h: nat, o: nat, oc: nat, back: bool) {
    var x, y := Pair(s0, o), Pair(s0, o + h);
    if o >= oc then Pair(s, o) == x && Pair(s, o + h) == y
    else if back then Pair(s, o) == Conj(Add(x, y)) && Pair(s, o + h) == Conj(Sub(x, y))
    else Pair(s, o) == Add(x, y) && Pair(s, o + h) == Sub(x, y)
  }

  ghost predicate HalvedProgress(s0: seq<real>, s: seq<real>, h: nat, oc: nat, back: bool) {
    && |s0| == |s| == 4 * h
    && forall o | Offsets(h, o) :: HalvedReady(s0, s, h, o, oc, back)
  }

  lemma HalvedAdvance(s0: seq<real>, s: seq<real>, s': seq<real>, h: nat, oc: nat, back: bool)
    requires oc < h && HalvedProgress(s0, s, h, oc, back) && |s'| == |s|
    requires forall i: nat :: i < 2 * h && i != oc && i != oc + h ==> Pair(s', i) == Pair(s, i)
    requires var x, y := Pair(s, oc), Pair(s, oc + h);
             && Pair(s', oc) == (if back then Conj(Add(x, y)) else Add(x, y))
             && Pair(s', oc + h) == (if back then Conj(Sub(x, y)) else Sub(x, y))
    ensures HalvedProgress(s0, s', h, oc + 1, back)
  {
    hide Pair, Add, Sub, Conj;
    forall o | Offsets(h, o) ensures HalvedReady(s0, s', h, o, oc + 1, back) {
      assert HalvedReady(s0, s, h, o, oc, back);
    }
  }

  /** Stores two results. */
  method StoreTwo(a: array<real>, j: nat, j1: nat, y0: Complex, y1: Complex, ghost p: nat, ghost p1: nat)
    requires p != p1 && j == 2 * p && j1 == 2 * p1 && j + 1 < a.Length && j1 + 1 < a.Length
    modifies a
    ensures Pair(a[..], p) == y0 && Pair(a[..], p1) == y1
    ensures forall i: nat :: 2 * i + 1 < a.Length && i != p && i != p1 ==> Pair(a[..], i) == Pair(old(a[..]), i)
  {
    a[j] := y0.re;
    a[j + 1] := y0.im;
    a[j1] := y1.re;
    a[j1 + 1] := y1.im;
  }

  method SumsTwo(a: array<real>, j: nat, j1: nat, back: bool, ghost p: nat, ghost h: nat)
    returns (y0: Complex, y1: Complex)
    requires j == 2 * p && j1 == j + 2 * h && j1 + 1 < a.Length
    ensures var x, y := Pair(a[..], p), Pair(a[..], p + h);
            && y0 == (if back then Conj(Add(x, y)) else Add(x, y))
            && y1 == (if back then Conj(Sub(x, y)) else Sub(x, y))
  {
    if back {
      y1 := Complex(a[j] - a[j1], -a[j + 1] + a[j1 + 1]);
      y0 := Complex(a[j] + a[j1], -a[j + 1] - a[j1 + 1]);
    } else {
      y1 := Complex(a[j] - a[j1], a[j + 1] - a[j1 + 1]);
      y0 := Complex(a[j] + a[j1], a[j + 1] + a[j1 + 1]);
    }
  }

  method RadixTwo(l: nat, a: array<real>, back: bool, ghost h: nat)
    requires h > 0 && l == 2 * h && a.Length == 4 * h
    modifies a
    ensures a[..] == if back then Conjugated(Halved(old(a[..]), h)) else Halved(old(a[..]), h)
  {
    hide *;
    ghost var s0 := a[..];
    HalvedStart(s0, h, back);
    var j := 0;
    ghost var o := 0;
    while j < l
      invariant o <= h && j == 2 * o && HalvedProgress(s0, a[..], h, o, back)
    {
      ghost var s := a[..];
      var y0, y1 := SumsTwo(a, j, j + l, back, o, h);
      StoreTwo(a, j, j + l, y0, y1, o, o + h);
      HalvedAdvance(s0, s, a[..], h, o, back);
      j := j + 2;
      o := o + 1;
    }
    HalvedEnd(s0, a[..], h, back);
  }

  lemma HalvedStart(s: seq<real>, h: nat, back: bool)
    requires |s| == 4 * h
    ensures HalvedProgress(s, s, h, 0, back)
  {
    hide Pair;
  }

  lemma HalvedEnd(s0: seq<real>, s: seq<real>, h: nat, back: bool)
    requires HalvedProgress(s0, s, h, h, back)
    ensures s == if back then Conjugated(Halved(s0, h)) else Halved(s0, h)
  {
    hide Pair, FromPlaces, Conjugated, Add, Sub, Conj;
    var r := Halved(s0, h);
    forall i | 0 <= i < 2 * h
      ensures Pair(s, i) == Pair(if back then Conjugated(r) else r, i)
    {
      PairFrom(2 * h, (j: nat) => HalvedOutput(s0, h, j), i);
      PairConjugated(r, i);
      assert HalvedReady(s0, s, h, if i < h then i else i - h, h, back);
    }
    SamePairs(s, if back then Conjugated(r) else r, 2 * h);
  }

  // ---------- the transforms ----------

  /** The sizes of one pass: groups, table entries, and what is left. */
  lemma StageSizes(s: seq<real>, e: nat, q: nat, w: seq<real>)
    requires e + 1 <= q
    ensures 4 * (2 * Pow2(e)) < 2 * Pow2(q) <==> e + 2 < q
    ensures 4 * (2 * Pow2(e)) == 2 * Pow2(q) <==> e + 2 == q
    ensures e + 2 < q ==> Pow2(q - e - 2) == 2 * Pow2(q - e - 3) && 4 * (4 * Pow2(q - e - 3)) <= 2 * Pow2(q)
    ensures e + 2 <= q ==> Total(Work(s, Pow2(e), Pow2(q - e - 2), w)) == 2 * Pow2(q)
    ensures e + 1 == q ==> 2 * Pow2(e) == Pow2(q)
  {
    Pow2Step(e + 1);
    Pow2Step(e + 2);
    if e + 2 < q {
      Pow2Order(e + 2, q);
      Pow2Step(q - e - 2);
      Pow2Step(q - e - 1);
      Pow2Order(q - e - 1, q - 1);
      Pow2Step(q);
    }
    if e + 2 <= q { Pow2Sum(q - e - 2, e + 2); }
  }

  lemma ForwardStep(s: seq<real>, e: nat, q: nat, w: seq<real>)
    requires e + 2 <= q
    ensures Forward(s, e, q, w) == Forward(Pass(Work(s, Pow2(e), Pow2(q - e - 2), w)), e + 2, q, w)
  {
    hide Pass, Pow2;
  }

  lemma SmallPowers()
    ensures Pow2(0) == 1 && Pow2(1) == 2 && Pow2(2) == 4 && Pow2(3) == 8
  {
  }

  /** One round of the passes. */
  method FirstPass(n: nat, a: array<real>, w: array<real>, ghost q: nat)
    requires a != w && q >= 3 && n == a.Length == 2 * Pow2(q) && 4 * w.Length >= n
    modifies a
    ensures Forward(a[..], 2, q, w[..]) == Forward(old(a[..]), 0, q, w[..])
  {
    hide *;
    SmallPowers();
    ghost var f := Work(a[..], 1, Pow2(q - 2), w[..]);
    StageSizes(a[..], 0, q, w[..]);
    ForwardStep(a[..], 0, q, w[..]);
    Cft1st(n, a, w, f, Pow2(q - 3));
    PassedIsPass(f, a[..]);
  }

  method NextPass(n: nat, l: nat, a: array<real>, w: array<real>, ghost e: nat, ghost q: nat)
    requires a != w && e + 2 < q && n == a.Length == 2 * Pow2(q) && 4 * w.Length >= n && l == 2 * Pow2(e)
    modifies a
    ensures Forward(a[..], e + 2, q, w[..]) == Forward(old(a[..]), e, q, w[..])
  {
    hide *;
    ghost var f := Work(a[..], Pow2(e), Pow2(q - e - 2), w[..]);
    StageSizes(a[..], e, q, w[..]);
    ForwardStep(a[..], e, q, w[..]);
    Cftmdl(n, l, a, w, f, Pow2(q - e - 3));
    PassedIsPass(f, a[..]);
  }

  /** The passes before the last stage. */
  method Passes(n: nat, a: array<real>, w: array<real>, ghost q: nat) returns (l: nat, ghost e: nat)
    requires a != w && q >= 1 && n == a.Length == 2 * Pow2(q) && 4 * w.Length >= n
    modifies a
    ensures (e + 2 == q || e + 1 == q) && l == 2 * Pow2(e)
    ensures Forward(a[..], e, q, w[..]) == Forward(old(a[..]), 0, q, w[..])
  {
    hide *;
    l, e := 2, 0;
    SmallPowers();
    StageSizes(a[..], 0, q, w[..]);
    if n > 8 {
      FirstPass(n, a, w, q);
      l, e := 8, 2;
      StageSizes(a[..], e, q, w[..]);
      while l * 4 < n
        invariant e + 1 <= q && l == 2 * Pow2(e) && (l * 4 < n <==> e + 2 < q)
        invariant Forward(a[..], e, q, w[..]) == Forward(old(a[..]), 0, q, w[..])
        decreases q - e
      {
        NextPass(n, l, a, w, e, q);
        l := l * 4;
        PowerOfFour(e);
        e := e + 2;
        StageSizes(a[..], e, q, w[..]);
      }
    }
  }

  lemma PowerOfFour(e: nat)
    ensures Pow2(e + 2) == 4 * Pow2(e)
  {
    Pow2Step(e + 1);
    Pow2Step(e + 2);
  }

  lemma FinalStage(s: seq<real>, e: nat, q: nat, w: seq<real>)
    requires e + 2 == q || e + 1 == q
    ensures Forward(s, e, q, w)
      == if e + 2 == q then Pass(Work(s, Pow2(e), 1, w)) else Halved(s, Pow2(e))
  {
    hide Pass, Halved;
    SmallPowers();
  }

  method Cftfsub(n: nat, a: array<real>, w: array<real>, ghost q: nat)
    requires a != w && q >= 1 && n == a.Length == 2 * Pow2(q) && 4 * w.Length >= n
    modifies a
    ensures a[..] == Forward(old(a[..]), 0, q, w[..])
  {
    hide *;
    var l;
    ghost var e;
    l, e := Passes(n, a, w, q);
    StageSizes(a[..], e, q, w[..]);
    FinalStage(a[..], e, q, w[..]);
    if l * 4 == n {
      RadixFour(l, a, Pow2(e), w[..]);
    } else {
      RadixTwo(l, a, false, Pow2(e));
    }
  }

  /** The backward transform of any array is the complex conjugate of the forward one. */
  method Cftbsub(n: nat, a: array<real>, w: array<real>, ghost q: nat)
    requires a != w && q >= 1 && n == a.Length == 2 * Pow2(q) && 4 * w.Length >= n
    modifies a
    ensures a[..] == Conjugated(Forward(old(a[..]), 0, q, w[..]))
  {
    hide *;
    var l;
    ghost var e;
    l, e := Passes(n, a, w, q);
    StageSizes(a[..], e, q, w[..]);
    FinalStage(a[..], e, q, w[..]);
    if l * 4 == n {
      RadixFourBack(l, a, Pow2(e), w[..]);
    } else {
      RadixTwo(l, a, true, Pow2(e));
    }
  }
}
