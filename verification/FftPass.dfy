/** The radix-4 passes `cft1st` and `cftmdl` of `gbcom_common/ns/fft4g.cc`. One pass over groups of
    4h complex numbers turns every four numbers that stand h apart in a group. */
module FftPass {
  import opened FftBits
  import opened FftComplex

  datatype Quad = Quad(x0: Complex, x1: Complex, x2: Complex, x3: Complex)
  datatype Twiddle = Twiddle(w1: Complex, w2: Complex, w3: Complex)

  // ---------- the twiddle factors ----------

  /** Entry g of the table; the program takes the first one for granted. */
  function Entry(w: seq<real>, g: nat): Complex {
    if g == 0 then ONE else Pair(w, g)
  }

  /** The factor of the second output. In group 1 the program knows the two parts to be equal. */
  function First(w: seq<real>, g: nat): Complex {
    if g == 1 then Complex(Pair(w, 1).re, Pair(w, 1).re) else Entry(w, g)
  }

  /** The factor of the third output, which two neighbouring groups share up to a quarter turn. */
  function Second(w: seq<real>, g: nat): Complex {
    if g % 2 == 0 then Entry(w, g / 2) else Turned(Entry(w, g / 2))
  }

  /** The factor of the fourth output, out of the two others. */
  function Third(w1: Complex, w2: Complex): Complex {
    Complex(w1.re - 2.0 * Times(w2.im, w1.im), 2.0 * Times(w2.im, w1.re) - w1.im)
  }

  function Times(x: real, y: real): real {
    x * y
  }

  function Factors(w: seq<real>, g: nat): Twiddle {
    Twiddle(First(w, g), Second(w, g), Third(First(w, g), Second(w, g)))
  }

  const PLAIN := Twiddle(ONE, ONE, ONE)

  function Eighth(wk1r: real): Twiddle {
    Twiddle(Complex(wk1r, wk1r), Turned(ONE), Third(Complex(wk1r, wk1r), Turned(ONE)))
  }

  /** Out of a factor on the unit circle and its square `Third` makes the cube. */
  lemma ThirdIsCube(u: Complex)
    requires Norm(u) == 1.0
    ensures Third(u, Mul(u, u)) == Mul(u, Mul(u, u))
  {
    var r, i := u.re, u.im;
    var v := Mul(u, u);
    assert v.im == 2.0 * (r * i);
    assert Times(v.im, i) == Times(2.0 * (r * i), i);
    assert Times(v.im, r) == Times(2.0 * (r * i), r);
    CubeParts(r, i, r * r, i * i, r * i);
  }

  lemma CubeParts(r: real, i: real, rr: real, ii: real, ri: real)
    requires rr == r * r && ii == i * i && ri == r * i && rr + ii == 1.0
    ensures r - 2.0 * (2.0 * ri) * i == r * (rr - ii) - i * (2.0 * ri)
    ensures 2.0 * (2.0 * ri) * r - i == r * (2.0 * ri) + i * (rr - ii)
  {
    assert ri * i == r * ii;
    assert ri * r == i * rr;
    assert r * rr + r * ii == r by { assert r * (rr + ii) == r * rr + r * ii; }
    assert i * rr + i * ii == i by { assert i * (rr + ii) == i * rr + i * ii; }
  }

  // ---------- four numbers ----------

  /** The four-point transform of numbers in bit-reversed order, and the factors behind it. */
  function Turn(x: Quad, t: Twiddle): Quad {
    Ends(SumQuad(x), t)
  }

  function SumQuad(x: Quad): Quad {
    Quad(Add(x.x0, x.x1), Sub(x.x0, x.x1), Add(x.x2, x.x3), Sub(x.x2, x.x3))
  }

  /** The second half of the transform, out of sums and differences. */
  function Ends(x: Quad, t: Twiddle): Quad {
    Quad(Add(x.x0, x.x2), Mul(t.w1, Add(x.x1, Turned(x.x3))),
         Mul(t.w2, Sub(x.x0, x.x2)), Mul(t.w3, Sub(x.x1, Turned(x.x3))))
  }

  /** The numbers at place p and 1, 2, 3 times h behind it. */
  function QuadAt(s: seq<real>, p: nat, h: nat): Quad {
    Quad(Pair(s, p), Pair(s, p + h), Pair(s, p + 2 * h), Pair(s, p + 3 * h))
  }

  predicate Outside(p: nat, h: nat, i: nat) {
    i != p && i != p + h && i != p + 2 * h && i != p + 3 * h
  }

  /** `s'` is `s` with y for the four numbers at p. */
  ghost predicate Placed(s: seq<real>, s': seq<real>, p: nat, h: nat, y: Quad) {
    && |s'| == |s|
    && QuadAt(s', p, h) == y
    && forall i: nat :: 2 * i + 1 < |s| && Outside(p, h, i) ==> Pair(s', i) == Pair(s, i)
  }

  /** The sums and differences every variant starts with. */
  method Sums(a: array<real>, j: nat, j1: nat, j2: nat, j3: nat, ghost p: nat, ghost h: nat) returns (x: Quad)
    requires j == 2 * p && j1 == j + 2 * h && j2 == j1 + 2 * h && j3 == j2 + 2 * h && j3 + 1 < a.Length
    ensures x == SumQuad(QuadAt(a[..], p, h))
  {
    x := Quad(Complex(a[j] + a[j1], a[j + 1] + a[j1 + 1]), Complex(a[j] - a[j1], a[j + 1] - a[j1 + 1]),
              Complex(a[j2] + a[j3], a[j2 + 1] + a[j3 + 1]), Complex(a[j2] - a[j3], a[j2 + 1] - a[j3 + 1]));
    assert Complex(a[j], a[j + 1]) == Pair(a[..], p);
    assert Complex(a[j1], a[j1 + 1]) == Pair(a[..], p + h);
    assert Complex(a[j2], a[j2 + 1]) == Pair(a[..], p + 2 * h);
    assert Complex(a[j3], a[j3 + 1]) == Pair(a[..], p + 3 * h);
  }

  /** Stores the four results. */
  method Store(a: array<real>, j: nat, j1: nat, j2: nat, j3: nat, y: Quad, ghost p: nat, ghost h: nat)
    requires j == 2 * p && j1 == j + 2 * h && j2 == j1 + 2 * h && j3 == j2 + 2 * h && j3 + 1 < a.Length && h > 0
    modifies a
    ensures Placed(old(a[..]), a[..], p, h, y)
  {
    a[j] := y.x0.re;
    a[j + 1] := y.x0.im;
    a[j1] := y.x1.re;
    a[j1 + 1] := y.x1.im;
    a[j2] := y.x2.re;
    a[j2 + 1] := y.x2.im;
    a[j3] := y.x3.re;
    a[j3 + 1] := y.x3.im;
    assert QuadAt(a[..], p, h) == y;
  }

  /** The results in the first group, whose factors are all one. */
  method EndsPlain(x: Quad) returns (y: Quad)
    ensures y == Ends(x, PLAIN)
  {
    y := Quad(Complex(x.x0.re + x.x2.re, x.x0.im + x.x2.im), Complex(x.x1.re - x.x3.im, x.x1.im + x.x3.re),
              Complex(x.x0.re - x.x2.re, x.x0.im - x.x2.im), Complex(x.x1.re + x.x3.im, x.x1.im - x.x3.re));
  }

  /** The results in the second group, which is an eighth of a turn further. */
  method EndsEighth(x: Quad, wk1r: real) returns (y: Quad)
    ensures y == Ends(x, Eighth(wk1r))
  {
    var y0 := Complex(x.x0.re + x.x2.re, x.x0.im + x.x2.im);
    var y2 := Complex(x.x2.im - x.x0.im, x.x0.re - x.x2.re);
    var zr, zi := x.x1.re - x.x3.im, x.x1.im + x.x3.re;
    var y1 := Complex(wk1r * (zr - zi), wk1r * (zr + zi));
    zr, zi := x.x3.im + x.x1.re, x.x3.re - x.x1.im;
    y := Quad(y0, y1, y2, Complex(wk1r * (zi - zr), wk1r * (zi + zr)));
  }

  /** The results in a later group at an even place. */
  method EndsEven(x: Quad, wk1: Complex, wk2: Complex, wk3: Complex) returns (y: Quad)
    ensures y == Ends(x, Twiddle(wk1, wk2, wk3))
  {
    var y0 := Complex(x.x0.re + x.x2.re, x.x0.im + x.x2.im);
    var zr, zi := x.x0.re - x.x2.re, x.x0.im - x.x2.im;
    var y2 := Complex(wk2.re * zr - wk2.im * zi, wk2.re * zi + wk2.im * zr);
    zr, zi := x.x1.re - x.x3.im, x.x1.im + x.x3.re;
    var y1 := Complex(wk1.re * zr - wk1.im * zi, wk1.re * zi + wk1.im * zr);
    zr, zi := x.x1.re + x.x3.im, x.x1.im - x.x3.re;
    y := Quad(y0, y1, y2, Complex(wk3.re * zr - wk3.im * zi, wk3.re * zi + wk3.im * zr));
  }

  /** The results in the group behind it, which uses `wk2` a quarter turn further. */
  method EndsOdd(x: Quad, wk1: Complex, wk2: Complex, wk3: Complex) returns (y: Quad)
    ensures y == Ends(x, Twiddle(wk1, Turned(wk2), wk3))
  {
    var y0 := Complex(x.x0.re + x.x2.re, x.x0.im + x.x2.im);
    var zr, zi := x.x0.re - x.x2.re, x.x0.im - x.x2.im;
    var y2 := Complex(-wk2.im * zr - wk2.re * zi, -wk2.im * zi + wk2.re * zr);
    zr, zi := x.x1.re - x.x3.im, x.x1.im + x.x3.re;
    var y1 := Complex(wk1.re * zr - wk1.im * zi, wk1.re * zi + wk1.im * zr);
    zr, zi := x.x1.re + x.x3.im, x.x1.im - x.x3.re;
    y := Quad(y0, y1, y2, Complex(wk3.re * zr - wk3.im * zi, wk3.re * zi + wk3.im * zr));
  }


  // ---------- a pass over all groups ----------

  predicate InRange(h: nat, G: nat, g: int, o: int) {
    0 <= g < G && 0 <= o < h
  }

  /** Where the four numbers of group g with offset o start. */
  function Base(h: nat, g: nat, o: nat): nat {
    g * (4 * h) + o
  }

  ghost predicate Ready(s0: seq<real>, s: seq<real>, h: nat, p: nat, t: Twiddle, turned: bool) {
    QuadAt(s, p, h) == if turned then Turn(QuadAt(s0, p, h), t) else QuadAt(s0, p, h)
  }

  /** What one pass works on: the array before it, the stride, the number of groups, the table. */
  datatype Work = Work(s: seq<real>, h: nat, G: nat, w: seq<real>)

  /** The size of the array, in reals. */
  function Total(f: Work): nat {
    2 * (f.G * (4 * f.h))
  }

  /** The groups before gc are turned, and in that group the offsets before oc. */
  ghost predicate Progress(f: Work, s: seq<real>, gc: nat, oc: nat) {
    && |f.s| == |s| == Total(f)
    && forall g, o | InRange(f.h, f.G, g, o) ::
         Ready(f.s, s, f.h, Base(f.h, g, o), Factors(f.w, g), g < gc || (g == gc && o < oc))
  }

  /** `s` is the array after the pass. */
  ghost predicate Passed(f: Work, s: seq<real>) {
    Progress(f, s, f.G, 0)
  }

  lemma BaseBelow(h: nat, G: nat, g: nat, o: nat)
    requires g < G && o < h
    ensures Base(h, g, o) + 3 * h < G * (4 * h)
  {
    BelowProduct(g, 4 * h, o + 3 * h, G);
  }

  /** Different quadruples share no number. */
  lemma Disjoint(h: nat, g: nat, o: nat, g': nat, o': nat)
    requires o < h && o' < h && (g != g' || o != o')
    ensures var p, p' := Base(h, g, o), Base(h, g', o');
            Outside(p, h, p') && Outside(p, h, p' + h) && Outside(p, h, p' + 2 * h) && Outside(p, h, p' + 3 * h)
  {
    if g < g' {
      Further(h, g, o, g', o');
    } else if g' < g {
      Further(h, g', o', g, o);
    }
  }

  lemma Further(h: nat, g: nat, o: nat, g': nat, o': nat)
    requires o < h && o' < h && g < g'
    ensures Base(h, g, o) + 3 * h < Base(h, g', o')
  {
    assert (g + 1) * (4 * h) <= g' * (4 * h);
    Distribute(g, 1, 4 * h);
  }

  lemma Advance(f: Work, s: seq<real>, s': seq<real>, gc: nat, oc: nat)
    requires gc < f.G && oc < f.h && Progress(f, s, gc, oc)
    requires Placed(s, s', Base(f.h, gc, oc), f.h, Turn(QuadAt(s, Base(f.h, gc, oc), f.h), Factors(f.w, gc)))
    ensures Progress(f, s', gc, oc + 1)
  {
    hide Pair, Turn, Factors, Base, QuadAt;
    forall g, o | InRange(f.h, f.G, g, o)
      ensures Ready(f.s, s', f.h, Base(f.h, g, o), Factors(f.w, g), g < gc || (g == gc && o < oc + 1))
    {
      assert Ready(f.s, s, f.h, Base(f.h, g, o), Factors(f.w, g), g < gc || (g == gc && o < oc));
      if g != gc || o != oc {
        Disjoint(f.h, gc, oc, g, o);
        BaseBelow(f.h, f.G, g, o);
        Untouched(s, s', Base(f.h, gc, oc), Base(f.h, g, o), f.h);
      }
    }
  }

  lemma Untouched(s: seq<real>, s': seq<real>, p: nat, p': nat, h: nat)
    requires Placed(s, s', p, h, QuadAt(s', p, h)) && 2 * (p' + 3 * h) + 1 < |s|
    requires Outside(p, h, p') && Outside(p, h, p' + h) && Outside(p, h, p' + 2 * h) && Outside(p, h, p' + 3 * h)
    ensures QuadAt(s', p', h) == QuadAt(s, p', h)
  {
    hide Pair, Turn, Outside;
  }

  lemma NextGroup(f: Work, s: seq<real>, gc: nat)
    requires Progress(f, s, gc, f.h)
    ensures Progress(f, s, gc + 1, 0)
  {
    hide Ready, Factors, Base;
    forall g, o | InRange(f.h, f.G, g, o)
      ensures Ready(f.s, s, f.h, Base(f.h, g, o), Factors(f.w, g), g < gc + 1 || (g == gc + 1 && o < 0))
    {
      assert Ready(f.s, s, f.h, Base(f.h, g, o), Factors(f.w, g), g < gc || (g == gc && o < f.h));
    }
  }

  lemma Start(f: Work)
    requires |f.s| == Total(f)
    ensures Progress(f, f.s, 0, 0)
  {
    hide Factors, Base, QuadAt;
  }

  lemma FirstFactors(w: seq<real>, g: nat)
    requires g < 2
    ensures Factors(w, g) == if g == 0 then PLAIN else Eighth(Pair(w, 1).re)
  {
    hide Pair, Third;
    assert g == 1 ==> Second(w, g) == Turned(ONE);
    ThirdOfOne();
  }

  lemma ThirdOfOne()
    ensures Third(ONE, ONE) == ONE
  {
  }

  // ---------- one quadruple ----------

  /** `j`, `j1`, `j2`, `j3` are the four places of group gc with offset oc, in reals. */
  ghost predicate Indices(f: Work, length: nat, gc: nat, oc: nat, j: nat, j1: nat, j2: nat, j3: nat) {
    && gc < f.G && oc < f.h && length == Total(f)
    && j == 2 * Base(f.h, gc, oc) && j1 == j + 2 * f.h && j2 == j1 + 2 * f.h && j3 == j2 + 2 * f.h
    && j3 + 1 < length
  }

  method TurnPlain(a: array<real>, j: nat, j1: nat, j2: nat, j3: nat, ghost f: Work, ghost oc: nat)
    requires Indices(f, a.Length, 0, oc, j, j1, j2, j3) && Progress(f, a[..], 0, oc)
    modifies a
    ensures Progress(f, a[..], 0, oc + 1)
  {
    hide Progress, SumQuad, Ends, Base, Total, Placed, QuadAt, Factors, Eighth, Pair;
    ghost var s := a[..];
    var x := Sums(a, j, j1, j2, j3, Base(f.h, 0, oc), f.h);
    var y := EndsPlain(x);
    Store(a, j, j1, j2, j3, y, Base(f.h, 0, oc), f.h);
    FirstFactors(f.w, 0);
    Advance(f, s, a[..], 0, oc);
  }

  method TurnEighth(a: array<real>, j: nat, j1: nat, j2: nat, j3: nat, wk1r: real, ghost f: Work, ghost oc: nat)
    requires Indices(f, a.Length, 1, oc, j, j1, j2, j3) && Progress(f, a[..], 1, oc)
    requires wk1r == Pair(f.w, 1).re
    modifies a
    ensures Progress(f, a[..], 1, oc + 1)
  {
    hide Progress, SumQuad, Ends, Base, Total, Placed, QuadAt, Factors, Eighth, Pair;
    ghost var s := a[..];
    var x := Sums(a, j, j1, j2, j3, Base(f.h, 1, oc), f.h);
    var y := EndsEighth(x, wk1r);
    Store(a, j, j1, j2, j3, y, Base(f.h, 1, oc), f.h);
    FirstFactors(f.w, 1);
    Advance(f, s, a[..], 1, oc);
  }

  method TurnEven(a: array<real>, j: nat, j1: nat, j2: nat, j3: nat, wk1: Complex, wk2: Complex, wk3: Complex,
                  ghost f: Work, ghost gc: nat, ghost oc: nat)
    requires Indices(f, a.Length, gc, oc, j, j1, j2, j3) && Progress(f, a[..], gc, oc)
    requires Factors(f.w, gc) == Twiddle(wk1, wk2, wk3)
    modifies a
    ensures Progress(f, a[..], gc, oc + 1)
  {
    hide Progress, SumQuad, Ends, Base, Total, Placed, QuadAt, Factors;
    ghost var s := a[..];
    var x := Sums(a, j, j1, j2, j3, Base(f.h, gc, oc), f.h);
    var y := EndsEven(x, wk1, wk2, wk3);
    Store(a, j, j1, j2, j3, y, Base(f.h, gc, oc), f.h);
    Advance(f, s, a[..], gc, oc);
  }

  method TurnOdd(a: array<real>, j: nat, j1: nat, j2: nat, j3: nat, wk1: Complex, wk2: Complex, wk3: Complex,
                 ghost f: Work, ghost gc: nat, ghost oc: nat)
    requires Indices(f, a.Length, gc, oc, j, j1, j2, j3) && Progress(f, a[..], gc, oc)
    requires Factors(f.w, gc) == Twiddle(wk1, Turned(wk2), wk3)
    modifies a
    ensures Progress(f, a[..], gc, oc + 1)
  {
    hide Progress, SumQuad, Ends, Base, Total, Placed, QuadAt, Factors;
    ghost var s := a[..];
    var x := Sums(a, j, j1, j2, j3, Base(f.h, gc, oc), f.h);
    var y := EndsOdd(x, wk1, wk2, wk3);
    Store(a, j, j1, j2, j3, y, Base(f.h, gc, oc), f.h);
    Advance(f, s, a[..], gc, oc);
  }

  // ---------- the table reads of one round ----------

  /** The two complex factors stored for a pair of groups, and the third one out of them. */
  method EvenFactors(w: array<real>, k1: nat, ghost e: nat) returns (wk1: Complex, wk2: Complex, wk3: Complex)
    requires e > 0 && k1 == 2 * e && 2 * k1 + 1 < w.Length
    ensures Factors(w[..], 2 * e) == Twiddle(wk1, wk2, wk3)
  {
    hide Factors;
    var k2 := 2 * k1;
    wk2 := Complex(w[k1], w[k1 + 1]);
    wk1 := Complex(w[k2], w[k2 + 1]);
    wk3 := Complex(wk1.re - 2.0 * wk2.im * wk1.im, 2.0 * wk2.im * wk1.re - wk1.im);
    FactorsAtEven(w[..], e);
    assert Complex(w[k2], w[k2 + 1]) == Pair(w[..], 2 * e);
    assert Complex(w[k1], w[k1 + 1]) == Pair(w[..], e);
  }

  lemma FactorsAtEven(w: seq<real>, e: nat)
    requires e > 0
    ensures var u, v := Pair(w, 2 * e), Pair(w, e);
            Factors(w, 2 * e) == Twiddle(u, v, Third(u, v))
  {
    hide Pair, Third;
    assert (2 * e) % 2 == 0 && (2 * e) / 2 == e;
  }

  method OddFactors(w: array<real>, k1: nat, ghost e: nat) returns (wk1: Complex, wk2: Complex, wk3: Complex)
    requires e > 0 && k1 == 2 * e && 2 * k1 + 3 < w.Length
    ensures Factors(w[..], 2 * e + 1) == Twiddle(wk1, Turned(wk2), wk3)
  {
    hide Factors, Third, Turned;
    var k2 := 2 * k1;
    wk2 := Complex(w[k1], w[k1 + 1]);
    wk1 := Complex(w[k2 + 2], w[k2 + 3]);
    wk3 := Complex(wk1.re - 2.0 * wk2.re * wk1.im, 2.0 * wk2.re * wk1.re - wk1.im);
    ThirdTurned(wk1, wk2);
    FactorsAtOdd(w[..], e);
    assert Complex(w[k2 + 2], w[k2 + 3]) == Pair(w[..], 2 * e + 1);
    assert Complex(w[k1], w[k1 + 1]) == Pair(w[..], e);
  }

  lemma ThirdTurned(u: Complex, v: Complex)
    ensures Third(u, Turned(v)) == Complex(u.re - 2.0 * v.re * u.im, 2.0 * v.re * u.re - u.im)
  {
    assert Times(Turned(v).im, u.im) == Times(v.re, u.im);
    assert Times(Turned(v).im, u.re) == Times(v.re, u.re);
  }

  lemma FactorsAtOdd(w: seq<real>, e: nat)
    requires e > 0
    ensures var u, v := Pair(w, 2 * e + 1), Turned(Pair(w, e));
            Factors(w, 2 * e + 1) == Twiddle(u, v, Third(u, v))
  {
    hide Pair, Turned, Third;
    assert (2 * e + 1) % 2 == 1 && (2 * e + 1) / 2 == e;
  }

  // ---------- the passes ----------

  lemma FirstIndices(f: Work, length: nat, gc: nat, oc: nat, start: nat, j: nat)
    requires gc < f.G && oc < f.h && length == Total(f)
    requires start == 2 * Base(f.h, gc, 0) && j == start + 2 * oc
    ensures Indices(f, length, gc, oc, j, j + 2 * f.h, j + 4 * f.h, j + 6 * f.h)
  {
    BaseBelow(f.h, f.G, gc, oc);
  }

  lemma NextStart(h: nat, g: nat)
    ensures Base(h, 0, 0) == 0 && Base(h, g + 1, 0) == Base(h, g, 0) + 4 * h
  {
    Distribute(g, 1, 4 * h);
  }

  /** Group e starts inside the array exactly when there is a group e. */
  lemma GroupBound(h: nat, G: nat, g: nat)
    requires h > 0
    ensures Base(h, g, 0) < G * (4 * h) <==> g < G
  {
    if g < G { BelowProduct(g, 4 * h, 0, G); } else { assert g * (4 * h) >= G * (4 * h); }
  }

  /** The first two groups of `cftmdl`. */
  method FirstGroups(l: nat, a: array<real>, wk1r: real, ghost f: Work)
    requires l == 2 * f.h && f.G >= 2 && Progress(f, a[..], 0, 0) && wk1r == Pair(f.w, 1).re
    modifies a
    ensures Progress(f, a[..], 2, 0)
  {
    hide Progress, Base, Total, Indices;
    NextStart(f.h, 0);
    Size(f, a[..], 0, 0);
    var m := l * 4;
    var j := 0;
    ghost var o := 0;
    while j < l
      invariant o <= f.h && j == 2 * o && Progress(f, a[..], 0, o)
    {
      FirstIndices(f, a.Length, 0, o, 0, j);
      TurnPlain(a, j, j + l, j + l + l, j + l + l + l, f, o);
      j := j + 2;
      o := o + 1;
    }
    NextGroup(f, a[..], 0);
    j, o := m, 0;
    while j < l + m
      invariant o <= f.h && j == m + 2 * o && Progress(f, a[..], 1, o)
    {
      FirstIndices(f, a.Length, 1, o, m, j);
      TurnEighth(a, j, j + l, j + l + l, j + l + l + l, wk1r, f, o);
      j := j + 2;
      o := o + 1;
    }
    NextGroup(f, a[..], 1);
  }

  lemma Size(f: Work, s: seq<real>, gc: nat, oc: nat)
    requires Progress(f, s, gc, oc)
    ensures |s| == Total(f)
  {
  }

  /** The two groups of one round of `cftmdl`: they share the second factor. */
  method PairOfGroups(l: nat, k: nat, k1: nat, a: array<real>, w: array<real>, ghost f: Work, ghost g: nat, ghost e: nat)
    requires a != w && w[..] == f.w && l == 2 * f.h && e > 0 && g == 2 * e && g + 1 < f.G
    requires k1 == g && w.Length >= 4 * e + 4
    requires k == 2 * Base(f.h, g, 0) && Progress(f, a[..], g, 0)
    modifies a
    ensures Progress(f, a[..], g + 2, 0)
  {
    hide Progress, Factors, Base, Total, Indices;
    Size(f, a[..], g, 0);
    var m := l * 4;
    var wk1, wk2, wk3 := EvenFactors(w, k1, e);
    var j := k;
    ghost var o := 0;
    while j < l + k
      invariant o <= f.h && j == k + 2 * o && Progress(f, a[..], g, o)
    {
      FirstIndices(f, a.Length, g, o, k, j);
      TurnEven(a, j, j + l, j + l + l, j + l + l + l, wk1, wk2, wk3, f, g, o);
      j := j + 2;
      o := o + 1;
    }
    NextGroup(f, a[..], g);
    NextStart(f.h, g);
    wk1, wk2, wk3 := OddFactors(w, k1, e);
    j, o := k + m, 0;
    while j < l + (k + m)
      invariant o <= f.h && j == k + m + 2 * o && Progress(f, a[..], g + 1, o)
    {
      FirstIndices(f, a.Length, g + 1, o, k + m, j);
      TurnOdd(a, j, j + l, j + l + l, j + l + l + l, wk1, wk2, wk3, f, g + 1, o);
      j := j + 2;
      o := o + 1;
    }
    NextGroup(f, a[..], g + 1);
  }

  /** Two groups further on. */
  lemma NextPair(f: Work, e: nat, k: nat)
    requires f.h > 0 && k == 2 * Base(f.h, 2 * e, 0)
    ensures k + 16 * f.h == 2 * Base(f.h, 2 * (e + 1), 0)
    ensures k < Total(f) <==> 2 * e < f.G
  {
    NextStart(f.h, 2 * e);
    NextStart(f.h, 2 * e + 1);
    GroupBound(f.h, f.G, 2 * e);
  }

  method Cftmdl(n: nat, l: nat, a: array<real>, w: array<real>, ghost f: Work, ghost E: nat)
    requires a != w && f == Work(a[..], f.h, 2 * E, w[..]) && E > 0 && w.Length >= 4 * E
    requires f.h > 0 && l == 2 * f.h && n == a.Length == Total(f)
    modifies a
    ensures Passed(f, a[..])
  {
    hide Progress, Base, Total;
    Start(f);
    NextStart(f.h, 0);
    NextPair(f, 0, 0);
    FirstGroups(l, a, w[2], f);
    var k1 := 0;
    var m2 := 2 * (l * 4);
    var k := m2;
    ghost var e := 1;
    NextPair(f, 1, k);
    while k < n
      invariant 0 < e <= E && k1 == 2 * (e - 1) && k == 2 * Base(f.h, 2 * e, 0)
      invariant k < n <==> 2 * e < f.G
      invariant w[..] == f.w && Progress(f, a[..], 2 * e, 0)
      decreases E - e
    {
      k1 := k1 + 2;
      PairOfGroups(l, k, k1, a, w, f, 2 * e, e);
      NextPair(f, e, k);
      k := k + m2;
      e := e + 1;
      NextPair(f, e, k);
    }
  }

  /** One round of `cft1st`. */
  method PairOfQuads(j: nat, k1: nat, a: array<real>, w: array<real>, ghost f: Work, ghost g: nat, ghost e: nat)
    requires a != w && w[..] == f.w && f.h == 1 && e > 0 && g == 2 * e && g + 1 < f.G
    requires k1 == g && w.Length >= 4 * e + 4
    requires j == 2 * Base(f.h, g, 0) && Progress(f, a[..], g, 0)
    modifies a
    ensures Progress(f, a[..], g + 2, 0)
  {
    hide Progress, Factors, Base, Total, Indices;
    Size(f, a[..], g, 0);
    var wk1, wk2, wk3 := EvenFactors(w, k1, e);
    FirstIndices(f, a.Length, g, 0, j, j);
    TurnEven(a, j, j + 2, j + 4, j + 6, wk1, wk2, wk3, f, g, 0);
    NextGroup(f, a[..], g);
    NextStart(f.h, g);
    wk1, wk2, wk3 := OddFactors(w, k1, e);
    FirstIndices(f, a.Length, g + 1, 0, j + 8, j + 8);
    TurnOdd(a, j + 8, j + 10, j + 12, j + 14, wk1, wk2, wk3, f, g + 1, 0);
    NextGroup(f, a[..], g + 1);
  }

  /** The quadruples of the first two groups of `cft1st`. */
  method FirstQuads(a: array<real>, wk1r: real, ghost f: Work)
    requires f.h == 1 && f.G >= 2 && Progress(f, a[..], 0, 0) && wk1r == Pair(f.w, 1).re
    modifies a
    ensures Progress(f, a[..], 2, 0)
  {
    hide Progress, Base, Total, Indices;
    NextStart(f.h, 0);
    Size(f, a[..], 0, 0);
    FirstIndices(f, a.Length, 0, 0, 0, 0);
    TurnPlain(a, 0, 2, 4, 6, f, 0);
    NextGroup(f, a[..], 0);
    FirstIndices(f, a.Length, 1, 0, 8, 8);
    TurnEighth(a, 8, 10, 12, 14, wk1r, f, 0);
    NextGroup(f, a[..], 1);
  }

  method Cft1st(n: nat, a: array<real>, w: array<real>, ghost f: Work, ghost E: nat)
    requires a != w && f == Work(a[..], 1, 2 * E, w[..]) && E > 0 && w.Length >= 4 * E
    requires n == a.Length == Total(f)
    modifies a
    ensures Passed(f, a[..])
  {
    hide Progress, Base, Total;
    Start(f);
    NextStart(f.h, 0);
    NextPair(f, 0, 0);
    FirstQuads(a, w[2], f);
    var k1 := 0;
    var j := 16;
    ghost var e := 1;
    NextPair(f, 1, j);
    while j < n
      invariant 0 < e <= E && k1 == 2 * (e - 1) && j == 2 * Base(f.h, 2 * e, 0)
      invariant j < n <==> 2 * e < f.G
      invariant w[..] == f.w && Progress(f, a[..], 2 * e, 0)
      decreases E - e
    {
      k1 := k1 + 2;
      PairOfQuads(j, k1, a, w, f, 2 * e, e);
      NextPair(f, e, j);
      j := j + 16;
      e := e + 1;
      NextPair(f, e, j);
    }
  }
}
