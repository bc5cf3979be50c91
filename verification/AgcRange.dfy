/** The limiter of `WebRtcAgc_ProcessDigital` multiplies in `int32_t`: when its products stay inside
    32 bits, so that the mathematical ones of `AgcLimiter` are the ones it computes. */
module AgcRange {
  import opened AgcLimiter

  predicate Int32(x: int) {
    -0x8000_0000 <= x < 0x8000_0000
  }

  /** Every intermediate result of one round for a gain: the square and the parts of `AGC_MUL32`. */
  predicate Fits(env: nat, g: nat, zeros: nat) {
    var a, b := env / 0x1000 + 1, Squared(g, zeros);
    Int32(b) && Int32(b / 0x2000 * a) && Int32(b % 0x2000 * a) && Int32(Mul32(a, b))
  }

  /** Every round of the loop. */
  ghost predicate RunFits(env: nat, g: nat, zeros: nat)
    requires env <= 0x4000_0000 && 10 <= zeros <= 15
    decreases g
  {
    && Fits(env, g, zeros)
    && if TooLoud(env, g, zeros) then
         SilencePasses(env, zeros);
         StepDown(g);
         RunFits(env, Step(g), zeros)
       else true
  }

  /** The two products that matter. */
  lemma FitsIs(env: nat, g: nat, zeros: nat)
    requires env <= 0x4000_0000
    ensures Fits(env, g, zeros) <==>
              Squared(g, zeros) < 0x8000_0000 && (env / 0x1000 + 1) * Squared(g, zeros) < 0x1000_0000_0000
  {
    hide *;
    var a, b := env / 0x1000 + 1, Squared(g, zeros);
    FitsParts(env, g, zeros);
    Mul32IsProduct(a, b);
    Mul32Is(a, b);
    Parts(b / 0x2000 * a, b % 0x2000 * a, b / 0x2000, b % 0x2000, a);
    Shifted(a * b);
  }

  lemma FitsParts(env: nat, g: nat, zeros: nat)
    ensures Fits(env, g, zeros) <==>
              var a, b := env / 0x1000 + 1, Squared(g, zeros);
              b < 0x8000_0000 && Int32(b / 0x2000 * a) && Int32(b % 0x2000 * a) && Int32(Mul32(a, b))
  {
    hide Squared, Mul32;
  }

  lemma Parts(hi: int, lo: int, q: nat, r: nat, a: nat)
    requires hi == q * a && lo == r * a && r < 0x2000 && a <= 0x4_0001
    ensures Int32(hi) && Int32(lo) && Int32(hi + lo / 0x2000) <==> hi + lo / 0x2000 < 0x8000_0000
  {
    Monotone(r, 0x1FFF, a, 0x4_0001);
    Monotone(0, q, 0, a);
  }

  lemma Mul32Is(a: nat, b: nat)
    ensures Mul32(a, b) == b / 0x2000 * a + b % 0x2000 * a / 0x2000
  {
  }

  lemma Shifted(x: int)
    ensures x / 0x2000 < 0x8000_0000 <==> x < 0x1000_0000_0000
  {
  }

  /** A smaller gain has the smaller square. */
  lemma SquaredGrows(h: nat, g: nat, zeros: nat)
    requires h <= g
    ensures Squared(h, zeros) <= Squared(g, zeros)
  {
    hide *;
    SquaredIs(h, zeros);
    SquaredIs(g, zeros);
    var p := Pow2(zeros);
    Share(h, g, p);
    Monotone(h / p + 1, g / p + 1, h / p + 1, g / p + 1);
  }

  lemma Share(h: nat, g: nat, p: nat)
    requires h <= g && p > 0
    ensures h / p <= g / p
  {
    Below(h, p);
    Above(g, p);
    if h / p > g / p { Monotone(g / p + 1, h / p, p, p); }
  }

  lemma Below(g: nat, p: nat)
    requires p > 0
    ensures g / p * p <= g
  {
    assert g == g / p * p + g % p;
  }

  /** On the way down nothing can overflow that did not at the start. */
  lemma {:induction false} RunFitsExactly(env: nat, g: nat, zeros: nat)
    requires env <= 0x4000_0000 && 10 <= zeros <= 15
    ensures RunFits(env, g, zeros) <==> Fits(env, g, zeros)
    decreases g
  {
    hide TooLoud, Fits, Step, Squared;
    if Fits(env, g, zeros) && TooLoud(env, g, zeros) {
      SilencePasses(env, zeros);
      StepDown(g);
      FitsIs(env, g, zeros);
      FitsIs(env, Step(g), zeros);
      SquaredGrows(Step(g), g, zeros);
      Monotone(env / 0x1000 + 1, env / 0x1000 + 1, Squared(Step(g), zeros), Squared(g, zeros));
      RunFitsExactly(env, Step(g), zeros);
    }
  }

  /** The square alone: the limit for dropping more than ten bits is 973 gains too high. */
  lemma SquareFitsExactly(g: nat)
    requires g < 0x4000_0000
    ensures Squared(g, Dropped(g)) < 0x8000_0000 <==> !(47452160 <= g <= 47453132)
  {
    hide Squared, Dropped;
    DroppedIs(g);
    var z := Dropped(g);
    SquaredIs(g, z);
    SmallPowers();
    var y := g / Pow2(z) + 1;
    if g > 47453132 {
      HighShare(g);
      Monotone(y, 0x8000, y, 0x8000);
    } else if y <= 46340 {
      Monotone(y, 46340, y, 46340);
    } else {
      Monotone(46341, y, 46341, y);
    }
  }

  /** What is left of a great gain has fifteen bits. */
  lemma HighShare(g: nat)
    requires 47453132 < g < 0x4000_0000
    ensures 11 <= Dropped(g) <= 15 && 0x4000 <= g / Pow2(Dropped(g)) < 0x8000
  {
    hide Dropped;
    DroppedIs(g);
    NormAtMost(g);
    NormIs(g);
    var n := Norm(g);
    PowerIs(16 - n);
    SmallPowers();
    assert Pow2(1) == 2 && Pow2(3) == 8 && Pow2(5) == 32;
  }

  /** The limiter for one subframe stays inside 32 bits exactly for these gains and energies. */
  lemma LimitFits32(env: nat, g: nat)
    requires g < 0x4000_0000 && env <= 0x4000_0000
    ensures 10 <= Dropped(g) <= 15
    ensures RunFits(env, g, Dropped(g)) <==>
              !(47452160 <= g <= 47453132) && (env / 0x1000 + 1) * Squared(g, Dropped(g)) < 0x1000_0000_0000
  {
    hide Squared, Dropped, Fits, RunFits;
    DroppedIs(g);
    RunFitsExactly(env, g, Dropped(g));
    FitsIs(env, g, Dropped(g));
    SquareFitsExactly(g);
  }

  /** Whatever the energy: exactly for gains below 8387584, the factor 128 or 42 decibels. */
  lemma AlwaysFitsExactly(g: nat)
    requires g < 0x4000_0000
    ensures 10 <= Dropped(g) <= 15
    ensures (forall env: nat :: env <= 0x4000_0000 ==> RunFits(env, g, Dropped(g))) <==> g < 8387584
  {
    hide Squared, Dropped, RunFits;
    DroppedIs(g);
    var b := Squared(g, Dropped(g));
    LoudestSquare(g);
    if g < 8387584 {
      forall env: nat | env <= 0x4000_0000 ensures RunFits(env, g, Dropped(g)) {
        LimitFits32(env, g);
        Monotone(env / 0x1000 + 1, 0x4_0001, b, 67108608);
      }
    } else {
      LimitFits32(0x4000_0000, g);
      assert 0x4_0001 * b >= 0x1000_0000_0000;
    }
  }

  lemma LoudestSquare(g: nat)
    requires g < 0x4000_0000
    ensures Squared(g, Dropped(g)) <= 67108608 <==> g < 8387584
  {
    hide Squared, Dropped;
    DroppedIs(g);
    SquaredIs(g, Dropped(g));
    SmallPowers();
    var y := g / Pow2(Dropped(g)) + 1;
    if g > 47453132 { HighShare(g); }
    if y <= 8191 {
      Monotone(y, 8191, y, 8191);
    } else {
      Monotone(8192, y, 8192, y);
    }
  }
}
