/** The limiter of `WebRtcAgc_ProcessDigital` in `gbcom_common/agc/agc.c`, on mathematical
    integers: it lowers the gain of a subframe until its loudest sample cannot overload. */
module AgcLimiter {

  function Pow2(e: nat): (p: nat)
    ensures p > 0
  {
    if e == 0 then 1 else 2 * Pow2(e - 1)
  }

  /** `NormW32` of a positive number: how often it can be doubled inside 31 bits. */
  function Norm(a: nat): nat
    requires 0 < a < 0x8000_0000
    decreases 0x8000_0000 - a
  {
    if a >= 0x4000_0000 then 0 else 1 + Norm(2 * a)
  }

  lemma {:induction false} NormIs(a: nat)
    requires 0 < a < 0x8000_0000
    ensures 0x4000_0000 <= a * Pow2(Norm(a)) < 0x8000_0000
    decreases 0x8000_0000 - a
  {
    if a < 0x4000_0000 {
      NormIs(2 * a);
      Regroup(a, Pow2(Norm(2 * a)));
    } else {
      assert Pow2(0) == 1;
    }
  }

  lemma Regroup(a: int, p: int)
    ensures (2 * a) * p == a * (2 * p)
  {
  }

  /** `AGC_MUL32`: the product is split so that no part of it is too wide. */
  function Mul32(a: nat, b: nat): nat {
    b / 0x2000 * a + b % 0x2000 * a / 0x2000
  }

  lemma Mul32IsProduct(a: nat, b: nat)
    ensures Mul32(a, b) == a * b / 0x2000
  {
    var q, r := b / 0x2000, b % 0x2000;
    assert a * b == (q * a) * 0x2000 + r * a by {
      assert b == q * 0x2000 + r;
      Distribute(q * 0x2000, r, a);
      Swap(q, a);
    }
    AddMultiple(q * a, r * a);
  }

  lemma Distribute(x: int, y: int, a: int)
    ensures a * (x + y) == x * a + y * a
  {
  }

  lemma Swap(q: int, a: int)
    ensures q * 0x2000 * a == q * a * 0x2000
  {
  }

  lemma AddMultiple(m: int, x: int)
    ensures (m * 0x2000 + x) / 0x2000 == m + x / 0x2000
  {
  }

  /** How many low bits of a gain are dropped before it is squared. */
  function Dropped(g: nat): (z: nat)
    requires g < 0x4000_0000
    ensures z <= 16
  {
    if g > 47453132 then
      NormAtMost(g);
      16 - Norm(g)
    else 10
  }

  lemma NormAtMost(g: nat)
    requires 47453132 < g < 0x4000_0000
    ensures 1 <= Norm(g) <= 5
  {
    assert Norm(g) == 1 + Norm(2 * g);
    if g < 0x2000_0000 {
      assert Norm(2 * g) == 1 + Norm(4 * g);
      if g < 0x1000_0000 {
        assert Norm(4 * g) == 1 + Norm(8 * g);
        if g < 0x800_0000 {
          assert Norm(8 * g) == 1 + Norm(16 * g);
          if g < 0x400_0000 { assert Norm(16 * g) == 1 + Norm(32 * g) && Norm(32 * g) == 0; }
        }
      }
    }
  }

  /** `SHIFT_W32(32767, 2 * (1 - zeros + 10))`. */
  function Bound(zeros: nat): nat {
    if zeros <= 11 then 32767 * Pow2(2 * (11 - zeros)) else 32767 / Pow2(2 * (zeros - 11))
  }

  function Squared(g: nat, zeros: nat): nat {
    (g / Pow2(zeros) + 1) * (g / Pow2(zeros) + 1)
  }

  predicate TooLoud(env: nat, g: nat, zeros: nat) {
    Mul32(env / 0x1000 + 1, Squared(g, zeros)) > Bound(zeros)
  }

  /** A step down of a tenth of a decibel. */
  function Step(g: nat): nat {
    if g > 8388607 then g / 256 * 253 else g * 253 / 256
  }

  lemma StepDown(g: nat)
    ensures Step(g) <= g && (g > 0 ==> Step(g) < g)
  {
  }

  lemma SmallPowers()
    ensures Pow2(0) == 1 && Pow2(2) == 4 && Pow2(4) == 16 && Pow2(6) == 64 && Pow2(8) == 256 && Pow2(10) == 1024
  {
    assert Pow2(1) == 2 && Pow2(3) == 8 && Pow2(5) == 32 && Pow2(7) == 128 && Pow2(9) == 512;
  }

  lemma BoundIs(zeros: nat)
    requires 10 <= zeros <= 15
    ensures Bound(zeros) == if zeros == 10 then 131068 else if zeros == 11 then 32767 else if zeros == 12 then 8191
                            else if zeros == 13 then 2047 else if zeros == 14 then 511 else 127
  {
    SmallPowers();
  }

  /** No gain passes: the loop cannot go on for ever. */
  lemma SilencePasses(env: nat, zeros: nat)
    requires env <= 0x4000_0000 && 10 <= zeros <= 15
    ensures !TooLoud(env, 0, zeros)
  {
    BoundIs(zeros);
    ZeroShare(Pow2(zeros));
    assert Squared(0, zeros) == 1;
  }

  lemma ZeroShare(p: nat)
    requires p > 0
    ensures 0 / p == 0
  {
  }

  /** Applying the gain to a sample of this energy stays inside 16 bits. */
  predicate Safe(env: nat, g: nat) {
    env * (g * g) < 0x4000_0000_0000_0000
  }

  /** The first gain on the way down that is not too loud. */
  ghost function Quieted(env: nat, g: nat, zeros: nat): (r: nat)
    requires env <= 0x4000_0000 && 10 <= zeros <= 15
    decreases g
  {
    if TooLoud(env, g, zeros) then
      SilencePasses(env, zeros);
      StepDown(g);
      Quieted(env, Step(g), zeros)
    else g
  }

  lemma QuietedIs(env: nat, g: nat, zeros: nat)
    requires env <= 0x4000_0000 && 10 <= zeros <= 15
    ensures Quieted(env, g, zeros) == if TooLoud(env, g, zeros) then Quieted(env, Step(g), zeros) else g
    ensures Step(g) == if g > 8388607 then g / 256 * 253 else g * 253 / 256
  {
    hide TooLoud;
  }

  ghost function Limited(start: nat, env: nat): nat
    requires start < 0x4000_0000 && env <= 0x4000_0000
  {
    DroppedIs(start);
    Quieted(env, start, Dropped(start))
  }

  /** The loop for one subframe: the gain ends low enough for every sample that the envelope
      covers. */
  method Limit(start: nat, env: nat) returns (gain: nat)
    requires start < 0x4000_0000 && env <= 0x4000_0000
    ensures gain <= start
    ensures !TooLoud(env, gain, Dropped(start))
    ensures gain == Limited(start, env)
    ensures Safe(env, gain)
  {
    hide *;
    LimitedIs(start, env);
    gain := start;
    var zeros := 10;
    if gain > 47453132 {
      NormAtMost(gain);
      zeros := 16 - Norm(gain);
    }
    DroppedIs(start);
    var gain32 := Squared(gain, zeros);
    TooLoudIs(env, gain, zeros);
    while Mul32(env / 0x1000 + 1, gain32) > Bound(zeros)
      invariant gain <= start && gain32 == Squared(gain, zeros)
      invariant Mul32(env / 0x1000 + 1, gain32) > Bound(zeros) <==> TooLoud(env, gain, zeros)
      invariant Quieted(env, gain, zeros) == Quieted(env, start, zeros)
      decreases gain
    {
      SilencePasses(env, zeros);
      StepDown(gain);
      QuietedIs(env, gain, zeros);
      if gain > 8388607 {
        gain := gain / 256 * 253;
      } else {
        gain := gain * 253 / 256;
      }
      gain32 := Squared(gain, zeros);
      TooLoudIs(env, gain, zeros);
    }
    QuietedIs(env, gain, zeros);
    QuietEnough(env, gain, zeros);
  }

  lemma LimitedIs(start: nat, env: nat)
    requires start < 0x4000_0000 && env <= 0x4000_0000
    ensures 10 <= Dropped(start) <= 15 && Limited(start, env) == Quieted(env, start, Dropped(start))
  {
    hide Quieted, Dropped;
    DroppedIs(start);
  }

  lemma TooLoudIs(env: nat, g: nat, zeros: nat)
    ensures TooLoud(env, g, zeros) <==> Mul32(env / 0x1000 + 1, Squared(g, zeros)) > Bound(zeros)
  {
  }

  lemma QuietEnough(env: nat, g: nat, zeros: nat)
    requires 10 <= zeros <= 15 && !TooLoud(env, g, zeros)
    ensures Safe(env, g)
  {
    hide *;
    var p := Pow2(zeros);
    var x, y := env / 0x1000 + 1, g / p + 1;
    TooLoudIs(env, g, zeros);
    SquaredIs(g, zeros);
    Mul32IsProduct(x, Squared(g, zeros));
    Above(g, p);
    Above(env, 0x1000);
    Quotient(x * (y * y), Bound(zeros));
    BoundIs(zeros);
    PowerIs(zeros);
    var limit := (Bound(zeros) + 1) * 0x2000 - 1;
    Scaled(env, g, x, y, p, limit);
    LimitFits(zeros, limit, p);
    SafeIs(env, g);
  }

  lemma SafeIs(env: nat, g: nat)
    ensures Safe(env, g) <==> env * (g * g) < 0x4000_0000_0000_0000
  {
  }

  lemma SquaredIs(g: nat, zeros: nat)
    ensures Squared(g, zeros) == (g / Pow2(zeros) + 1) * (g / Pow2(zeros) + 1)
  {
  }

  lemma Quotient(x: int, b: int)
    requires x / 0x2000 <= b
    ensures x <= (b + 1) * 0x2000 - 1
  {
  }

  /** The six cases of the bound: a step of the dropped bits is what the bound gives up. */
  lemma LimitFits(zeros: nat, limit: nat, p: nat)
    requires limit == (Bound(zeros) + 1) * 0x2000 - 1 && p == Pow2(zeros) && 10 <= zeros <= 15
    ensures limit * (0x1000 * p * p) < 0x4000_0000_0000_0000
  {
    hide *;
    BoundIs(zeros);
    PowerIs(zeros);
    if zeros == 10 {
      assert 0x1000 * p * p == 0x1_0000_0000;
    } else if zeros == 11 {
      assert 0x1000 * p * p == 0x4_0000_0000;
    } else if zeros == 12 {
      assert 0x1000 * p * p == 0x10_0000_0000;
    } else if zeros == 13 {
      assert 0x1000 * p * p == 0x40_0000_0000;
    } else if zeros == 14 {
      assert 0x1000 * p * p == 0x100_0000_0000;
    } else {
      assert 0x1000 * p * p == 0x400_0000_0000;
    }
  }

  lemma PowerIs(zeros: nat)
    requires 10 <= zeros <= 15
    ensures Pow2(zeros) == if zeros == 10 then 1024 else if zeros == 11 then 2048 else if zeros == 12 then 4096
                           else if zeros == 13 then 8192 else if zeros == 14 then 16384 else 32768
  {
    SmallPowers();
    if zeros > 10 { PowerIs(zeros - 1); }
  }

  lemma Above(g: nat, p: nat)
    requires p > 0
    ensures g < (g / p + 1) * p
  {
    assert g == g / p * p + g % p;
  }

  lemma Scaled(env: nat, g: nat, x: nat, y: nat, p: nat, limit: nat)
    requires env < x * 0x1000 && g < y * p && x * (y * y) <= limit
    ensures env * (g * g) <= limit * (0x1000 * p * p)
  {
    assert g * g <= (y * p) * (y * p) by { Monotone(g, y * p, g, y * p); }
    Monotone(env, x * 0x1000, g * g, (y * p) * (y * p));
    Gather(x, y, p);
    Monotone(x * (y * y), limit, 0x1000 * p * p, 0x1000 * p * p);
  }

  lemma Monotone(a: nat, b: nat, c: nat, d: nat)
    requires a <= b && c <= d
    ensures a * c <= b * d
  {
  }

  lemma Gather(x: int, y: int, p: int)
    ensures (x * 0x1000) * ((y * p) * (y * p)) == (x * (y * y)) * (0x1000 * p * p)
  {
  }

  /** A sample covered by the envelope stays inside 16 bits when the gain, in 16 binary places, is
      applied. */
  lemma NoOverload(x: int, g: nat, env: nat)
    requires x * x <= env && Safe(env, g)
    ensures -0x8000 <= x * g / 0x1_0000 <= 0x7FFF
  {
    var y := x * g;
    assert y * y == (x * x) * (g * g) by { SquareOfProduct(x, g); }
    Monotone(x * x, env, g * g, g * g);
    SmallRoot(y);
  }

  lemma SquareOfProduct(x: int, g: int)
    ensures (x * g) * (x * g) == (x * x) * (g * g)
  {
  }

  lemma SmallRoot(y: int)
    requires y * y < 0x4000_0000_0000_0000
    ensures -0x8000_0000 < y < 0x8000_0000
  {
    SquareGrows(y, 0x8000_0000);
  }

  lemma SquareGrows(y: int, m: nat)
    ensures y >= m ==> y * y >= m * m
    ensures y <= 0 - m ==> y * y >= m * m
  {
    if y >= m { Monotone(m, y, m, y); }
    if y <= 0 - m {
      Monotone(m, -y, m, -y);
      assert (-y) * (-y) == y * y;
    }
  }

  lemma DroppedIs(g: nat)
    requires g < 0x4000_0000
    ensures 10 <= Dropped(g) <= 15
    ensures Dropped(g) == if g > 47453132 then 16 - Norm(g) else 10
  {
    if g > 47453132 { NormAtMost(g); }
  }

  predicate Bounded(gains: seq<nat>, env: seq<nat>) {
    |gains| == 11 && |env| == 10 && forall k :: 0 <= k < 10 ==> gains[k + 1] < 0x4000_0000 && env[k] <= 0x4000_0000
  }

  ghost function LimitedAt(gains: seq<nat>, env: seq<nat>, k: nat): nat
    requires Bounded(gains, env) && 1 <= k <= 10
  {
    Limited(gains[k], env[k - 1])
  }

  /** Gain k after the limiter, and not above the limited gain behind it. */
  ghost predicate Lowered(was: seq<nat>, env: seq<nat>, g: nat, k: nat)
    requires Bounded(was, env) && 1 <= k <= 10
  {
    && g <= was[k] && Safe(env[k - 1], g)
    && g == if k == 10 then LimitedAt(was, env, k) else Lesser(LimitedAt(was, env, k), LimitedAt(was, env, k + 1))
  }

  /** The limiter over the ten subframes, and the reductions moved one subframe ahead. */
  method LimitFrame(gains: array<nat>, env: seq<nat>)
    requires gains.Length == 11 && Bounded(gains[..], env)
    modifies gains
    ensures gains[0] == old(gains[0]) && forall k :: 1 <= k <= 10 ==> Lowered(old(gains[..]), env, gains[k], k)
  {
    hide Limited, Lesser, LimitedAt, Safe;
    ghost var was := gains[..];
    for k := 0 to 10
      invariant gains[0] == was[0]
      invariant forall i :: k < i <= 10 ==> gains[i] == was[i]
      invariant forall i :: 1 <= i <= k ==> LimitedAt(was, env, i) == gains[i] <= was[i] && Safe(env[i - 1], gains[i])
    {
      var g := Limit(gains[k + 1], env[k]);
      gains[k + 1] := g;
      LimitedAtIs(was, env, k + 1);
    }
    for k := 1 to 10
      invariant gains[0] == was[0]
      invariant forall i :: k <= i <= 10 ==> LimitedAt(was, env, i) == gains[i] <= was[i] && Safe(env[i - 1], gains[i])
      invariant forall i :: 1 <= i < k ==> Lowered(was, env, gains[i], i)
    {
      LesserIs(gains[k], gains[k + 1]);
      if gains[k] > gains[k + 1] {
        QuieterStill(env[k - 1], gains[k], gains[k + 1]);
        gains[k] := gains[k + 1];
      }
    }
  }

  lemma LimitedAtIs(gains: seq<nat>, env: seq<nat>, k: nat)
    requires Bounded(gains, env) && 1 <= k <= 10
    ensures LimitedAt(gains, env, k) == Limited(gains[k], env[k - 1])
  {
    hide Limited;
  }

  function Lesser(x: nat, y: nat): nat {
    if x > y then y else x
  }

  lemma LesserIs(x: nat, y: nat)
    ensures Lesser(x, y) == if x > y then y else x
  {
  }

  lemma QuieterStill(env: nat, g: nat, h: nat)
    requires h <= g && Safe(env, g)
    ensures Safe(env, h)
  {
    Monotone(h, g, h, g);
    Monotone(env, env, h * h, g * g);
  }
}
