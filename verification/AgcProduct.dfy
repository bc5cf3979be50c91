/** The raise of the volume in `WebRtcAgc_ProcessAnalog` (`gbcom_common/agc/agc.c`, 1774-1799 and
    1829-1854) multiplies unsigned numbers. Below the minimum the product wraps. */
module AgcProduct {
  import opened AgcLevels

  /** The product of a raise is the weight times the height above the minimum. */
  ghost predicate Exact(s: Levels, level: int, offset: seq<int>, slope: seq<int>)
    requires |offset| == 8 && |slope| == 8
  {
    var w, d := Weight(s, level, offset, slope), level - s.minLevel;
    U32(U32(w) * U32(d)) == w * d
  }

  /** Two below the minimum of a range of 1 or 3 to 11 steps, or one below that of 2 to 5, the weight
      of the first table overflows its 16 bits, too, and turns negative. */
  predicate Rewraps(d: int, range: int) {
    (d == -2 && (range == 1 || 3 <= range <= 11)) || (d == -1 && 2 <= range <= 5)
  }

  /** The product wraps exactly for a level below the minimum; with the first table a negative weight
      undoes that. */
  lemma WrapsExactly(s: Levels, level: int)
    requires Core(s) && s.minLevel - 2 <= level <= s.maxInit
    ensures Exact(s, level, OFFSET1, SLOPE1) <==>
              level >= s.minLevel || Rewraps(level - s.minLevel, s.maxInit - s.minLevel)
    ensures Exact(s, level, OFFSET2, SLOPE2) <==> level >= s.minLevel
  {
    hide Core, Weight, Rewraps;
    LevelsSmall(s);
    RewrapsBelow(level - s.minLevel, s.maxInit - s.minLevel);
    FirstWeight(s, level);
    SecondWeight(s, level);
    Product(Weight(s, level, OFFSET1, SLOPE1), level - s.minLevel);
    Product(Weight(s, level, OFFSET2, SLOPE2), level - s.minLevel);
  }

  lemma Product(w: int, d: int)
    requires -0x8000 <= w < 0x8000 && w != 0 && -2 <= d <= 0xA000 && (d >= 0 ==> w > 0)
    ensures U32(U32(w) * U32(d)) == w * d <==> d >= 0 || w < 0
  {
    if d >= 0 {
      Bounded(w, 0x8000, d, 0xA000);
    } else if w < 0 {
      NegativeProduct(w, d);
    } else {
      if d == -1 { assert w * d == -w; } else { assert w * d == -2 * w; }
    }
  }

  lemma NegativeProduct(w: int, d: int)
    requires -0x8000 <= w < 0 && -2 <= d < 0
    ensures U32(U32(w) * U32(d)) == w * d
  {
    assert U32(w) == w + 0x1_0000_0000;
    if d == -1 {
      assert U32(w) * U32(d) == U32(w) * 0xFFFF_FFFF == (w + 0xFFFF_FFFF) * 0x1_0000_0000 - w;
      Remainder(w + 0xFFFF_FFFF, -w);
    } else {
      assert U32(w) * U32(d) == U32(w) * 0xFFFF_FFFE == (w + 0xFFFF_FFFE) * 0x1_0000_0000 - 2 * w;
      Remainder(w + 0xFFFF_FFFE, -2 * w);
    }
  }

  lemma Bounded(a: nat, b: nat, c: nat, d: nat)
    requires a <= b && c <= d
    ensures 0 <= a * c <= b * d
  {
    assert a * c <= b * c;
    assert b * c <= b * d;
  }

  lemma LevelsSmall(s: Levels)
    requires Core(s)
    ensures 0 <= s.minLevel < s.maxInit <= s.minLevel + 0xA000
  {
  }

  function Share(d: int, range: int): int
    requires range > 0
  {
    Quot(d * 0x4000, range)
  }

  lemma WeightOf(s: Levels, level: int, offset: seq<int>, slope: seq<int>)
    requires s.maxInit > s.minLevel && |offset| == 8 && |slope| == 8
    ensures var v := ToInt16(Share(level - s.minLevel, s.maxInit - s.minLevel));
            Weight(s, level, offset, slope) == ToInt16(offset[ExpCurve(v)] - ToInt16(slope[ExpCurve(v)] * v / 0x2000))
  {
  }

  lemma FirstWeight(s: Levels, level: int)
    requires s.maxInit > s.minLevel && s.minLevel - 2 <= level <= s.maxInit
    ensures var w, d := Weight(s, level, OFFSET1, SLOPE1), level - s.minLevel;
            && -0x8000 <= w < 0x8000 && w != 0 && (w < 0 <==> Rewraps(d, s.maxInit - s.minLevel))
            && (d >= 0 ==> w <= 25395) && (w > 0 && d < 0 ==> w >= 3445)
  {
    hide Weight, Quot;
    var d, range := level - s.minLevel, s.maxInit - s.minLevel;
    WeightOf(s, level, OFFSET1, SLOPE1);
    if d >= 0 { ShareUp(d, range); } else { ShareDown(d, range); }
  }

  lemma SecondWeight(s: Levels, level: int)
    requires s.maxInit > s.minLevel && s.minLevel - 2 <= level <= s.maxInit
    ensures var w, d := Weight(s, level, OFFSET2, SLOPE2), level - s.minLevel;
            0 < w < 0x8000 && (d >= 0 ==> w <= 18432) && (d < 0 ==> w >= 18432)
  {
    hide Weight, Quot;
    var d, range := level - s.minLevel, s.maxInit - s.minLevel;
    WeightOf(s, level, OFFSET2, SLOPE2);
    if d >= 0 { ShareUp(d, range); } else { ShareDown(d, range); }
  }

  lemma ShareUp(d: int, range: int)
    requires 0 <= d <= range && range > 0
    ensures 0 <= Share(d, range) <= 0x4000
  {
    QuotBelow(d * 0x4000, range, 0x4000);
  }

  /** Where the weight of the first table changes its sign. */
  lemma ShareDown(d: int, range: int)
    requires -2 <= d < 0 < range
    ensures var v := Share(d, range);
            && -0x8000 <= v <= 0
            && (v == -0x8000 <==> d == -2 && range == 1)
            && (v == -0x4000 <==> (d == -1 && range == 1) || (d == -2 && range == 2))
            && (-12317 <= v <= -2772 <==> (d == -1 && 2 <= range <= 5) || (d == -2 && 3 <= range <= 11))
            && (v < -12317 ==> v == -0x8000 || v == -0x4000)
  {
    var x := -d * 0x4000;
    if d == -1 {
      assert x == 0x4000;
      Quotients(range);
    } else {
      assert x == 0x8000;
      Quotients(range);
    }
  }

  lemma Quotients(range: int)
    requires range > 0
    ensures 0x4000 / range <= 0x4000 && (range >= 2 ==> 0x4000 / range <= 0x2000) && (range <= 5 ==> 0x4000 / range >= 3276)
    ensures range >= 6 ==> 0x4000 / range <= 2730
    ensures 0x8000 / range <= 0x8000 && (range >= 2 ==> 0x8000 / range <= 0x4000) && (range >= 3 ==> 0x8000 / range <= 10922)
    ensures range <= 11 ==> 0x8000 / range >= 2978
    ensures range >= 12 ==> 0x8000 / range <= 2730
  {
    if range <= 11 {
      assert range == 1 || range == 2 || range == 3 || range == 4 || range == 5 || range == 6 || range == 7
          || range == 8 || range == 9 || range == 10 || range == 11;
    }
  }

  lemma QuotBelow(x: nat, range: int, q: nat)
    requires range > 0 && x <= range * q
    ensures x / range <= q
  {
    NotMore(x / range, range, q);
  }

  lemma NotMore(r: nat, range: int, q: nat)
    requires range > 0 && r * range <= range * q
    ensures r <= q
  {
  }

  /** Where it wraps, the volume jumps beyond every maximum. */
  lemma JumpsBelow(s: Levels, level: int, last: int)
    requires Core(s) && s.minLevel - 2 <= level < s.minLevel && last <= s.maxInit
    ensures !Rewraps(level - s.minLevel, s.maxInit - s.minLevel) ==>
              Raised(Weight(s, level, OFFSET1, SLOPE1), level, s.minLevel, last, 2) > s.maxInit + 0x1_0000
    ensures Raised(Weight(s, level, OFFSET2, SLOPE2), level, s.minLevel, last, 1) > s.maxInit + 0x1_0000
  {
    hide Core, Weight, Rewraps;
    LevelsSmall(s);
    FirstWeight(s, level);
    SecondWeight(s, level);
    var d := level - s.minLevel;
    if Weight(s, level, OFFSET1, SLOPE1) > 0 { Wrapped(Weight(s, level, OFFSET1, SLOPE1), d); }
    Wrapped(Weight(s, level, OFFSET2, SLOPE2), d);
  }

  lemma Wrapped(w: int, d: int)
    requires 3445 <= w < 0x8000 && -2 <= d < 0
    ensures U32(U32(w) * U32(d)) / 0x4000 >= 0x3_0000
  {
    if d == -1 {
      assert U32(w) * U32(d) == w * 0xFFFF_FFFF;
      Remainder(w - 1, 0x1_0000_0000 - w);
    } else {
      assert U32(w) * U32(d) == w * 0xFFFF_FFFE;
      Remainder(w - 1, 0x1_0000_0000 - 2 * w);
    }
  }

  lemma Remainder(q: int, r: int)
    requires 0 <= r < 0x1_0000_0000
    ensures U32(q * 0x1_0000_0000 + r) == r
  {
  }

  /** From the minimum on a raise is at most this multiple of the height above it, or the step. */
  lemma RaiseBounded(s: Levels, level: int, last: int)
    requires Core(s) && s.minLevel <= level <= s.maxInit
    ensures Raised(Weight(s, level, OFFSET1, SLOPE1), level, s.minLevel, last, 2)
         <= Max(s.minLevel + 25395 * (level - s.minLevel) / 0x4000, last + 2)
    ensures Raised(Weight(s, level, OFFSET2, SLOPE2), level, s.minLevel, last, 1)
         <= Max(s.minLevel + 18432 * (level - s.minLevel) / 0x4000, last + 1)
  {
    hide Core, Weight, Rewraps;
    LevelsSmall(s);
    WrapsExactly(s, level);
    FirstWeight(s, level);
    SecondWeight(s, level);
    RewrapsBelow(level - s.minLevel, s.maxInit - s.minLevel);
    var d := level - s.minLevel;
    Bounded(Weight(s, level, OFFSET1, SLOPE1), 25395, d, d);
    Bounded(Weight(s, level, OFFSET2, SLOPE2), 18432, d, d);
  }

  lemma RewrapsBelow(d: int, range: int)
    ensures Rewraps(d, range) ==> d < 0
  {
  }
}
