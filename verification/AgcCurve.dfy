/** The weights of a raise in `WebRtcAgc_ProcessAnalog` (`gbcom_common/agc/agc.c`): two tables of
    straight pieces for two falling curves. */
module AgcCurve {
  import opened AgcLevels
  import opened AgcProduct

  /** The weight for a volume of this share of the range, in 14 binary places. */
  function Line(v: nat, offset: seq<int>, slope: seq<int>): int
    requires |offset| == 8 && |slope| == 8
  {
    offset[ExpCurve(v)] - slope[ExpCurve(v)] * v / 0x2000
  }

  lemma WeightIsLine(s: Levels, level: int)
    requires s.maxInit > s.minLevel && s.minLevel <= level <= s.maxInit
    ensures var v := Share(level - s.minLevel, s.maxInit - s.minLevel);
            && 0 <= v <= 0x4000
            && Weight(s, level, OFFSET1, SLOPE1) == Line(v, OFFSET1, SLOPE1)
            && Weight(s, level, OFFSET2, SLOPE2) == Line(v, OFFSET2, SLOPE2)
  {
    hide Weight, Quot;
    ShareUp(level - s.minLevel, s.maxInit - s.minLevel);
    WeightOf(s, level, OFFSET1, SLOPE1);
    WeightOf(s, level, OFFSET2, SLOPE2);
  }

  predicate Between(x: int, lo: int, hi: int) {
    lo <= x <= hi
  }

  /** The values at the ends of each piece. */
  lemma FirstPieces(v: nat)
    requires v <= 0x4000
    ensures var w := Line(v, OFFSET1, SLOPE1);
            if v <= 1311 then Between(w, 21908, 25395) else if v <= 2621 then Between(w, 19907, 21907)
            else if v <= 3932 then Between(w, 18756, 19906) else if v <= 5243 then Between(w, 18095, 18755)
            else if v <= 6554 then Between(w, 17715, 18094) else if v <= 7864 then Between(w, 17498, 17716)
            else if v <= 12124 then Between(w, 17253, 17498) else Between(w, 17211, 17252)
  {
  }

  lemma SecondPieces(v: nat)
    requires v <= 0x4000
    ensures var w := Line(v, OFFSET2, SLOPE2);
            if v <= 1311 then Between(w, 18102, 18432) else if v <= 2621 then Between(w, 17826, 18102)
            else if v <= 3932 then Between(w, 17594, 17826) else if v <= 5243 then Between(w, 17398, 17593)
            else if v <= 6554 then Between(w, 17236, 17399) else if v <= 7864 then Between(w, 17098, 17235)
            else if v <= 12124 then Between(w, 16787, 17097) else Between(w, 16612, 16788)
  {
  }

  /** Inside a piece the weight falls. */
  lemma PieceFalls(v: nat, w: nat, offset: seq<int>, slope: seq<int>)
    requires |offset| == 8 && |slope| == 8 && v <= w && ExpCurve(v) == ExpCurve(w) && slope[ExpCurve(v)] >= 0
    ensures Line(w, offset, slope) <= Line(v, offset, slope)
  {
    var k := slope[ExpCurve(v)];
    assert k * v <= k * w;
  }

  lemma LineFalls(v: nat, w: nat)
    requires v <= w <= 0x4000
    ensures Line(w, OFFSET1, SLOPE1) <= Line(v, OFFSET1, SLOPE1) + 1
    ensures Line(w, OFFSET2, SLOPE2) <= Line(v, OFFSET2, SLOPE2) + 1
  {
    hide Line;
    FirstPieces(v);
    FirstPieces(w);
    SecondPieces(v);
    SecondPieces(w);
    if ExpCurve(v) == ExpCurve(w) {
      PieceFalls(v, w, OFFSET1, SLOPE1);
      PieceFalls(v, w, OFFSET2, SLOPE2);
    }
  }

  /** The higher the volume, the less it is raised; a joint of two pieces may gain the last digit. */
  lemma WeightFalls(s: Levels, level: int, higher: int)
    requires s.maxInit > s.minLevel && s.minLevel <= level <= higher <= s.maxInit
    ensures Weight(s, higher, OFFSET1, SLOPE1) <= Weight(s, level, OFFSET1, SLOPE1) + 1
    ensures Weight(s, higher, OFFSET2, SLOPE2) <= Weight(s, level, OFFSET2, SLOPE2) + 1
  {
    hide Weight, Line, Share;
    WeightIsLine(s, level);
    WeightIsLine(s, higher);
    ShareGrows(level - s.minLevel, higher - s.minLevel, s.maxInit - s.minLevel);
    LineFalls(Share(level - s.minLevel, s.maxInit - s.minLevel), Share(higher - s.minLevel, s.maxInit - s.minLevel));
  }

  lemma ShareGrows(d: nat, d': nat, range: int)
    requires d <= d' && range > 0
    ensures Share(d, range) <= Share(d', range)
  {
    QuotGrows(d * 0x4000, d' * 0x4000, range);
  }

  lemma QuotGrows(x: nat, y: nat, range: int)
    requires x <= y && range > 0
    ensures x / range <= y / range
  {
    assert x == x / range * range + x % range && y == y / range * range + y % range;
    Order(x / range, y / range, range, x, y);
  }

  lemma Order(p: nat, q: nat, range: int, x: int, y: int)
    requires range > 0 && p * range <= x <= y < q * range + range
    ensures p <= q
  {
    if q < p { Steps(q, p, range); }
  }

  /** Half a power of two, in 14 binary places. */
  function Halving(k: nat): nat
    requires k <= 10
  {
    if k == 0 then 8192 else if k == 1 then 4096 else if k == 2 then 2048 else if k == 3 then 1024 else if k == 4 then 512
    else if k == 5 then 256 else if k == 6 then 128 else if k == 7 then 64 else if k == 8 then 32 else if k == 9 then 16 else 8
  }

  /** At every tenth of the range the first weight is that of the curve 32^(-2x) / 2 + 1.05, which
      halves its first term there, up to 110 / 2^14. */
  lemma WeightFollows(s: Levels, level: int, k: nat)
    requires s.maxInit > s.minLevel && k <= 10 && 10 * (level - s.minLevel) == k * (s.maxInit - s.minLevel)
    ensures s.minLevel <= level <= s.maxInit
    ensures -1100 <= 10 * Weight(s, level, OFFSET1, SLOPE1) - (10 * Halving(k) + 172032) <= 1100
  {
    hide Weight, Share;
    var range := s.maxInit - s.minLevel;
    assert 0 <= k * range <= 10 * range;
    WeightIsLine(s, level);
    Tenth(level - s.minLevel, range, k);
  }

  lemma Tenth(d: nat, range: int, k: nat)
    requires range > 0 && 10 * d == k * range && k <= 10
    ensures Share(d, range) == 0x4000 * k / 10
  {
    Scaled(k, range);
    Bracket(d * 0x4000, range, k * 0x4000, 0x4000 * k / 10, 0x4000 * k % 10);
    Between0(d * 0x4000, range, 0x4000 * k / 10);
  }

  lemma Scaled(k: int, range: int)
    ensures (k * 0x4000) * range == 0x4000 * (k * range)
  {
  }

  lemma Bracket(x: int, range: int, a: int, q: int, r: int)
    requires range > 0 && 10 * x == a * range && a == 10 * q + r && 0 <= r < 10
    ensures q * range <= x < (q + 1) * range
  {
    Split(q, r, range);
    Smaller(r, range);
  }

  lemma Split(q: int, r: int, range: int)
    ensures (10 * q + r) * range == 10 * (q * range) + r * range && (q + 1) * range == q * range + range
  {
  }

  lemma Smaller(r: int, range: int)
    requires range > 0 && 0 <= r < 10
    ensures 0 <= r * range < 10 * range
  {
  }

  lemma Between0(x: nat, range: int, q: nat)
    requires range > 0 && q * range <= x < (q + 1) * range
    ensures x / range == q
  {
    assert x == x / range * range + x % range;
    Same(x / range, q, range, x);
  }

  lemma Same(p: nat, q: nat, range: int, x: int)
    requires range > 0 && p * range <= x < p * range + range && q * range <= x < (q + 1) * range
    ensures p == q
  {
    if p < q {
      Steps(p, q, range);
    } else if q < p {
      Steps(q, p, range);
    }
  }

  lemma Steps(p: nat, q: nat, range: int)
    requires range > 0 && p < q
    ensures (p + 1) * range <= q * range && (p + 1) * range == p * range + range
  {
  }

  /** The second weight runs from 9/8 to less than 1 1/72, the curve 3^(-2x) / 8 + 1 at its ends. */
  lemma SecondEnds(s: Levels)
    requires s.maxInit > s.minLevel
    ensures Weight(s, s.minLevel, OFFSET2, SLOPE2) == 0x4000 + 0x4000 / 8
    ensures -2 <= Weight(s, s.maxInit, OFFSET2, SLOPE2) - (0x4000 + 0x4000 / 72) <= 2
  {
    hide Weight, Share;
    var range := s.maxInit - s.minLevel;
    WeightIsLine(s, s.minLevel);
    WeightIsLine(s, s.maxInit);
    Tenth(0, range, 0);
    Tenth(range, range, 10);
  }

  /** A middle volume: 3^(-1) / 8 + 1. */
  lemma SecondMiddle(s: Levels, level: int)
    requires s.maxInit > s.minLevel && 2 * (level - s.minLevel) == s.maxInit - s.minLevel
    ensures -10 <= Weight(s, level, OFFSET2, SLOPE2) - (0x4000 + 0x4000 / 24) <= 10
  {
    hide Weight, Share;
    WeightIsLine(s, level);
    Tenth(level - s.minLevel, s.maxInit - s.minLevel, 5);
  }
}
