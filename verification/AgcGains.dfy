/** What the gains of a volume beyond the microphone's range amount to: `WebRtcAgc_AddMic` and
    `WebRtcAgc_VirtualMic` of `gbcom_common/agc/agc.c`. */
module AgcGains {
  import opened AgcTables
  import opened AgcLevels
  import opened AgcMic

  // ---------- the tables ----------

  predicate Rising(s: seq<int>) {
    forall i :: 0 < i < |s| ==> s[i - 1] < s[i]
  }

  predicate Falling(s: seq<int>) {
    forall i :: 0 < i < |s| ==> s[i - 1] > s[i]
  }

  lemma AnalogRises()
    ensures Rising(GAIN_ANALOG)
  {
  }

  lemma GainRow0()
    ensures Rising(GAIN_ROW_0)
  {
  }

  lemma GainRow1()
    ensures Rising(GAIN_ROW_1)
  {
  }

  lemma GainRow2()
    ensures Rising(GAIN_ROW_2)
  {
  }

  lemma GainRow3()
    ensures Rising(GAIN_ROW_3)
  {
  }

  lemma SuppressionRow0()
    ensures Falling(SUPPRESSION_ROW_0)
  {
  }

  lemma SuppressionRow1()
    ensures Falling(SUPPRESSION_ROW_1)
  {
  }

  lemma SuppressionRow2()
    ensures Falling(SUPPRESSION_ROW_2)
  {
  }

  lemma SuppressionRow3()
    ensures Falling(SUPPRESSION_ROW_3)
  {
  }

  lemma RisingJoined(s: seq<int>, t: seq<int>)
    requires Rising(s) && Rising(t) && s != [] && t != [] && s[|s| - 1] < t[0]
    ensures Rising(s + t)
  {
  }

  lemma FallingJoined(s: seq<int>, t: seq<int>)
    requires Falling(s) && Falling(t) && s != [] && t != [] && s[|s| - 1] > t[0]
    ensures Falling(s + t)
  {
  }

  lemma VirtualRises()
    ensures Rising(GAIN_VIRTUAL)
  {
    GainRow0();
    GainRow1();
    GainRow2();
    GainRow3();
    RisingJoined(GAIN_ROW_0, GAIN_ROW_1);
    RisingJoined(GAIN_ROW_0 + GAIN_ROW_1, GAIN_ROW_2);
    RisingJoined(GAIN_ROW_0 + GAIN_ROW_1 + GAIN_ROW_2, GAIN_ROW_3);
  }

  lemma SuppressionFalls()
    ensures Falling(SUPPRESSION_VIRTUAL)
  {
    SuppressionRow0();
    SuppressionRow1();
    SuppressionRow2();
    SuppressionRow3();
    FallingJoined(SUPPRESSION_ROW_0, SUPPRESSION_ROW_1);
    FallingJoined(SUPPRESSION_ROW_0 + SUPPRESSION_ROW_1, SUPPRESSION_ROW_2);
    FallingJoined(SUPPRESSION_ROW_0 + SUPPRESSION_ROW_1 + SUPPRESSION_ROW_2, SUPPRESSION_ROW_3);
  }

  lemma {:induction false} RisingFar(s: seq<int>, i: nat, j: nat)
    requires Rising(s) && i < j < |s|
    ensures s[i] < s[j]
    decreases j
  {
    if i < j - 1 { RisingFar(s, i, j - 1); }
  }

  lemma {:induction false} FallingFar(s: seq<int>, i: nat, j: nat)
    requires Falling(s) && i < j < |s|
    ensures s[i] > s[j]
    decreases j
  {
    if i < j - 1 { FallingFar(s, i, j - 1); }
  }

  lemma TableEnds()
    ensures GAIN_ANALOG[0] == 4096 && GAIN_ANALOG[31] == 12953
    ensures GAIN_VIRTUAL[0] == 1052 && GAIN_VIRTUAL[127] == 32382
    ensures SUPPRESSION_VIRTUAL[0] == 1024 && SUPPRESSION_VIRTUAL[127] == 102
  {
    assert GAIN_VIRTUAL[127] == GAIN_ROW_3[31];
    assert SUPPRESSION_VIRTUAL[127] == SUPPRESSION_ROW_3[31];
  }

  /** The gain of a frame rises with the index, from a tenth over one, at 127, to thirty-one. */
  lemma GainRises(i: int, j: int)
    requires 0 <= i < j <= 255
    ensures 102 <= FirstGain(i) < FirstGain(j) <= 32382
    ensures FirstGain(127) == 1024 && FirstGain(0) == 102 && FirstGain(255) == 32382
  {
    hide *;
    FirstIs(i);
    FirstIs(j);
    FirstIs(0);
    FirstIs(127);
    FirstIs(255);
    VirtualRises();
    SuppressionFalls();
    TableEnds();
    TableSizes();
    if i > 127 {
      RisingFar(GAIN_VIRTUAL, i - 128, j - 128);
    } else if j <= 127 {
      FallingFar(SUPPRESSION_VIRTUAL, 127 - j, 127 - i);
    }
    if j > 128 { RisingFar(GAIN_VIRTUAL, 0, j - 128); }
    if 127 < j < 255 { RisingFar(GAIN_VIRTUAL, j - 128, 127); }
    if i > 128 { RisingFar(GAIN_VIRTUAL, 0, i - 128); }
    if 0 < i <= 127 { FallingFar(SUPPRESSION_VIRTUAL, 127 - i, 127); }
    if i < 127 { FallingFar(SUPPRESSION_VIRTUAL, 0, 127 - i); }
    if j < 127 { FallingFar(SUPPRESSION_VIRTUAL, 0, 127 - j); }
  }

  lemma TableSizes()
    ensures |GAIN_ANALOG| == 32 && |GAIN_VIRTUAL| == 128 && |SUPPRESSION_VIRTUAL| == 128
  {
  }

  lemma FirstIs(idx: int)
    requires 0 <= idx <= 255
    ensures |GAIN_VIRTUAL| == 128 && |SUPPRESSION_VIRTUAL| == 128
    ensures FirstGain(idx) == if idx >= 128 then GAIN_VIRTUAL[idx - 128] else SUPPRESSION_VIRTUAL[127 - idx]
  {
    hide GAIN_VIRTUAL, SUPPRESSION_VIRTUAL;
    TableSizes();
  }

  // ---------- the gain of WebRtcAgc_AddMic ----------

  /** The index after so many frames at the same levels. */
  function After(s: Levels, idx: nat, n: nat): (r: nat)
    requires Inv(s) && idx < 32
    ensures r < 32
  {
    if n == 0 then idx
    else
      MicIdxInTable(s, After(s, idx, n - 1));
      MicIdx(s, After(s, idx, n - 1))
  }

  /** The index goes to its target by one a frame, and stays there; without extra volume it drops to 0
      at once. */
  lemma {:induction false} IndexReaches(s: Levels, idx: nat, n: nat)
    requires Inv(s) && idx < 32
    ensures s.micVol <= s.maxAnalog && n > 0 ==> After(s, idx, n) == 0
    ensures s.micVol > s.maxAnalog ==>
      After(s, idx, n) == if idx <= TargetIdx(s) then Min(idx + n, TargetIdx(s)) else Max(idx - n, TargetIdx(s))
  {
    hide Inv, TargetIdx;
    if n > 0 { IndexReaches(s, idx, n - 1); }
    Beyond(s);
  }

  lemma Beyond(s: Levels)
    requires Inv(s)
    ensures s.micVol > s.maxAnalog ==> s.maxLevel > s.maxAnalog
  {
  }

  /** The target is the share of the extra volume, in thirty-firsts rounded down. */
  lemma TargetExactly(s: Levels, k: int)
    requires Inv(s) && s.micVol > s.maxAnalog
    ensures s.maxLevel > s.maxAnalog
    ensures TargetIdx(s) == k <==>
      k * (s.maxLevel - s.maxAnalog) <= 31 * (s.micVol - s.maxAnalog) < (k + 1) * (s.maxLevel - s.maxAnalog)
    ensures TargetIdx(s) == 31 <==> s.micVol == s.maxLevel
  {
    var x, d := 31 * (s.micVol - s.maxAnalog), s.maxLevel - s.maxAnalog;
    hide Inv;
    Beyond(s);
    InOrder(s);
    QuotientIs(x, d, k);
    QuotientIs(x, d, 31);
  }

  lemma InOrder(s: Levels)
    requires Inv(s)
    ensures s.micVol <= s.maxLevel
  {
  }

  lemma QuotientIs(x: int, d: int, k: int)
    requires d > 0
    ensures x / d == k <==> k * d <= x < (k + 1) * d
  {
    var q := x / d;
    assert q * d <= x < (q + 1) * d;
    if k < q { Ordered(k + 1, q, d); } else if k > q { Ordered(q + 1, k, d); }
  }

  lemma Ordered(x: int, y: int, d: int)
    requires x <= y && d >= 0
    ensures x * d <= y * d
  {
  }

  /** The sample under the gain at an index: the product rounded down or the nearest bound, never
      smaller than it was; unchanged at index 0. */
  lemma AnalogExactly(x: Int16, idx: nat)
    requires idx < 32
    ensures |GAIN_ANALOG| == 32
    ensures var y, p := Clamped(x * GAIN_ANALOG[idx] / 0x1000), x * GAIN_ANALOG[idx];
            && (-134217728 <= p < 134217728 ==> 0 <= p - 4096 * y < 4096)
            && (p >= 134217728 ==> y == 32767) && (p < -134217728 ==> y == -32768)
            && (x >= 0 ==> y >= x) && (x <= 0 ==> y <= x) && (idx == 0 ==> y == x)
  {
    hide GAIN_ANALOG;
    TableSizes();
    TableEnds();
    AnalogRises();
    if idx > 0 { RisingFar(GAIN_ANALOG, 0, idx); }
    Larger(x, GAIN_ANALOG[idx], 4096);
  }

  lemma Larger(x: int, g: int, unit: int)
    requires g >= unit > 0
    ensures x >= 0 ==> x * g >= x * unit
    ensures x <= 0 ==> x * g <= x * unit
  {
    if x < 0 { Ordered(x, 0, g - unit); }
    if x > 0 { Ordered(0, x, g - unit); }
    assert x * (g - unit) == x * g - x * unit;
  }

  // ---------- the gain of WebRtcAgc_VirtualMic ----------

  /** The first gain of a frame on a sample: smaller below 127, the same at 127, larger above. */
  lemma VirtualExactly(x: Int16, idx: int)
    requires 0 <= idx <= 255
    ensures var y, p := Scaled(x, FirstGain(idx)), x * FirstGain(idx);
            && (-33554432 <= p < 33554432 ==> 0 <= p - 1024 * y < 1024)
            && (p >= 33554432 ==> y == 32767) && (p < -33554432 ==> y == -32768)
            && (idx >= 127 ==> (x >= 0 ==> y >= x) && (x <= 0 ==> y <= x))
            && (idx <= 127 ==> (x >= 0 ==> 0 <= y <= x) && (x <= 0 ==> x <= y <= 0))
            && (idx == 127 ==> y == x)
  {
    hide FirstGain;
    GainRises(0, 255);
    if idx > 127 { GainRises(127, idx); }
    if idx < 127 { GainRises(idx, 127); }
    var g := FirstGain(idx);
    if idx >= 127 { Larger(x, g, 1024); } else { Within(x, g); }
  }

  lemma Within(x: int, g: int)
    requires 0 < g <= 1024
    ensures x >= 0 ==> 0 <= x * g <= x * 1024
    ensures x <= 0 ==> x * 1024 <= x * g <= 0
  {
    Larger(x, 1024, g);
    if x < 0 { Ordered(x, 0, g); }
    if x > 0 { Ordered(0, x, g); }
  }

  /** A sample clips when it leaves 16 bits. */
  lemma ClipsExactly(v: Virtual, x: Int16)
    ensures Clips(v, x) <==> x * v.gain >= 33554432 || x * v.gain < -33554432
  {
  }

  /** How many of the first i samples clip under the gain in force. */
  function Clipped(v: Virtual, xs: seq<Int16>, i: nat): nat
    requires Sound(v) && i <= |xs|
  {
    if i == 0 then 0
    else Clipped(v, xs, i - 1) + if Clips(Along(v, xs, i - 1), xs[i - 1]) then 1 else 0
  }

  lemma LaterIs(idx: int)
    requires 126 <= idx <= 254
    ensures LaterGain(idx) == if idx == 126 then FirstGain(126) else FirstGain(idx + 1)
  {
  }

  /** Every sample of the lowest band that clips takes the index down by one; the gain lags one step
      behind, so that the first such sample does not change it. */
  lemma {:induction false} AlongExactly(idx: int, xs: seq<Int16>, i: nat)
    requires 0 <= idx <= 255 && i <= |xs|
    ensures Sound(Virtual(idx, FirstGain(idx)))
    ensures var v := Virtual(idx, FirstGain(idx));
            var r, k := Along(v, xs, i), Clipped(v, xs, i);
            && r.idx == idx - k && (k > 0 ==> r.idx >= 126)
            && r.gain == if k == 0 || r.idx == 126 then FirstGain(r.idx) else FirstGain(r.idx + 1)
    decreases i
  {
    hide FirstGain, LaterGain, Clips;
    FirstSound(idx);
    var v := Virtual(idx, FirstGain(idx));
    if i > 0 {
      AlongExactly(idx, xs, i - 1);
      var u := Along(v, xs, i - 1);
      if Clips(u, xs[i - 1]) {
        ClippingIndex(u, xs[i - 1]);
        LaterIs(u.idx - 1);
      }
    }
  }
}
