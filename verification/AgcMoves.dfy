/** How far one call of `WebRtcAgc_ProcessAnalog` (`gbcom_common/agc/agc.c`) moves the volume, and
    when. */
module AgcMoves {
  import opened AgcLevels
  import opened AgcProduct
  import opened AgcCurve
  import opened AgcBelow

  // ---------- one step down ----------

  /** The share num / 2^15 of the height above the minimum, rounded down, or the step below the last
      volume where that is less. */
  predicate LowersTo(v: int, minLevel: int, level: int, last: int, num: int, step: int) {
    var d := level - minLevel;
    && v <= last - step && 0x8000 * (v - minLevel) <= num * d
    && (v == last - step || num * d < 0x8000 * (v - minLevel + 1))
  }

  lemma LoweredIs(num: nat, level: int, minLevel: int, last: int, step: int)
    requires num < 0x8000 && 0 <= level - minLevel <= 0xA000
    ensures LowersTo(Lowered(num, level, minLevel, last, step), minLevel, level, last, num, step)
  {
    Bounded(num, 0x8000, level - minLevel, 0xA000);
    Shifted(num * (level - minLevel));
  }

  lemma Shifted(x: nat)
    requires x < 0x1_0000_0000
    ensures U32(x) == x && 0x8000 * (x / 0x8000) <= x < 0x8000 * (x / 0x8000 + 1)
  {
  }

  /** After a saturated frame the volume is 0.903 of its height, or two below the last one; the
      measure is lowered by an eighth, and all timers and limits start over. */
  lemma SaturationLowers(s: Levels, last: int)
    requires Core(s) && s.minLevel <= s.micVol <= s.maxInit
    ensures var t := Saturate(s, last);
            && LowersTo(t.micVol, s.minLevel, s.micVol, last, 29591, 2)
            && t.zeroCtrlMax == s.micVol && t.maxLevel == s.maxLevel
            && t.msTooHigh == -100 && t.msTooLow == s.msTooLow && t.slow == 0 && t.activeSpeech == 0 && t.lpMax == 0
            && t.inner == 520 && t.outer == 340 && t.upper == 16895980 && t.lower == 10660640 && t.muteGuardMs == 0
            && (s.lp160 >= 0 ==> 7 * (s.lp160 - 7) <= 8 * t.lp160 <= 7 * s.lp160)
  {
    hide Lowered;
    CoreRange(s);
    LoweredIs(29591, s.micVol, s.minLevel, last, 2);
  }

  lemma CoreRange(s: Levels)
    requires Core(s)
    ensures 0 <= s.minLevel < s.maxInit <= s.minLevel + 0xA000
  {
  }

  // ---------- one step up ----------

  /** At least the share num / 2^14 of the height above the minimum, rounded down, and at least the
      step above the last volume. */
  predicate RaisesTo(v: int, minLevel: int, level: int, last: int, num: int, step: int) {
    v >= last + step && num * (level - minLevel) < 0x4000 * (v - minLevel + 1)
  }

  lemma RaisedIs(s: Levels, level: int, last: int)
    requires Core(s) && s.minLevel <= level <= s.maxInit
    ensures RaisesTo(Raised(Weight(s, level, OFFSET1, SLOPE1), level, s.minLevel, last, 2), s.minLevel, level, last, 17211, 2)
    ensures RaisesTo(Raised(Weight(s, level, OFFSET2, SLOPE2), level, s.minLevel, last, 1), s.minLevel, level, last, 16612, 1)
    ensures Raised(Weight(s, level, OFFSET1, SLOPE1), level, s.minLevel, last, 2)
         <= Max(s.minLevel + 25395 * (level - s.minLevel) / 0x4000, last + 2)
    ensures Raised(Weight(s, level, OFFSET2, SLOPE2), level, s.minLevel, last, 1)
         <= Max(s.minLevel + 18432 * (level - s.minLevel) / 0x4000, last + 1)
  {
    hide Core, Weight, Line, Share, Rewraps;
    CoreRange(s);
    var d := level - s.minLevel;
    var v := Share(d, s.maxInit - s.minLevel);
    WeightIsLine(s, level);
    FirstPieces(v);
    SecondPieces(v);
    RaiseBounded(s, level, last);
    AtLeast(Weight(s, level, OFFSET1, SLOPE1), 17211, level, s.minLevel, last, 2);
    AtLeast(Weight(s, level, OFFSET2, SLOPE2), 16612, level, s.minLevel, last, 1);
  }

  lemma AtLeast(w: int, least: int, level: int, minLevel: int, last: int, step: int)
    requires 0 < least <= w < 0x8000 && 0 <= level - minLevel <= 0xA000
    ensures RaisesTo(Raised(w, level, minLevel, last, step), minLevel, level, last, least, step)
  {
    var d := level - minLevel;
    Bounded(w, 0x8000, d, 0xA000);
    Bounded(least, w, d, d);
    ShiftedUp(w * d);
  }

  lemma ShiftedUp(x: nat)
    requires x < 0x1_0000_0000
    ensures U32(x) == x && x < 0x4000 * (x / 0x4000 + 1)
  {
  }

  // ---------- what a block of speech does ----------

  /** The volume goes down by 0.95 after `outer` milliseconds above the far limit, by 0.965 after
      `inner` above the near one, up after as long below the far or near lower limit, and stays
      otherwise; inside the limits it follows the level. */
  lemma VolumeStep(s: Levels, level: int, last: int)
    requires Core(s) && s.minLevel <= level <= s.maxInit
    ensures var v, e := Adapted(s, level, last).micVol, s.lp160;
            if e > 42440780 then
              if s.msTooHigh + 2 > s.outer then LowersTo(v, s.minLevel, level, last, 31130, 1) else v == s.micVol
            else if e > s.upper then
              if s.msTooHigh + 2 > s.inner then LowersTo(v, s.minLevel, level, last, 31621, 1) else v == s.micVol
            else if e < 4244080 then
              if s.msTooLow + 2 > s.outer then
                RaisesTo(v, s.minLevel, level, last, 17211, 2)
                && v <= Max(s.minLevel + 25395 * (level - s.minLevel) / 0x4000, last + 2)
              else v == s.micVol
            else if e < s.lower then
              if s.msTooLow + 2 > s.inner then
                RaisesTo(v, s.minLevel, level, last, 16612, 1)
                && v <= Max(s.minLevel + 18432 * (level - s.minLevel) / 0x4000, last + 1)
              else v == s.micVol
            else v == level
  {
    hide Lowered, Raised, Weight, Reduced, Core, LowersTo, RaisesTo;
    CoreRange(s);
    LoweredIs(31130, level, s.minLevel, last, 1);
    LoweredIs(31621, level, s.minLevel, last, 1);
    RaisedIs(s, level, last);
    var t := s.(msTooHigh := 0, msTooLow := s.msTooLow + 2, slow := 0);
    SameWeights(s, t, level);
  }

  lemma SameWeights(s: Levels, t: Levels, level: int)
    requires s.minLevel == t.minLevel && s.maxInit == t.maxInit
    ensures Weight(s, level, OFFSET1, SLOPE1) == Weight(t, level, OFFSET1, SLOPE1)
    ensures Weight(s, level, OFFSET2, SLOPE2) == Weight(t, level, OFFSET2, SLOPE2)
  {
    hide ToInt16, ExpCurve, Quot;
  }

  /** The timers count the time on one side of the limits: a move or the other side starts them over. */
  lemma TimerStep(s: Levels, level: int, last: int)
    ensures var t, e := Adapted(s, level, last), s.lp160;
            if e > 42440780 || e > s.upper then
              && t.msTooLow == 0 && t.slow == 0
              && t.msTooHigh == (if s.msTooHigh + 2 > (if e > 42440780 then s.outer else s.inner) then 0 else s.msTooHigh + 2)
            else if e < 4244080 || e < s.lower then
              && t.msTooHigh == 0 && t.slow == 0
              && t.msTooLow == (if s.msTooLow + 2 > (if e < 4244080 then s.outer else s.inner) then 0 else s.msTooLow + 2)
            else t.msTooHigh == 0 && t.msTooLow == 0 && t.slow == if s.slow > 4000 then s.slow else s.slow + 2
  {
    hide Lowered, Raised, Weight, Reduced;
  }

  /** Four seconds inside the limits widen them and lengthen the times. */
  lemma SlowMode(s: Levels, level: int, last: int)
    ensures var t, inside := Adapted(s, level, last), s.lp160 <= 42440780 && s.lp160 <= s.upper && 4244080 <= s.lp160 && s.lower <= s.lp160;
            if inside && s.slow > 4000 then t.inner == 1000 && t.outer == 500 && t.upper == 21270780 && t.lower == 8468050
            else t.inner == s.inner && t.outer == s.outer && t.upper == s.upper && t.lower == s.lower
  {
    hide Lowered, Raised, Weight, Reduced;
  }

  /** A move scales the measure by 53/64 or 67/64; a step down also takes the maximum a sixteenth
      towards the volume, not below the highest level, and keeps the volume as the limit of silence. */
  lemma MeasureStep(s: Levels, level: int, last: int)
    requires s.lp160 >= 0
    ensures var t, e := Adapted(s, level, last), s.lp160;
            var down, up := (e > 42440780 && s.msTooHigh + 2 > s.outer) || (s.upper < e <= 42440780 && s.msTooHigh + 2 > s.inner),
                            e <= s.upper && e <= 42440780
                            && ((e < 4244080 && s.msTooLow + 2 > s.outer) || (4244080 <= e < s.lower && s.msTooLow + 2 > s.inner));
            if down then
              && 53 * (e - 63) <= 64 * t.lp160 <= 53 * e && t.zeroCtrlMax == s.micVol
              && t.maxLevel >= s.maxAnalog
              && (t.maxLevel == s.maxAnalog || -16 < 16 * t.maxLevel - (15 * s.maxLevel + s.micVol) < 16)
              && (t.maxLevel == s.maxAnalog ==> 15 * s.maxLevel + s.micVol < 16 * s.maxAnalog + 16)
              && (e > 42440780 ==> t.activeSpeech == 0 && t.lpMax == 0)
              && (e <= 42440780 ==> t.activeSpeech == s.activeSpeech && t.lpMax == s.lpMax)
            else
              && t.maxLevel == s.maxLevel && t.zeroCtrlMax == s.zeroCtrlMax
              && t.activeSpeech == s.activeSpeech && t.lpMax == s.lpMax
              && if up then 67 * (e - 63) <= 64 * t.lp160 <= 67 * e else t.lp160 == e
  {
    hide Lowered, Raised, Weight;
  }

  // ---------- the measures ----------

  /** The short measure goes a 64th of the way to the energy of the block, the sum of the last ten
      takes in an eighth of the change. */
  lemma MeterStep(s: Levels, rxx: int)
    requires s.pos < |s.ring|
    ensures var t := Metered(s, rxx);
            && 0 <= (rxx - s.lp16) - 64 * (t.lp16 - s.lp16) < 64
            && 0 <= (rxx - s.ring[s.pos]) - 8 * (t.rxx160 - s.rxx160) < 8
            && t.ring == s.ring[s.pos := rxx] && t.pos == (if s.pos == 9 then 0 else s.pos + 1)
  {
  }

  /** The first 250 milliseconds of speech look for the greatest short measure; ten times an eighth of
      it is then the long one, which goes a 1024th of the way to the energy of the last ten blocks. */
  lemma SpeechStep(s: Levels)
    ensures var t := Spoken(s);
            && t.activeSpeech == (if s.activeSpeech <= 250 then if s.activeSpeech < 250 then s.activeSpeech + 2 else 252 else s.activeSpeech)
            && t.lpMax == (if s.activeSpeech < 250 && s.lp16 > s.lpMax then s.lp16 else s.lpMax)
            && var was := if s.activeSpeech == 250 then s.lpMax / 8 * 10 else s.lp160;
               0 <= (s.rxx160 - was) - 1024 * (t.lp160 - was) < 1024
  {
  }

  /** A block without speech only feeds the meters; one with speech steps on what they show then. */
  lemma BlockStep(x: Working, last: int, rxx: int, vadLogRatio: int)
    requires x.s.pos < |x.s.ring|
    ensures var y, t := Block(x, last, rxx, vadLogRatio), Metered(x.s, rxx);
            if vadLogRatio <= x.s.vadThreshold then y == Working(t, x.level)
            else
              && y.s == Adapted(Spoken(t), x.level, last)
              && (y.s.micVol != Spoken(t).micVol ==> y.level == y.s.micVol)
  {
    hide Lowered, Raised, Weight, Reduced, Spoken;
    SpokenOnly(Metered(x.s, rxx));
  }

  lemma SpokenOnly(s: Levels)
    ensures Spoken(s).micVol == s.micVol
  {
  }

  // ---------- a whole call ----------

  /** Not below 0.95 of the height above the minimum by more than one, unless it is the last volume
      less one. */
  predicate NotBelow(v: int, minLevel: int, level: int, num: int, step: int) {
    v >= level - step || num * (level - minLevel) < 0x8000 * (v - minLevel + 1)
  }

  /** Not above 1.55 of the height above the minimum, or by two. */
  predicate NotAbove(v: int, minLevel: int, level: int) {
    v <= Max(minLevel + 25395 * (level - minLevel) / 0x4000, level + 2)
  }

  predicate Near(v: int, minLevel: int, level: int) {
    NotBelow(v, minLevel, level, 31130, 1) && NotAbove(v, minLevel, level)
  }

  /** Inside the loop: the volume has not moved, or it has, and the timers are too low for more. */
  ghost predicate Held(x: Working, last: int, i: nat) {
    && Core(x.s) && x.s.minLevel <= last <= x.s.maxInit && last <= x.s.maxLevel
    && ((x.level == last && x.s.micVol == last)
        || (Near(x.level, x.s.minLevel, last) && Near(x.s.micVol, x.s.minLevel, last)
            && x.s.msTooHigh <= 2 * i && x.s.msTooLow <= 2 * i))
  }

  lemma LowersNotBelow(v: int, minLevel: int, level: int, num: int)
    requires LowersTo(v, minLevel, level, level, num, 1) && num >= 31130 && level >= minLevel
    ensures NotBelow(v, minLevel, level, 31130, 1)
  {
    Bounded(31130, num, level - minLevel, level - minLevel);
  }

  lemma AdaptedHeld(s: Levels, level: int, last: int, i: nat)
    requires Held(Working(s, level), last, i) && Mid(Working(s, level), last, i) && i < 5
    ensures Held(Working(Adapted(s, level, last), if Moves(s) then Adapted(s, level, last).micVol else level), last, i + 1)
  {
    hide Lowered, Raised, Weight, Reduced, LowersTo, Near, Counters, Adapted, Mid;
    AdaptedKeeps(s, level, last, i);
    AdaptedCore(s, level, last, i);
    AdaptedFrame(s, level, last);
    TimerStep(s, level, last);
    MaximumStays(s, level, last);
    if level == last && s.micVol == last {
      VolumeStep(s, level, last);
      StepHolds(s, last);
    }
  }

  lemma AdaptedCore(s: Levels, level: int, last: int, i: nat)
    requires Mid(Working(s, level), last, i) && i < 5
    ensures Core(Adapted(s, level, last)) && MSEC_SPEECH_OUTER <= s.inner && MSEC_SPEECH_OUTER <= s.outer
  {
    hide Adapted, Moves;
    AdaptedKeeps(s, level, last, i);
  }

  lemma AdaptedFrame(s: Levels, level: int, last: int)
    ensures var t := Adapted(s, level, last);
            && t.minLevel == s.minLevel && t.maxInit == s.maxInit
            && (Region(s) == 4 ==> t.micVol == level && t.msTooHigh == 0 && t.msTooLow == 0)
            && (Region(s) < 4 && !Moves(s) ==> t.micVol == s.micVol)
            && (Region(s) < 2 <==> s.lp160 > 42440780 || s.lp160 > s.upper)
            && (2 <= Region(s) < 4 <==> s.lp160 <= 42440780 && s.lp160 <= s.upper && (s.lp160 < 4244080 || s.lp160 < s.lower))
            && (Moves(s) <==>
                  if Region(s) < 2 then s.msTooHigh + 2 > (if s.lp160 > 42440780 then s.outer else s.inner)
                  else Region(s) < 4 && s.msTooLow + 2 > (if s.lp160 < 4244080 then s.outer else s.inner))
  {
    hide Lowered, Raised, Weight, Reduced;
  }

  lemma MaximumStays(s: Levels, level: int, last: int)
    requires last <= s.maxLevel && (s.micVol >= last || !Moves(s))
    ensures last <= Adapted(s, level, last).maxLevel
  {
    hide Lowered, Raised, Weight;
  }

  /** From the level the call began with. */
  lemma StepHolds(s: Levels, last: int)
    requires Core(s) && s.minLevel <= last <= s.maxInit && s.micVol == last
    ensures Near(Adapted(s, last, last).micVol, s.minLevel, last)
  {
    hide Adapted, Core, Counters;
    VolumeStep(s, last, last);
    Bounded(18432, 25395, last - s.minLevel, last - s.minLevel);
    var v := Adapted(s, last, last).micVol;
    if LowersTo(v, s.minLevel, last, last, 31130, 1) {
      LowersNotBelow(v, s.minLevel, last, 31130);
    } else if LowersTo(v, s.minLevel, last, last, 31621, 1) {
      LowersNotBelow(v, s.minLevel, last, 31621);
    }
  }

  lemma BlockHeld(x: Working, last: int, rxx: int, vadLogRatio: int, i: nat)
    requires Held(x, last, i) && Mid(x, last, i) && i < 5
    ensures Held(Block(x, last, rxx, vadLogRatio), last, i + 1)
  {
    hide Adapted, Moves, Spoken, Metered, Near, Counters;
    MeteredKeeps(x.s, rxx);
    MeteredSame(x.s, rxx);
    var t := Metered(x.s, rxx);
    SpokenKeeps(t);
    SpokenMaximum(t);
    if vadLogRatio > t.vadThreshold { AdaptedHeld(Spoken(t), x.level, last, i); }
  }

  lemma SpokenMaximum(s: Levels)
    ensures Spoken(s).maxLevel == s.maxLevel
  {
  }

  lemma {:induction false} BlocksHeld(x: Working, last: int, rxx: seq<int>, vadLogRatio: int, i: nat)
    requires Held(x, last, i) && Mid(x, last, i) && i + |rxx| == 5
    ensures |x.s.ring| == RXX_BUFFER_LEN && x.s.pos < RXX_BUFFER_LEN
    ensures Held(Blocks(x, last, rxx, vadLogRatio), last, 5)
    decreases |rxx|
  {
    hide Block, Mid, Held;
    MidCore(x, last, i);
    if rxx != [] {
      BlockHeld(x, last, rxx[0], vadLogRatio, i);
      BlockKeeps(x, last, rxx[0], vadLogRatio, i);
      BlocksHeld(Block(x, last, rxx[0], vadLogRatio), last, rxx[1..], vadLogRatio, i + 1);
    }
  }

  lemma QuietHeld(s: Levels, inMicLevel: int, x: Input)
    requires Inv(s) && Accepted(s, inMicLevel) && Envelopes(x) && !Saturated(s, x.env) && Silence(s, x.env) <= 500
    ensures Held(Prepared(s, inMicLevel, x), Adopted(s, inMicLevel), 0)
    ensures s.minLevel <= Adopted(s, inMicLevel) && Prepared(s, inMicLevel, x).s.minLevel == s.minLevel
  {
    hide Adopted, Counters, Mid, Saturated, SpeakerInactive, Prepared;
    PreparedKeeps(s, inMicLevel, x);
    MidCore(Prepared(s, inMicLevel, x), Adopted(s, inMicLevel), 0);
    PreparedSame(s, inMicLevel, x);
    AdoptKeeps(s, inMicLevel);
    QuietPrepared(s, inMicLevel, x);
    QuietLevel(s, inMicLevel, x);
    MidRange(Prepared(s, inMicLevel, x), Adopted(s, inMicLevel));
  }

  lemma MidRange(x: Working, last: int)
    requires Mid(x, last, 0)
    ensures x.s.minLevel <= last <= x.s.maxInit
  {
  }

  lemma QuietLevel(s: Levels, inMicLevel: int, x: Input)
    requires Proper(x) && !Saturated(s, x.env) && Silence(s, x.env) <= 500
    ensures Prepared(s, inMicLevel, x).level == Adopted(s, inMicLevel)
  {
    hide EnvSum, SumOf, Adopted, Lowered;
    var a := Adopt(s, inMicLevel);
    assert Saturated(a, x.env) == Saturated(s, x.env);
    assert Silence(SaturationCtrl(a, x.env), x.env) == Silence(s, x.env);
  }

  /** A call that finds no saturation and no long silence lowers the volume to 0.95 of its height above
      the minimum at most, or by one, and raises it to 1.55 of that at most, or by two. */
  lemma CallMoves(s: Levels, inMicLevel: int, x: Input)
    requires Inv(s) && Accepted(s, inMicLevel) && Envelopes(x) && !Saturated(s, x.env) && Silence(s, x.env) <= 500
    ensures |s.ring| == RXX_BUFFER_LEN && s.pos < RXX_BUFFER_LEN && s.minLevel <= Adopted(s, inMicLevel)
    ensures var v, level := Process(s, inMicLevel, x).micVol, Adopted(s, inMicLevel);
            && NotBelow(v, s.minLevel, level, 31130, 1)
            && v <= Max(s.minOutput, Max(s.minLevel + 25395 * (level - s.minLevel) / 0x4000, level + 2))
  {
    hide Prepared, Blocks, Adopted, Counters, Mid, NotBelow, Saturated, Silence;
    QuietHeld(s, inMicLevel, x);
    PreparedKeeps(s, inMicLevel, x);
    PreparedRing(s, inMicLevel, x);
    var p, last := Prepared(s, inMicLevel, x), Adopted(s, inMicLevel);
    PreparedSame(s, inMicLevel, x);
    BlocksHeld(p, last, x.rxx, x.vadLogRatio, 0);
    BlocksSame(p, last, x.rxx, x.vadLogRatio);
    LimitedNear(Blocks(p, last, x.rxx, x.vadLogRatio), last, x.echo);
  }

  lemma LimitedNear(x: Working, last: int, echo: bool)
    requires Held(x, last, 5)
    ensures var v := Limited(x.s, last, echo).micVol;
            && NotBelow(v, x.s.minLevel, last, 31130, 1)
            && v <= Max(x.s.minOutput, Max(x.s.minLevel + 25395 * (last - x.s.minLevel) / 0x4000, last + 2))
  {
    hide Counters;
  }

  // ---------- a call that finds saturation ----------

  /** The volume is not below this one, and nothing can lower it. */
  ghost predicate Floored(x: Working, last: int, low: int, i: nat) {
    && Mid(x, last, i) && low <= last <= x.s.maxLevel && low <= x.level && low <= x.s.micVol && x.s.msTooHigh <= 2 * i
  }

  lemma AdaptedFloored(s: Levels, level: int, last: int, low: int, i: nat)
    requires Floored(Working(s, level), last, low, i) && i < 5
    ensures Floored(Working(Adapted(s, level, last), if Moves(s) then Adapted(s, level, last).micVol else level), last, low, i + 1)
  {
    hide Mid, Adapted, Counters;
    AdaptedKeeps(s, level, last, i);
    AdaptedCore(s, level, last, i);
    AdaptedFrame(s, level, last);
    TimerStep(s, level, last);
    MaximumAlways(s, level, last);
    RaisedAbove(s, level, last);
  }

  lemma MaximumAlways(s: Levels, level: int, last: int)
    ensures Region(s) >= 2 || !Moves(s) ==> Adapted(s, level, last).maxLevel == s.maxLevel
  {
    hide Lowered, Raised, Weight;
  }

  lemma RaisedAbove(s: Levels, level: int, last: int)
    ensures 2 <= Region(s) < 4 && Moves(s) ==> Adapted(s, level, last).micVol > last
  {
    hide Weight;
  }

  lemma BlockFloored(x: Working, last: int, rxx: int, vadLogRatio: int, low: int, i: nat)
    requires Floored(x, last, low, i) && i < 5
    ensures Floored(Block(x, last, rxx, vadLogRatio), last, low, i + 1)
  {
    hide Adapted, Moves, Spoken, Metered, Counters;
    BlockKeeps(x, last, rxx, vadLogRatio, i);
    MeteredKeeps(x.s, rxx);
    MeteredSame(x.s, rxx);
    var t := Metered(x.s, rxx);
    SpokenKeeps(t);
    SpokenMaximum(t);
    if vadLogRatio > t.vadThreshold { AdaptedFloored(Spoken(t), x.level, last, low, i); }
  }

  lemma {:induction false} BlocksFloored(x: Working, last: int, rxx: seq<int>, vadLogRatio: int, low: int, i: nat)
    requires Floored(x, last, low, i) && i + |rxx| == 5
    ensures |x.s.ring| == RXX_BUFFER_LEN && x.s.pos < RXX_BUFFER_LEN
    ensures Floored(Blocks(x, last, rxx, vadLogRatio), last, low, 5)
    decreases |rxx|
  {
    hide Block, Mid;
    MidCore(x, last, i);
    if rxx != [] {
      BlockFloored(x, last, rxx[0], vadLogRatio, low, i);
      BlocksFloored(Block(x, last, rxx[0], vadLogRatio), last, rxx[1..], vadLogRatio, low, i + 1);
    }
  }

  lemma SaturatedPrepared(s: Levels, inMicLevel: int, x: Input)
    requires Inv(s) && Accepted(s, inMicLevel) && Envelopes(x) && Saturated(s, x.env)
    ensures var p, last := Prepared(s, inMicLevel, x), Adopted(s, inMicLevel);
            && s.minLevel <= last && p.level == p.s.micVol && p.s.msTooHigh == -100 && p.s.maxLevel >= last
            && LowersTo(p.level, s.minLevel, last, last, 29591, 2)
  {
    hide EnvSum, SumOf, Adopted, Lowered, Counters, Saturated, Silence, SaturationCtrl, LowersTo;
    AdoptKeeps(s, inMicLevel);
    var a := Adopt(s, inMicLevel);
    SaturationSame(a, x.env);
    SameSaturation(s, a, x.env);
    var c := Saturate(SaturationCtrl(a, x.env), a.micVol);
    NotSilent(a, c, x);
    CoreRange(a);
    LoweredIs(29591, a.micVol, a.minLevel, a.micVol, 2);
  }

  lemma SameSaturation(s: Levels, t: Levels, env: seq<int>)
    requires |env| == 10 && s.envSum == t.envSum
    ensures Saturated(s, env) == Saturated(t, env)
  {
    hide EnvSum;
  }

  /** A call that finds saturation lowers the volume to 0.903 of its height above the minimum at most,
      or by two. */
  lemma SaturatedMoves(s: Levels, inMicLevel: int, x: Input)
    requires Inv(s) && Accepted(s, inMicLevel) && Envelopes(x) && Saturated(s, x.env)
    ensures |s.ring| == RXX_BUFFER_LEN && s.pos < RXX_BUFFER_LEN && s.minLevel <= Adopted(s, inMicLevel)
    ensures NotBelow(Process(s, inMicLevel, x).micVol, s.minLevel, Adopted(s, inMicLevel), 29591, 2)
  {
    hide Prepared, Blocks, Adopted, Counters, Mid, Saturated, Silence;
    SaturatedPrepared(s, inMicLevel, x);
    PreparedKeeps(s, inMicLevel, x);
    PreparedRing(s, inMicLevel, x);
    var p, last := Prepared(s, inMicLevel, x), Adopted(s, inMicLevel);
    BlocksFloored(p, last, x.rxx, x.vadLogRatio, p.level, 0);
    LimitedFloored(Blocks(p, last, x.rxx, x.vadLogRatio), last, p.level, x.echo);
  }

  lemma LimitedFloored(x: Working, last: int, low: int, echo: bool)
    requires Floored(x, last, low, 5)
    ensures Limited(x.s, last, echo).micVol >= low
  {
    hide Counters;
  }
}
