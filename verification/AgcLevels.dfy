/** The level control of `WebRtcAgc_ProcessAnalog` in `gbcom_common/agc/agc.c`, as functions of the
    state, and what every run of it keeps. */
module AgcLevels {

  // ---------- machine arithmetic ----------

  /** Conversion to 16 bits with sign. */
  function ToInt16(x: int): (r: int)
    ensures -0x8000 <= r < 0x8000
    ensures -0x8000 <= x < 0x8000 ==> r == x
  {
    (x + 0x8000) % 0x1_0000 - 0x8000
  }

  /** Conversion to 32 bits without sign. */
  function U32(x: int): (r: nat)
    ensures r < 0x1_0000_0000
  {
    x % 0x1_0000_0000
  }

  /** Division as C has it: towards zero. */
  function Quot(x: int, d: int): int
    requires d > 0
  {
    if x >= 0 then x / d else -((-x) / d)
  }

  function Max(x: int, y: int): int { if x > y then x else y }

  function Min(x: int, y: int): int { if x < y then x else y }

  // ---------- constants ----------

  const ADAPTIVE_ANALOG := 1
  const ADAPTIVE_DIGITAL := 2
  const FIXED_DIGITAL := 3
  const MSEC_SPEECH_INNER := 520
  const MSEC_SPEECH_OUTER := 340
  const MUTE_GUARD_TIME_MS := 8000
  const RXX_BUFFER_LEN := 10

  /** Ten times the entries 15, 18, 19, 20, 21, 22 and 25 of the table of target levels. */
  const UPPER_SECONDARY := 42440780
  const UPPER_PRIMARY := 21270780
  const START_UPPER := 16895980
  const ANALOG_TARGET_LEVEL := 13420950
  const START_LOWER := 10660640
  const LOWER_PRIMARY := 8468050
  const LOWER_SECONDARY := 4244080

  const SLOPE1 := [21793, 12517, 7189, 4129, 2372, 1362, 472, 78]
  const OFFSET1 := [25395, 23911, 22206, 20737, 19612, 18805, 17951, 17367]
  const SLOPE2 := [2063, 1731, 1452, 1218, 1021, 857, 597, 337]
  const OFFSET2 := [18432, 18379, 18290, 18177, 18052, 17920, 17670, 17286]

  // ---------- the state ----------

  datatype Levels = Levels(
    minLevel: int, maxAnalog: int, maxInit: int, minOutput: int, agcMode: int,
    maxLevel: int, micVol: int, zeroCtrlMax: int, lastInMicLevel: int, firstCall: bool,
    envSum: int, msZero: int, muteGuardMs: int, activeSpeech: int, lpMax: int, vadThreshold: int,
    rxx160: int, ring: seq<int>, pos: nat, lp16: int, lp160: int,
    msTooHigh: int, msTooLow: int, slow: int, inner: int, outer: int, upper: int, lower: int)

  /** What holds between two calls. */
  ghost predicate Inv(s: Levels) {
    Core(s) && s.minLevel <= s.micVol <= s.maxLevel
  }

  /** What holds inside a call, too: the levels keep their order and no counter leaves its type. */
  ghost predicate Core(s: Levels) {
    && 0 <= s.minLevel < s.maxAnalog < 0x8000
    && s.maxInit == s.maxAnalog + (s.maxAnalog - s.minLevel) / 4
    && s.minOutput == s.minLevel + (s.maxInit - s.minLevel) * 10 / 256
    && s.maxAnalog <= s.maxLevel <= s.maxInit
    && s.minLevel - 3 <= s.zeroCtrlMax <= s.maxInit
    && (s.agcMode == ADAPTIVE_DIGITAL ==> s.minLevel == 0 && s.maxAnalog == 255)
    && |s.ring| == RXX_BUFFER_LEN && s.pos < RXX_BUFFER_LEN
    && Counters(s)
  }

  ghost predicate Counters(s: Levels) {
    && MSEC_SPEECH_OUTER <= s.inner <= 1000 && MSEC_SPEECH_OUTER <= s.outer <= 500
    && -100 <= s.msTooHigh <= 1000 && 0 <= s.msTooLow <= 1000 && 0 <= s.slow <= 4002
    && 0 <= s.activeSpeech <= 252 && 0 <= s.msZero <= 500 && 0 <= s.muteGuardMs <= MUTE_GUARD_TIME_MS
    && s.muteGuardMs % 10 == 0 && -0x8000 <= s.envSum <= 25000
  }

  lemma OutputBounds(s: Levels)
    requires Core(s)
    ensures s.minLevel <= s.minOutput <= s.maxAnalog
  {
  }

  /** The state `WebRtcAgc_Init` sets up. */
  function Initial(minLevel: int, maxLevel: int, mode: int): Levels {
    var min, max := if mode == ADAPTIVE_DIGITAL then 0 else minLevel, if mode == ADAPTIVE_DIGITAL then 255 else maxLevel;
    var top := max + Quot(max - min, 4);
    Levels(min, max, top, min + (top - min) * 10 / 256, mode,
           top, if mode == ADAPTIVE_DIGITAL then 127 else max, max, 0, false,
           0, 0, 0, 0, 0, 400,
           125 * RXX_BUFFER_LEN, [1000, 1000, 1000, 1000, 1000, 1000, 1000, 1000, 1000, 1000], 0, 16284, ANALOG_TARGET_LEVEL,
           0, 0, 0, MSEC_SPEECH_INNER, MSEC_SPEECH_OUTER, START_UPPER, START_LOWER)
  }

  lemma InitialInv(minLevel: int, maxLevel: int, mode: int)
    requires 0 <= minLevel < maxLevel < 0x8000
    ensures Inv(Initial(minLevel, maxLevel, mode))
  {
  }

  // ---------- the level of the caller ----------

  function StartVolume(s: Levels): int {
    s.minLevel + (s.maxLevel - s.minLevel) * 51 / 512
  }

  /** The level the call works with, out of the one the caller reports. */
  function Adopted(s: Levels, inMicLevel: int): int {
    var a := if !s.firstCall && inMicLevel < StartVolume(s) && s.agcMode == ADAPTIVE_ANALOG then StartVolume(s) else inMicLevel;
    var vol := if s.firstCall then s.micVol else a;
    var b := if a == s.maxAnalog && vol > s.maxAnalog then vol else a;
    if b == vol then b
    else if b < s.minOutput then StartVolume(s)
    else if inMicLevel == s.lastInMicLevel then vol
    else b
  }

  function Adopt(s: Levels, inMicLevel: int): Levels {
    var level := Adopted(s, inMicLevel);
    s.(firstCall := true, micVol := level, maxLevel := Max(s.maxLevel, level), lastInMicLevel := inMicLevel)
  }

  /** The branch that raises `maxLevel` to a level above it is never taken. */
  lemma AdoptKeeps(s: Levels, inMicLevel: int)
    requires Inv(s) && s.minLevel <= inMicLevel <= s.maxAnalog
    ensures Inv(Adopt(s, inMicLevel)) && Adopt(s, inMicLevel).maxLevel == s.maxLevel
  {
    assert s.minLevel <= StartVolume(s) <= s.maxLevel;
  }

  // ---------- saturation ----------

  /** The loud envelopes of the first i subframes, added up in 16 bits. */
  function EnvSum(sum: int, env: seq<int>, i: nat): int
    requires i <= |env|
  {
    if i == 0 then sum
    else
      var before := EnvSum(sum, env, i - 1);
      var loud := ToInt16(env[i - 1] / 0x10_0000);
      if loud > 875 then ToInt16(before + loud) else before
  }

  predicate Saturated(s: Levels, env: seq<int>) {
    |env| >= 10 && EnvSum(s.envSum, env, 10) > 25000
  }

  function SaturationCtrl(s: Levels, env: seq<int>): Levels
    requires |env| == 10
  {
    var sum := if Saturated(s, env) then 0 else EnvSum(s.envSum, env, 10);
    s.(envSum := ToInt16(sum * 32440 / 0x8000))
  }

  /** A part of the level above the minimum, but at least `step` below the last volume. */
  function Lowered(factor: nat, level: int, minLevel: int, last: int, step: int): int {
    Min(U32(factor * U32(level - minLevel)) / 0x8000 + minLevel, last - step)
  }

  /** The volume after a saturated frame, with the counters reset. */
  function Saturate(s: Levels, last: int): Levels {
    s.(lp160 := Quot(s.lp160, 8) * 7, zeroCtrlMax := s.micVol,
       micVol := Lowered(29591, s.micVol, s.minLevel, last, 2), msTooHigh := -100, activeSpeech := 0, lpMax := 0,
       inner := MSEC_SPEECH_INNER, outer := MSEC_SPEECH_OUTER, slow := 0, muteGuardMs := 0,
       upper := START_UPPER, lower := START_LOWER)
  }

  // ---------- silence ----------

  function SumOf(env: seq<int>): int {
    if env == [] then 0 else SumOf(env[..|env| - 1]) + env[|env| - 1]
  }

  function Silence(s: Levels, env: seq<int>): int {
    if SumOf(env) < 500 then s.msZero + 10 else 0
  }

  /** The level after `WebRtcAgc_ZeroCtrl`. */
  function ZeroLevel(s: Levels, level: int, env: seq<int>): int {
    if Silence(s, env) > 500 && level < Quot(s.maxAnalog + s.minLevel + 1, 2)
    then Min(1126 * level / 0x400, s.zeroCtrlMax) else level
  }

  function ZeroCtrl(s: Levels, level: int, env: seq<int>): Levels {
    var guard := if s.muteGuardMs > 0 then s.muteGuardMs - 10 else s.muteGuardMs;
    var ms := Silence(s, env);
    if ms > 500 then
      s.(msZero := 0, muteGuardMs := MUTE_GUARD_TIME_MS, activeSpeech := 0, lpMax := 0,
         micVol := if level < Quot(s.maxAnalog + s.minLevel + 1, 2) then ZeroLevel(s, level, env) else s.micVol)
    else s.(msZero := ms, muteGuardMs := guard)
  }

  /** `WebRtcAgc_SpeakerInactiveCtrl`. */
  function SpeakerInactive(s: Levels, stdLongTerm: int): Levels {
    if stdLongTerm < 2500 then s.(vadThreshold := 1500)
    else
      var thresh := 400 + (if stdLongTerm < 4500 then Quot(4500 - stdLongTerm, 2) else 0);
      s.(vadThreshold := ToInt16((thresh + 31 * s.vadThreshold) / 32))
  }

  // ---------- one block of samples ----------

  /** The energy of one more block goes into the running averages. */
  function Metered(s: Levels, rxx: int): Levels
    requires s.pos < |s.ring|
  {
    s.(rxx160 := s.rxx160 + (rxx - s.ring[s.pos]) / 8, ring := s.ring[s.pos := rxx],
       pos := if s.pos + 1 == RXX_BUFFER_LEN then 0 else s.pos + 1, lp16 := s.lp16 + (rxx - s.lp16) / 64)
  }

  function Spoken(s: Levels): Levels {
    var t := if s.activeSpeech < 250 then s.(activeSpeech := s.activeSpeech + 2, lpMax := Max(s.lpMax, s.lp16))
             else if s.activeSpeech == 250 then s.(activeSpeech := 252, lp160 := s.lpMax / 8 * RXX_BUFFER_LEN)
             else s;
    t.(lp160 := t.lp160 + (t.rxx160 - t.lp160) / 0x400)
  }

  /** `WebRtcAgc_ExpCurve`. */
  function ExpCurve(volume: int): (index: nat)
    ensures index < 8
  {
    if volume > 5243 then
      if volume > 7864 then (if volume > 12124 then 7 else 6) else (if volume > 6554 then 5 else 4)
    else if volume > 2621 then (if volume > 3932 then 3 else 2)
    else (if volume > 1311 then 1 else 0)
  }

  function Weight(s: Levels, level: int, offset: seq<int>, slope: seq<int>): int
    requires |offset| == 8 && |slope| == 8
  {
    var volNorm := if s.maxInit > s.minLevel
                   then ToInt16(Quot((level - s.minLevel) * 0x4000, s.maxInit - s.minLevel)) else 0x4000;
    ToInt16(offset[ExpCurve(volNorm)] - ToInt16(slope[ExpCurve(volNorm)] * volNorm / 0x2000))
  }

  /** A multiple of the level above the minimum, but at least `step` above the last volume. */
  function Raised(weight: int, level: int, minLevel: int, last: int, step: int): int {
    Max(U32(U32(weight) * U32(level - minLevel)) / 0x4000 + minLevel, last + step)
  }

  /** The maximum after the volume was found too high. */
  function Reduced(s: Levels): int {
    Max(Quot(15 * s.maxLevel + s.micVol, 16), s.maxAnalog)
  }

  /** Where the long-term energy lies with regard to the four limits. */
  function Region(s: Levels): (r: nat)
    ensures r < 5
  {
    if s.lp160 > UPPER_SECONDARY then 0
    else if s.lp160 > s.upper then 1
    else if s.lp160 < LOWER_SECONDARY then 2
    else if s.lp160 < s.lower then 3
    else 4
  }

  /** The volume is lowered when the level was too high long enough. */
  function TooHigh(s: Levels, level: int, last: int, far: bool): Levels {
    var t := s.(msTooHigh := s.msTooHigh + 2, msTooLow := 0, slow := 0);
    if t.msTooHigh <= (if far then t.outer else t.inner) then t
    else if far then
      t.(msTooHigh := 0, lp160 := t.lp160 / 64 * 53, maxLevel := Reduced(t), zeroCtrlMax := t.micVol,
         micVol := Lowered(31130, level, t.minLevel, last, 1), activeSpeech := 0, lpMax := 0)
    else
      t.(msTooHigh := 0, lp160 := Quot(t.lp160, 64) * 53, maxLevel := Reduced(t), zeroCtrlMax := t.micVol,
         micVol := Lowered(31621, level, t.minLevel, last, 1))
  }

  /** The volume is raised when the level was too low long enough. */
  function TooLow(s: Levels, level: int, last: int, far: bool): Levels {
    var t := s.(msTooHigh := 0, msTooLow := s.msTooLow + 2, slow := 0);
    if t.msTooLow <= (if far then t.outer else t.inner) then t
    else if far then
      t.(msTooLow := 0, lp160 := Quot(t.lp160, 64) * 67,
         micVol := Raised(Weight(t, level, OFFSET1, SLOPE1), level, t.minLevel, last, 2))
    else
      t.(msTooLow := 0, lp160 := Quot(t.lp160, 64) * 67,
         micVol := Raised(Weight(t, level, OFFSET2, SLOPE2), level, t.minLevel, last, 1))
  }

  function InRange(s: Levels, level: int): Levels {
    var t := s.(msTooLow := 0, msTooHigh := 0, micVol := level);
    if s.slow > 4000 then t.(inner := 1000, outer := 500, upper := UPPER_PRIMARY, lower := LOWER_PRIMARY)
    else t.(slow := s.slow + 2)
  }

  function Adapted(s: Levels, level: int, last: int): Levels {
    var r := Region(s);
    if r < 2 then TooHigh(s, level, last, r == 0)
    else if r < 4 then TooLow(s, level, last, r == 2)
    else InRange(s, level)
  }

  /** Whether this block changes the volume, so that the level follows it. */
  predicate Moves(s: Levels) {
    var r := Region(s);
    if r < 2 then s.msTooHigh + 2 > (if r == 0 then s.outer else s.inner)
    else r < 4 && s.msTooLow + 2 > (if r == 2 then s.outer else s.inner)
  }

  /** The state and the working level inside a call. */
  datatype Working = Working(s: Levels, level: int)

  function Block(x: Working, last: int, rxx: int, vadLogRatio: int): Working
    requires x.s.pos < |x.s.ring|
  {
    var t := Metered(x.s, rxx);
    if vadLogRatio <= t.vadThreshold then Working(t, x.level)
    else
      var u := Spoken(t);
      var v := Adapted(u, x.level, last);
      Working(v, if Moves(u) then v.micVol else x.level)
  }

  function Blocks(x: Working, last: int, rxx: seq<int>, vadLogRatio: int): Working
    requires |x.s.ring| == RXX_BUFFER_LEN && x.s.pos < RXX_BUFFER_LEN
    decreases |rxx|
  {
    if rxx == [] then x
    else
      BlockRing(x, last, rxx[0], vadLogRatio);
      Blocks(Block(x, last, rxx[0], vadLogRatio), last, rxx[1..], vadLogRatio)
  }

  lemma BlockRing(x: Working, last: int, rxx: int, vadLogRatio: int)
    requires |x.s.ring| == RXX_BUFFER_LEN && x.s.pos < RXX_BUFFER_LEN
    ensures var y := Block(x, last, rxx, vadLogRatio); |y.s.ring| == RXX_BUFFER_LEN && y.s.pos < RXX_BUFFER_LEN
  {
  }

  // ---------- the whole call ----------

  /** What one call is given besides the level: the envelopes and energies of the oldest frame in
      the queue, and what the voice activity detector found. */
  datatype Input = Input(env: seq<int>, rxx: seq<int>, stdLongTerm: int, vadLogRatio: int, echo: bool)

  predicate Proper(x: Input) {
    |x.env| == 10 && |x.rxx| == 5
  }

  predicate Accepted(s: Levels, inMicLevel: int) {
    s.minLevel <= inMicLevel <= s.maxAnalog
  }

  /** Until the blocks are looked at. */
  function Prepared(s: Levels, inMicLevel: int, x: Input): Working
    requires Proper(x)
  {
    var a := Adopt(s, inMicLevel);
    var b := SaturationCtrl(a, x.env);
    var c := if Saturated(a, x.env) then Saturate(b, a.micVol) else b;
    Working(SpeakerInactive(ZeroCtrl(c, c.micVol, x.env), x.stdLongTerm), ZeroLevel(c, c.micVol, x.env))
  }

  /** The volume is not raised while there is echo or the sound was just muted, and stays inside
      its limits. */
  function Limited(s: Levels, last: int, echo: bool): Levels {
    var v := if echo || 0 < s.muteGuardMs < MUTE_GUARD_TIME_MS then Min(s.micVol, last) else s.micVol;
    s.(micVol := if v > s.maxLevel then s.maxLevel else if v < s.minOutput then s.minOutput else v)
  }

  function Process(s: Levels, inMicLevel: int, x: Input): Levels
    requires Proper(x) && |s.ring| == RXX_BUFFER_LEN && s.pos < RXX_BUFFER_LEN
  {
    var last := Adopted(s, inMicLevel);
    PreparedRing(s, inMicLevel, x);
    Limited(Blocks(Prepared(s, inMicLevel, x), last, x.rxx, x.vadLogRatio).s, last, x.echo)
  }

  lemma PreparedRing(s: Levels, inMicLevel: int, x: Input)
    requires Proper(x)
    ensures Prepared(s, inMicLevel, x).s.ring == s.ring && Prepared(s, inMicLevel, x).s.pos == s.pos
  {
    hide EnvSum, ZeroLevel, Silence, Adopted, Lowered;
  }

  /** The level the caller is told to set. */
  function OutLevel(s: Levels): int {
    Min(s.micVol, s.maxAnalog)
  }

  // ---------- what a call keeps ----------

  /** Inside the loop over the blocks: before the volume was raised it is below the initial maximum,
      and after that both timers are too low to change it again. */
  ghost predicate Mid(x: Working, last: int, i: nat) {
    && Core(x.s) && x.s.minLevel <= last <= x.s.maxInit
    && x.s.minLevel - 3 <= x.level && x.s.minLevel - 3 <= x.s.micVol
    && ((x.level <= x.s.maxInit && x.s.micVol <= x.s.maxInit) || (x.s.msTooHigh <= 2 * i && x.s.msTooLow <= 2 * i))
  }

  lemma LoweredBounds(factor: nat, level: int, minLevel: int, last: int, step: int)
    requires 0 < step <= 2 && minLevel <= last
    ensures minLevel - 2 <= Lowered(factor, level, minLevel, last, step) <= last - step
  {
  }

  lemma RaisedBounds(weight: int, level: int, minLevel: int, last: int, step: int)
    ensures Raised(weight, level, minLevel, last, step) >= last + step
  {
  }

  lemma ReducedBounds(s: Levels)
    requires Core(s) && s.minLevel - 3 <= s.micVol <= s.maxInit
    ensures s.maxAnalog <= Reduced(s) <= s.maxInit
  {
  }

  lemma MeteredKeeps(s: Levels, rxx: int)
    requires Core(s)
    ensures Core(Metered(s, rxx))
  {
  }

  lemma SpokenKeeps(s: Levels)
    requires Core(s)
    ensures Core(Spoken(s)) && Spoken(s).micVol == s.micVol && Spoken(s).minLevel == s.minLevel && Spoken(s).maxInit == s.maxInit
    ensures Spoken(s).msTooHigh == s.msTooHigh && Spoken(s).msTooLow == s.msTooLow
  {
  }

  /** Too high for long enough: the volume and its maximum go down. */
  lemma TooHighKeeps(s: Levels, level: int, last: int, far: bool, i: nat)
    requires Mid(Working(s, level), last, i) && i < 5
    ensures var t := TooHigh(s, level, last, far);
            Mid(Working(t, if s.msTooHigh + 2 > (if far then s.outer else s.inner) then t.micVol else level), last, i + 1)
  {
    hide Lowered, Reduced;
    LoweredBounds(31130, level, s.minLevel, last, 1);
    LoweredBounds(31621, level, s.minLevel, last, 1);
    var t := s.(msTooHigh := s.msTooHigh + 2, msTooLow := 0, slow := 0);
    if s.msTooHigh + 2 > (if far then s.outer else s.inner) {
      ReducedSame(s, t);
      ReducedBounds(s);
    }
  }

  lemma ReducedSame(s: Levels, t: Levels)
    requires t == s.(msTooHigh := t.msTooHigh, msTooLow := t.msTooLow, slow := t.slow)
    ensures Reduced(s) == Reduced(t)
  {
  }

  lemma TooLowKeeps(s: Levels, level: int, last: int, far: bool, i: nat)
    requires Mid(Working(s, level), last, i) && i < 5
    ensures var t := TooLow(s, level, last, far);
            Mid(Working(t, if s.msTooLow + 2 > (if far then s.outer else s.inner) then t.micVol else level), last, i + 1)
  {
    hide Raised, Weight;
    var t := s.(msTooHigh := 0, msTooLow := s.msTooLow + 2, slow := 0);
    RaisedBounds(Weight(t, level, OFFSET1, SLOPE1), level, s.minLevel, last, 2);
    RaisedBounds(Weight(t, level, OFFSET2, SLOPE2), level, s.minLevel, last, 1);
  }

  lemma InRangeKeeps(s: Levels, level: int, last: int, i: nat)
    requires Mid(Working(s, level), last, i) && i < 5
    ensures Mid(Working(InRange(s, level), level), last, i + 1)
  {
  }

  lemma AdaptedKeeps(s: Levels, level: int, last: int, i: nat)
    requires Mid(Working(s, level), last, i) && i < 5
    ensures Mid(Working(Adapted(s, level, last), if Moves(s) then Adapted(s, level, last).micVol else level), last, i + 1)
  {
    hide Mid, TooHigh, TooLow, InRange, Region;
    var r := Region(s);
    if r < 2 {
      TooHighKeeps(s, level, last, r == 0, i);
    } else if r < 4 {
      TooLowKeeps(s, level, last, r == 2, i);
    } else {
      InRangeKeeps(s, level, last, i);
    }
  }

  lemma BlockKeeps(x: Working, last: int, rxx: int, vadLogRatio: int, i: nat)
    requires Mid(x, last, i) && i < 5
    ensures Mid(Block(x, last, rxx, vadLogRatio), last, i + 1)
  {
    hide Counters, Adapted, Moves, Spoken, Metered;
    MeteredKeeps(x.s, rxx);
    MeteredSame(x.s, rxx);
    var t := Metered(x.s, rxx);
    if vadLogRatio > t.vadThreshold {
      SpokenKeeps(t);
      AdaptedKeeps(Spoken(t), x.level, last, i);
    }
  }

  lemma MeteredSame(s: Levels, rxx: int)
    requires Core(s)
    ensures var t := Metered(s, rxx);
            t == s.(rxx160 := t.rxx160, ring := t.ring, pos := t.pos, lp16 := t.lp16)
  {
  }

  lemma {:induction false} BlocksKeep(x: Working, last: int, rxx: seq<int>, vadLogRatio: int, i: nat)
    requires Mid(x, last, i) && i + |rxx| == 5
    ensures |x.s.ring| == RXX_BUFFER_LEN && x.s.pos < RXX_BUFFER_LEN
    ensures Mid(Blocks(x, last, rxx, vadLogRatio), last, 5)
    decreases |rxx|
  {
    hide Block, Counters;
    if rxx != [] {
      BlockKeeps(x, last, rxx[0], vadLogRatio, i);
      BlocksKeep(Block(x, last, rxx[0], vadLogRatio), last, rxx[1..], vadLogRatio, i + 1);
    }
  }

  lemma SaturateKeeps(s: Levels)
    requires Inv(s)
    ensures Mid(Working(Saturate(s, s.micVol), Saturate(s, s.micVol).micVol), s.micVol, 0)
  {
    hide Lowered;
    LoweredBounds(29591, s.micVol, s.minLevel, s.micVol, 2);
  }

  lemma ZeroKeeps(s: Levels, last: int, env: seq<int>)
    requires Mid(Working(s, s.micVol), last, 0) && s.micVol <= s.maxInit
    requires Silence(s, env) > 500 ==> s.micVol >= s.minLevel
    ensures Mid(Working(ZeroCtrl(s, s.micVol, env), ZeroLevel(s, s.micVol, env)), last, 0)
  {
    hide SumOf;
  }

  lemma InactiveKeeps(x: Working, last: int, stdLongTerm: int)
    requires Mid(x, last, 0)
    ensures Mid(x.(s := SpeakerInactive(x.s, stdLongTerm)), last, 0)
  {
  }

  /** A saturated frame is not silent. */
  lemma {:induction false} LoudOrQuiet(sum: int, env: seq<int>, i: nat)
    requires i <= |env| && -0x8000 <= sum <= 25000
    requires (forall k :: 0 <= k < |env| ==> 0 <= env[k] <= 0x4000_0000) && EnvSum(sum, env, i) > 25000
    ensures exists k :: 0 <= k < i && env[k] >= 500
  {
    if i > 0 {
      var before := EnvSum(sum, env, i - 1);
      if before > 25000 {
        LoudOrQuiet(sum, env, i - 1);
      } else {
        assert env[i - 1] >= 500;
      }
    }
  }

  lemma {:induction false} SumAtLeast(env: seq<int>, k: nat)
    requires k < |env| && forall j :: 0 <= j < |env| ==> 0 <= env[j]
    ensures SumOf(env) >= env[k]
  {
    if k < |env| - 1 {
      SumAtLeast(env[..|env| - 1], k);
    } else {
      SumNonNegative(env[..|env| - 1]);
    }
  }

  lemma {:induction false} SumNonNegative(env: seq<int>)
    requires forall j :: 0 <= j < |env| ==> 0 <= env[j]
    ensures SumOf(env) >= 0
  {
    if env != [] { SumNonNegative(env[..|env| - 1]); }
  }

  /** The microphone's envelopes: squares of 16-bit samples. */
  ghost predicate Envelopes(x: Input) {
    Proper(x) && forall k :: 0 <= k < 10 ==> 0 <= x.env[k] <= 0x4000_0000
  }

  lemma SumRange(sum: int, env: seq<int>, i: nat)
    requires i <= |env| && -0x8000 <= sum < 0x8000
    ensures -0x8000 <= EnvSum(sum, env, i) < 0x8000
  {
    if i > 0 { SumRange(sum, env, i - 1); }
  }

  lemma SaturationSame(s: Levels, env: seq<int>)
    requires |env| == 10
    ensures SaturationCtrl(s, env) == s.(envSum := SaturationCtrl(s, env).envSum)
    ensures Core(s) ==> Core(SaturationCtrl(s, env))
  {
    hide EnvSum;
    if Core(s) { SumRange(s.envSum, env, 10); }
  }

  /** A frame loud enough to be found saturated ends any count of silence. */
  lemma NotSilent(s: Levels, c: Levels, x: Input)
    requires Core(s) && Envelopes(x) && Saturated(s, x.env)
    ensures Silence(c, x.env) == 0
  {
    hide Core;
    LoudFrame(s, x);
  }

  lemma LoudFrame(s: Levels, x: Input)
    requires Core(s) && Envelopes(x) && Saturated(s, x.env)
    ensures SumOf(x.env) >= 500
  {
    LoudOrQuiet(s.envSum, x.env, 10);
    var k: nat :| k < 10 && x.env[k] >= 500;
    SumAtLeast(x.env, k);
  }

  lemma PreparedKeeps(s: Levels, inMicLevel: int, x: Input)
    requires Inv(s) && Accepted(s, inMicLevel) && Envelopes(x)
    ensures Mid(Prepared(s, inMicLevel, x), Adopted(s, inMicLevel), 0)
  {
    hide EnvSum, Adopted, Saturated, SaturationCtrl, Saturate, ZeroCtrl, ZeroLevel, SpeakerInactive, Silence, Counters;
    var a := Adopt(s, inMicLevel);
    AdoptKeeps(s, inMicLevel);
    SaturationSame(a, x.env);
    var b := SaturationCtrl(a, x.env);
    var last := a.micVol;
    if Saturated(a, x.env) {
      SaturateKeeps(b);
      NotSilent(a, Saturate(b, last), x);
    }
    var c := if Saturated(a, x.env) then Saturate(b, last) else b;
    SaturateBelow(b);
    ZeroKeeps(c, last, x.env);
    InactiveKeeps(Working(ZeroCtrl(c, c.micVol, x.env), ZeroLevel(c, c.micVol, x.env)), last, x.stdLongTerm);
  }

  lemma SaturateBelow(s: Levels)
    requires Inv(s)
    ensures Saturate(s, s.micVol).micVol <= s.micVol && Saturate(s, s.micVol).maxInit == s.maxInit
  {
    hide Lowered;
    LoweredBounds(29591, s.micVol, s.minLevel, s.micVol, 2);
  }

  /** Every accepted call ends with the volume between the least output and the maximum, and tells
      the caller a level it can set. */
  lemma ProcessKeeps(s: Levels, inMicLevel: int, x: Input)
    requires Inv(s) && Accepted(s, inMicLevel) && Envelopes(x)
    ensures |s.ring| == RXX_BUFFER_LEN && s.pos < RXX_BUFFER_LEN
    ensures var t := Process(s, inMicLevel, x);
            Inv(t) && t.minOutput <= t.micVol <= t.maxLevel && t.minOutput <= OutLevel(t) <= t.maxAnalog
  {
    hide Prepared, Blocks, Adopted, Counters;
    PreparedKeeps(s, inMicLevel, x);
    var last := Adopted(s, inMicLevel);
    PreparedRing(s, inMicLevel, x);
    BlocksKeep(Prepared(s, inMicLevel, x), last, x.rxx, x.vadLogRatio, 0);
    LimitedKeeps(Blocks(Prepared(s, inMicLevel, x), last, x.rxx, x.vadLogRatio).s, last, x.echo);
  }

  lemma LimitedKeeps(s: Levels, last: int, echo: bool)
    requires Core(s)
    ensures var t := Limited(s, last, echo);
            Inv(t) && t.minOutput <= t.micVol <= t.maxLevel && t.minOutput <= OutLevel(t) <= t.maxAnalog
  {
    OutputBounds(s);
  }

  /** With echo the volume is never raised above the level the call started from. */
  lemma EchoHolds(s: Levels, inMicLevel: int, x: Input)
    requires Inv(s) && Accepted(s, inMicLevel) && Envelopes(x) && x.echo
    ensures |s.ring| == RXX_BUFFER_LEN && s.pos < RXX_BUFFER_LEN
    ensures Process(s, inMicLevel, x).micVol <= Max(Adopted(s, inMicLevel), s.minOutput)
  {
    hide Prepared, Blocks, Adopted, Counters;
    PreparedKeeps(s, inMicLevel, x);
    var last := Adopted(s, inMicLevel);
    PreparedRing(s, inMicLevel, x);
    BlocksKeep(Prepared(s, inMicLevel, x), last, x.rxx, x.vadLogRatio, 0);
    PreparedSame(s, inMicLevel, x);
    BlocksSame(Prepared(s, inMicLevel, x), last, x.rxx, x.vadLogRatio);
    OutputBounds(Blocks(Prepared(s, inMicLevel, x), last, x.rxx, x.vadLogRatio).s);
  }

  /** The limits set up by `WebRtcAgc_Init` never change. */
  lemma PreparedSame(s: Levels, inMicLevel: int, x: Input)
    requires Proper(x)
    ensures Prepared(s, inMicLevel, x).s.minOutput == s.minOutput && Prepared(s, inMicLevel, x).s.maxAnalog == s.maxAnalog
    ensures Prepared(s, inMicLevel, x).s.minLevel == s.minLevel && Prepared(s, inMicLevel, x).s.maxInit == s.maxInit
    ensures Prepared(s, inMicLevel, x).s.firstCall
  {
    hide EnvSum, ZeroLevel, Silence, Adopted, Lowered;
  }

  lemma {:induction false} BlocksSame(x: Working, last: int, rxx: seq<int>, vadLogRatio: int)
    requires |x.s.ring| == RXX_BUFFER_LEN && x.s.pos < RXX_BUFFER_LEN
    ensures Blocks(x, last, rxx, vadLogRatio).s.minOutput == x.s.minOutput
    ensures Blocks(x, last, rxx, vadLogRatio).s.maxAnalog == x.s.maxAnalog
    ensures Blocks(x, last, rxx, vadLogRatio).s.minLevel == x.s.minLevel
    ensures Blocks(x, last, rxx, vadLogRatio).s.firstCall == x.s.firstCall
    decreases |rxx|
  {
    hide Block;
    if rxx != [] {
      BlockRing(x, last, rxx[0], vadLogRatio);
      BlockSame(x, last, rxx[0], vadLogRatio);
      BlocksSame(Block(x, last, rxx[0], vadLogRatio), last, rxx[1..], vadLogRatio);
    }
  }

  lemma BlockSame(x: Working, last: int, rxx: int, vadLogRatio: int)
    requires |x.s.ring| == RXX_BUFFER_LEN && x.s.pos < RXX_BUFFER_LEN
    ensures var y := Block(x, last, rxx, vadLogRatio).s;
            && y.minOutput == x.s.minOutput && y.maxAnalog == x.s.maxAnalog
            && y.minLevel == x.s.minLevel && y.firstCall == x.s.firstCall
  {
    hide Lowered, Raised, Weight, Reduced, Region;
  }

  /** Without speech, saturation or long silence the volume is the adopted level. */
  lemma NothingHeard(s: Levels, inMicLevel: int, x: Input)
    requires Inv(s) && Accepted(s, inMicLevel) && Envelopes(x)
    requires !Saturated(s, x.env) && Silence(s, x.env) <= 500
    requires x.vadLogRatio <= SpeakerInactive(s, x.stdLongTerm).vadThreshold
    ensures |s.ring| == RXX_BUFFER_LEN && s.pos < RXX_BUFFER_LEN
    ensures Process(s, inMicLevel, x).micVol == Max(Adopted(s, inMicLevel), s.minOutput)
  {
    hide Adopted, Counters, Saturated, Silence, SpeakerInactive, Prepared, Blocks;
    AdoptKeeps(s, inMicLevel);
    var p := Prepared(s, inMicLevel, x);
    PreparedRing(s, inMicLevel, x);
    QuietPrepared(s, inMicLevel, x);
    QuietBlocks(p, Adopted(s, inMicLevel), x.rxx, x.vadLogRatio);
    OutputBounds(s);
  }

  lemma QuietPrepared(s: Levels, inMicLevel: int, x: Input)
    requires Proper(x) && !Saturated(s, x.env) && Silence(s, x.env) <= 500
    ensures var p := Prepared(s, inMicLevel, x).s;
            && p.micVol == Adopted(s, inMicLevel) && p.minOutput == s.minOutput
            && p.maxLevel == Max(s.maxLevel, Adopted(s, inMicLevel))
            && p.vadThreshold == SpeakerInactive(s, x.stdLongTerm).vadThreshold
  {
    hide EnvSum, SumOf, Adopted, Lowered;
    var a := Adopt(s, inMicLevel);
    assert Saturated(a, x.env) == Saturated(s, x.env);
    assert Silence(SaturationCtrl(a, x.env), x.env) == Silence(s, x.env);
  }

  lemma {:induction false} QuietBlocks(x: Working, last: int, rxx: seq<int>, vadLogRatio: int)
    requires |x.s.ring| == RXX_BUFFER_LEN && x.s.pos < RXX_BUFFER_LEN && vadLogRatio <= x.s.vadThreshold
    ensures var y := Blocks(x, last, rxx, vadLogRatio).s;
            && y.micVol == x.s.micVol && y.minOutput == x.s.minOutput && y.maxLevel == x.s.maxLevel
            && y.muteGuardMs == x.s.muteGuardMs
    decreases |rxx|
  {
    hide Spoken, Adapted, Moves;
    if rxx != [] {
      BlockRing(x, last, rxx[0], vadLogRatio);
      QuietBlocks(Block(x, last, rxx[0], vadLogRatio), last, rxx[1..], vadLogRatio);
    }
  }

  // ---------- runs ----------

  /** A caller's use of the level control. */
  datatype Event = Call(inMicLevel: int, x: Input) | Restarted | Configured

  /** Envelopes are squares of samples, and only the adaptive digital mode has a virtual microphone,
      which is what restarts. */
  ghost predicate Real(s: Levels, e: Event) {
    (e.Call? ==> Envelopes(e.x)) && (e.Restarted? ==> s.agcMode == ADAPTIVE_DIGITAL)
  }

  /** Refused calls change nothing; a new physical level puts the virtual volume in the middle; a new
      configuration puts the limits of the level back to those of the start. */
  function Next(s: Levels, e: Event): Levels
    requires |s.ring| == RXX_BUFFER_LEN && s.pos < RXX_BUFFER_LEN && (e.Call? ==> Proper(e.x))
  {
    match e
    case Call(inMicLevel, x) => if Accepted(s, inMicLevel) then Process(s, inMicLevel, x) else s
    case Restarted => s.(micVol := 127)
    case Configured => s.(upper := START_UPPER, lower := START_LOWER)
  }

  ghost predicate Reached(s: Levels, es: seq<Event>, t: Levels)
    decreases |es|
  {
    if es == [] then t == s
    else |s.ring| == RXX_BUFFER_LEN && s.pos < RXX_BUFFER_LEN && Real(s, es[0]) && Reached(Next(s, es[0]), es[1..], t)
  }

  /** In every run from an initial state the levels keep their order. */
  lemma {:induction false} EveryRunKeeps(s: Levels, es: seq<Event>, t: Levels)
    requires Inv(s) && Reached(s, es, t)
    ensures Inv(t)
    decreases |es|
  {
    hide Process, Counters;
    if es != [] {
      match es[0] {
        case Call(inMicLevel, x) => if Accepted(s, inMicLevel) { ProcessKeeps(s, inMicLevel, x); }
        case _ => OtherKeeps(s, es[0]);
      }
      EveryRunKeeps(Next(s, es[0]), es[1..], t);
    }
  }

  lemma OtherKeeps(s: Levels, e: Event)
    requires Inv(s) && !e.Call? && Real(s, e)
    ensures Inv(Next(s, e))
  {
  }

  /** A restart sets the volume whatever the range is: with levels of the caller's it would have to
      lie in it. */
  lemma RestartExactly(s: Levels)
    requires Inv(s)
    ensures Inv(Next(s, Restarted)) <==> s.minLevel <= 127 <= s.maxLevel
  {
    hide Core;
    CoreIgnores(s);
  }

  lemma CoreIgnores(s: Levels)
    requires Core(s)
    ensures |s.ring| == RXX_BUFFER_LEN && s.pos < RXX_BUFFER_LEN && Core(s.(micVol := 127))
  {
  }
}
