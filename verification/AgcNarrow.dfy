/** Runs of the level control in `gbcom_common/agc/agc.c` that raise a level below the minimum: they
    exist exactly in narrow ranges, or where the virtual volume restarts at the minimum. */
module AgcNarrow {
  import opened AgcLevels
  import opened AgcProduct
  import opened AgcBelow

  /** Speech, a square wave of 2608, and speech with a full-scale sample in every subframe instead:
      squares of samples and the energies, at 8 kHz. */
  const WAVE := 2608 * 2608
  const SPEECH := Input([WAVE, WAVE, WAVE, WAVE, WAVE, WAVE, WAVE, WAVE, WAVE, WAVE], [WAVE, WAVE, WAVE, WAVE, WAVE], 4500, 1000, false)
  const PEAK := 0x4000_0000
  const LOUD := 0x800_0000
  const PEAKS := Input([PEAK, PEAK, PEAK, PEAK, PEAK, PEAK, PEAK, PEAK, PEAK, PEAK], [LOUD, LOUD, LOUD, LOUD, LOUD], 4500, 1000, false)

  /** The energies of the last ten blocks after block m. */
  ghost predicate Heard(s: Levels, m: nat) {
    && |s.ring| == RXX_BUFFER_LEN && s.pos < RXX_BUFFER_LEN
    && if m <= 375 then s.pos == m % 10 && s.rxx160 == 1250 + 850083 * Min(m, 10)
                        && forall k :: 0 <= k < RXX_BUFFER_LEN ==> s.ring[k] == if k < m then WAVE else 1000
       else 8502080 <= s.rxx160 <= 8502080 + 0x100_0000 * (m - 375)
            && forall k :: 0 <= k < RXX_BUFFER_LEN ==> 0 <= s.ring[k] <= LOUD
  }

  /** After so many blocks of speech: for 125 blocks the long-term energy falls slowly inside its
      range; then it is set by the speech, which is too low, and peaks come too late to change that. */
  ghost predicate Talked(s: Levels, m: nat) {
    && Heard(s, m) && s.vadThreshold == 400
    && s.msTooHigh == 0 && s.inner == MSEC_SPEECH_INNER && s.outer == MSEC_SPEECH_OUTER
    && s.upper == START_UPPER && s.lower == START_LOWER
    && (if m <= 125 then s.activeSpeech == 2 * m && s.msTooLow == 0 && s.slow == 2 * m
                         && 33000 * m <= s.lp16 <= WAVE && 33000 * m <= s.lpMax <= WAVE
                         && ANALOG_TARGET_LEVEL - 13107 * m <= s.lp160 <= ANALOG_TARGET_LEVEL
        else s.activeSpeech == 252 && s.msTooLow == 2 * (m - 125) && s.slow == 0
             && 5156240 <= s.lp160 <= 8502080 + (if m <= 375 then 0 else 200000 * (m - 375)))
  }

  /** Nothing but the meters and timers has changed. */
  ghost predicate Like(s: Levels, t: Levels) {
    t == s.(rxx160 := t.rxx160, ring := t.ring, pos := t.pos, lp16 := t.lp16, lp160 := t.lp160,
            activeSpeech := t.activeSpeech, lpMax := t.lpMax, msTooLow := t.msTooLow, slow := t.slow)
  }

  function Energy(m: nat): int {
    if m < 375 then WAVE else LOUD
  }

  lemma MeteredHeard(s: Levels, m: nat)
    requires Heard(s, m) && m < 387
    ensures var t := Metered(s, Energy(m));
            Heard(t, m + 1) && t == s.(rxx160 := t.rxx160, ring := t.ring, pos := t.pos, lp16 := t.lp16)
  {
    if m < 375 {
      assert s.ring[m % 10] == if m < 10 then 1000 else WAVE;
    }
  }

  /** The short-term energy rises towards that of the speech. */
  lemma MeteredRises(s: Levels, m: nat)
    requires s.pos < |s.ring| && m < 125 && 33000 * m <= s.lp16 <= WAVE
    ensures 33000 * (m + 1) <= Metered(s, Energy(m)).lp16 <= WAVE
  {
  }

  lemma BlockEarly(x: Working, last: int, m: nat)
    requires Talked(x.s, m) && m < 125 && x.level == x.s.micVol
    ensures var y := Block(x, last, Energy(m), 1000);
            Talked(y.s, m + 1) && Like(x.s, y.s) && y.level == x.level
  {
    hide Metered, Heard;
    HeardRing(x.s, m);
    MeteredHeard(x.s, m);
    MeteredRises(x.s, m);
    HeardBounds(Metered(x.s, Energy(m)), m + 1);
    HeardSame(Metered(x.s, Energy(m)), Block(x, last, Energy(m), 1000).s, m + 1);
  }

  lemma BlockLate(x: Working, last: int, m: nat)
    requires Talked(x.s, m) && 125 <= m < 385 && x.level == x.s.micVol
    ensures var y := Block(x, last, Energy(m), 1000);
            Talked(y.s, m + 1) && Like(x.s, y.s) && y.level == x.level
  {
    hide Metered, Heard;
    HeardRing(x.s, m);
    MeteredHeard(x.s, m);
    HeardBounds(Metered(x.s, Energy(m)), m + 1);
    HeardSame(Metered(x.s, Energy(m)), Block(x, last, Energy(m), 1000).s, m + 1);
  }

  lemma BlockTalk(x: Working, last: int, m: nat)
    requires Talked(x.s, m) && m < 385 && x.level == x.s.micVol
    ensures var y := Block(x, last, Energy(m), 1000);
            Talked(y.s, m + 1) && Like(x.s, y.s) && y.level == x.level
  {
    hide *;
    if m < 125 { BlockEarly(x, last, m); } else { BlockLate(x, last, m); }
  }

  lemma {:induction false} BlocksTalk(x: Working, last: int, rxx: seq<int>, m: nat)
    requires Talked(x.s, m) && m + |rxx| <= 385 && x.level == x.s.micVol
    requires forall i :: 0 <= i < |rxx| ==> rxx[i] == Energy(m + i)
    ensures |x.s.ring| == RXX_BUFFER_LEN && x.s.pos < RXX_BUFFER_LEN
    ensures var y := Blocks(x, last, rxx, 1000);
            Talked(y.s, m + |rxx|) && Like(x.s, y.s) && y.level == x.level
    decreases |rxx|
  {
    hide Block, Energy;
    RingTalk(x.s, m);
    if rxx != [] {
      BlockTalk(x, last, m);
      forall i | 0 <= i < |rxx[1..]| ensures rxx[1..][i] == Energy(m + 1 + i) {
        assert rxx[1..][i] == rxx[i + 1];
      }
      BlocksTalk(Block(x, last, rxx[0], 1000), last, rxx[1..], m + 1);
    }
  }

  lemma HeardRing(s: Levels, m: nat)
    requires Heard(s, m)
    ensures |s.ring| == RXX_BUFFER_LEN && s.pos < RXX_BUFFER_LEN
  {
  }

  lemma HeardSame(s: Levels, t: Levels, m: nat)
    requires Heard(s, m) && t.ring == s.ring && t.pos == s.pos && t.rxx160 == s.rxx160
    ensures Heard(t, m)
  {
  }

  lemma HeardBounds(s: Levels, m: nat)
    requires Heard(s, m)
    ensures 1250 <= s.rxx160 <= 8502080 + (if m <= 375 then 0 else 0x100_0000 * (m - 375))
    ensures m >= 10 ==> s.rxx160 >= 8502080
  {
  }

  lemma RingTalk(s: Levels, m: nat)
    requires Talked(s, m)
    ensures |s.ring| == RXX_BUFFER_LEN && s.pos < RXX_BUFFER_LEN
  {
  }

  lemma {:induction false} SpeechSum(sum: int, i: nat)
    requires i <= 10
    ensures EnvSum(sum, SPEECH.env, i) == sum
    decreases i
  {
    if i > 0 { SpeechSum(sum, i - 1); }
  }

  lemma {:induction false} PeakSum(sum: int, i: nat)
    requires i <= 10 && 0 <= sum <= 21000
    ensures EnvSum(sum, PEAKS.env, i) == sum + 1024 * i
    decreases i
  {
    if i > 0 { PeakSum(sum, i - 1); }
  }

  lemma NotSilence(s: Levels)
    ensures Silence(s, SPEECH.env) == 0 && Silence(s, PEAKS.env) == 0
  {
    SumAtLeast(SPEECH.env, 0);
    SumAtLeast(PEAKS.env, 0);
  }

  /** 75 frames of speech and two with peaks. */
  function Frame(n: nat): Input {
    if n < 75 then SPEECH else PEAKS
  }

  function Sum(n: nat): int {
    if n <= 75 then 0 else if n == 76 then 10137 else 20173
  }

  /** The state before call n. */
  ghost predicate Waiting(s0: Levels, s: Levels, n: nat) {
    && Talked(s, 5 * n)
    && Like(s0.(firstCall := n > 0, lastInMicLevel := if n == 0 then 0 else s0.maxAnalog, envSum := Sum(n)), s)
  }

  /** The initial state of a mode with levels of the caller's. */
  ghost predicate Analog(s0: Levels, minLevel: int, maxLevel: int, mode: int) {
    mode != ADAPTIVE_DIGITAL && 0 <= minLevel < maxLevel < 0x8000 && s0 == Initial(minLevel, maxLevel, mode)
  }

  lemma FirstWaiting(s0: Levels, minLevel: int, maxLevel: int, mode: int)
    requires Analog(s0, minLevel, maxLevel, mode)
    ensures Waiting(s0, s0, 0)
  {
  }

  lemma SaturationTalk(s: Levels, n: nat)
    requires n <= 77 && s.envSum == Sum(n)
    ensures Saturated(s, Frame(n).env) <==> n == 77
    ensures n < 77 ==> SaturationCtrl(s, Frame(n).env) == s.(envSum := Sum(n + 1))
  {
    hide EnvSum;
    if n < 75 { SpeechSum(0, 10); } else { PeakSum(Sum(n), 10); }
  }

  lemma AdoptTalk(s0: Levels, minLevel: int, maxLevel: int, mode: int, s: Levels, n: nat)
    requires Analog(s0, minLevel, maxLevel, mode) && Waiting(s0, s, n)
    ensures Accepted(s, s0.maxAnalog)
    ensures Adopt(s, s0.maxAnalog) == s.(firstCall := true, lastInMicLevel := s0.maxAnalog)
    ensures Adopted(s, s0.maxAnalog) == s0.maxAnalog == s.micVol
  {
    hide Talked;
  }

  lemma PreparedTalk(s0: Levels, minLevel: int, maxLevel: int, mode: int, s: Levels, n: nat)
    requires Analog(s0, minLevel, maxLevel, mode) && Waiting(s0, s, n) && n < 77
    ensures Prepared(s, s0.maxAnalog, Frame(n))
      == Working(s.(firstCall := true, lastInMicLevel := s0.maxAnalog, envSum := Sum(n + 1)), s0.maxAnalog)
  {
    hide Adopt, Adopted, EnvSum, SumOf, Saturated, SaturationCtrl, Saturate, Sum;
    AdoptTalk(s0, minLevel, maxLevel, mode, s, n);
    var a := Adopt(s, s0.maxAnalog);
    SaturationTalk(a, n);
    NotSilence(SaturationCtrl(a, Frame(n).env));
  }

  /** A call with the highest level leaves the volume where it is. */
  lemma CallTalk(s0: Levels, minLevel: int, maxLevel: int, mode: int, s: Levels, n: nat)
    requires Analog(s0, minLevel, maxLevel, mode) && Waiting(s0, s, n) && n < 77
    ensures |s.ring| == RXX_BUFFER_LEN && s.pos < RXX_BUFFER_LEN
    ensures Waiting(s0, Process(s, s0.maxAnalog, Frame(n)), n + 1)
  {
    hide Prepared, Adopt, Adopted, Blocks, Talked, Sum;
    RingTalk(s, 5 * n);
    AdoptTalk(s0, minLevel, maxLevel, mode, s, n);
    PreparedTalk(s0, minLevel, maxLevel, mode, s, n);
    PreparedRing(s, s0.maxAnalog, Frame(n));
    var p := Prepared(s, s0.maxAnalog, Frame(n));
    TalkedStill(s, p.s, 5 * n);
    BlocksTalk(p, s0.maxAnalog, Frame(n).rxx, 5 * n);
  }

  lemma TalkedStill(s: Levels, t: Levels, m: nat)
    requires Talked(s, m) && t == s.(firstCall := t.firstCall, lastInMicLevel := t.lastInMicLevel, envSum := t.envSum)
    ensures Talked(t, m)
  {
  }

  /** The next call, with this level, finds the peaks saturated. */
  ghost predicate Ready(s: Levels, inMicLevel: int) {
    && Talked(s, 385) && s.envSum == Sum(77) && s.muteGuardMs == 0 && s.firstCall
    && Accepted(s, inMicLevel) && s.minLevel <= Adopted(s, inMicLevel) <= s.maxLevel
  }

  /** In a range of fewer than 42 steps the least output is at most one above the minimum. */
  lemma NarrowReady(s0: Levels, minLevel: int, maxLevel: int, mode: int, s: Levels)
    requires Analog(s0, minLevel, maxLevel, mode) && Waiting(s0, s, 77) && maxLevel - minLevel < 42
    ensures Ready(s, s0.minOutput) && s.minLevel <= Adopted(s, s0.minOutput) == s0.minOutput <= s.minLevel + 1
  {
    hide Talked;
  }

  /** In any range the caller can report the highest level. */
  lemma HighReady(s0: Levels, minLevel: int, maxLevel: int, mode: int, s: Levels)
    requires Analog(s0, minLevel, maxLevel, mode) && Waiting(s0, s, 77)
    ensures Ready(s, s0.maxAnalog) && Adopted(s, s0.maxAnalog) == s0.maxAnalog
  {
    hide Talked;
  }

  lemma LastAdopt(s: Levels, inMicLevel: int)
    requires Ready(s, inMicLevel)
    ensures Adopt(s, inMicLevel) == s.(micVol := Adopted(s, inMicLevel), lastInMicLevel := inMicLevel)
  {
    hide Talked, Adopted;
  }

  /** Saturated: two below the level, which is at most one above the minimum. */
  lemma LoweredBelow(level: int, minLevel: int)
    requires minLevel <= level <= minLevel + 1
    ensures minLevel - 2 <= Lowered(29591, level, minLevel, level, 2) < minLevel
  {
  }

  lemma LastPrepared(s: Levels, inMicLevel: int)
    requires Ready(s, inMicLevel)
    ensures Saturated(Adopt(s, inMicLevel), PEAKS.env)
    ensures var x := Prepared(s, inMicLevel, PEAKS);
            && x.level == Lowered(29591, Adopted(s, inMicLevel), s.minLevel, Adopted(s, inMicLevel), 2)
            && x.s.muteGuardMs == 0 && x.s.minLevel == s.minLevel
            && x.s == Saturate(x.s, 0).(lp160 := x.s.lp160, zeroCtrlMax := x.s.zeroCtrlMax, micVol := x.s.micVol)
            && x.s.ring == s.ring && x.s.pos == s.pos && x.s.rxx160 == s.rxx160 && x.s.vadThreshold == 400
            && x.s.lp160 == Quot(s.lp160, 8) * 7 && x.s.msTooLow == s.msTooLow
  {
    hide EnvSum, SumOf, Adopted, Adopt, Saturated, SaturationCtrl, Lowered, Silence;
    LastAdopt(s, inMicLevel);
    var a := Adopt(s, inMicLevel);
    SaturationTalk(a, 77);
    SaturationSame(a, PEAKS.env);
    NotSilence(Saturate(SaturationCtrl(a, PEAKS.env), a.micVol));
  }

  /** The first block of that call finds the speech too low for long enough. */
  lemma LastBlock(s: Levels, x: Levels)
    requires Talked(s, 385) && x.ring == s.ring && x.pos == s.pos && x.rxx160 == s.rxx160 && x.vadThreshold == 400
    requires x.lp160 == Quot(s.lp160, 8) * 7 && x.msTooLow == s.msTooLow
    requires x == Saturate(x, 0).(lp160 := x.lp160, zeroCtrlMax := x.zeroCtrlMax, micVol := x.micVol)
    ensures |x.ring| == RXX_BUFFER_LEN && x.pos < RXX_BUFFER_LEN && Raises(x, LOUD, 1000)
    ensures Region(Spoken(Metered(x, LOUD))) == 3 && Moves(Spoken(Metered(x, LOUD)))
  {
    hide Lowered;
    var t := Metered(x, LOUD);
    assert 8502080 <= t.rxx160 <= 8502080 + 0x100_0000 * 11;
  }

  /** The call that raises the volume: the peaks saturate the sum, and the volume, lowered for that, is
      raised in the first block. */
  lemma LastCall(s: Levels, inMicLevel: int)
    requires Ready(s, inMicLevel)
    ensures |s.ring| == RXX_BUFFER_LEN && s.pos < RXX_BUFFER_LEN
    ensures Accepted(s, inMicLevel) && Saturated(Adopt(s, inMicLevel), PEAKS.env)
    ensures var x := Prepared(s, inMicLevel, PEAKS);
            && x.level == Lowered(29591, Adopted(s, inMicLevel), s.minLevel, Adopted(s, inMicLevel), 2)
            && x.s.muteGuardMs == 0 && x.s.minLevel == s.minLevel
            && |x.s.ring| == RXX_BUFFER_LEN && x.s.pos < RXX_BUFFER_LEN && x.s.vadThreshold == 400
            && Raises(x.s, LOUD, 1000) && Region(Spoken(Metered(x.s, LOUD))) == 3 && Moves(Spoken(Metered(x.s, LOUD)))
  {
    hide Prepared, Adopt, Adopted, Saturated, Region, Moves, Raises, Talked, Saturate, Lowered;
    LastPrepared(s, inMicLevel);
    RingTalk(s, 385);
    LastBlock(s, Prepared(s, inMicLevel, PEAKS).s);
  }

  /** At most one above the minimum the level was lowered below it. */
  lemma LastBelowCall(s: Levels, inMicLevel: int)
    requires Ready(s, inMicLevel) && s.minLevel <= Adopted(s, inMicLevel) <= s.minLevel + 1
    ensures |s.ring| == RXX_BUFFER_LEN && s.pos < RXX_BUFFER_LEN && BelowInCall(s, inMicLevel, PEAKS)
    ensures s.minLevel - 2 <= Prepared(s, inMicLevel, PEAKS).level < s.minLevel
  {
    hide Prepared, Adopt, Adopted, Saturated, Region, Moves, Raises, Ready, Lowered;
    LastCall(s, inMicLevel);
    LoweredBelow(Adopted(s, inMicLevel), s.minLevel);
  }

  /** The calls before it. */
  lemma {:induction false} Talk(s0: Levels, minLevel: int, maxLevel: int, mode: int, s: Levels, n: nat)
    returns (es: seq<Event>, t: Levels)
    requires Analog(s0, minLevel, maxLevel, mode) && Waiting(s0, s, n) && n <= 77
    ensures Reached(s, es, t) && Waiting(s0, t, 77)
    decreases 77 - n
  {
    hide Process, Waiting, Analog, Accepted;
    if n == 77 {
      es, t := [], s;
    } else {
      CallTalk(s0, minLevel, maxLevel, mode, s, n);
      AdoptTalk(s0, minLevel, maxLevel, mode, s, n);
      var e := Call(s0.maxAnalog, Frame(n));
      var rest;
      rest, t := Talk(s0, minLevel, maxLevel, mode, Next(s, e), n + 1);
      es := [e] + rest;
      assert es[1..] == rest;
    }
  }

  lemma {:induction false} ThenBelow(s: Levels, es: seq<Event>, t: Levels, e: Event)
    requires Reached(s, es, t) && BelowInRun(t, [e])
    ensures BelowInRun(s, es + [e])
    decreases |es|
  {
    hide BelowInCall, Process;
    if es == [] {
      assert es + [e] == [e];
    } else {
      assert (es + [e])[1..] == es[1..] + [e];
      ThenBelow(Next(s, es[0]), es[1..], t, e);
    }
  }

  lemma LastBelow(s: Levels, e: Event)
    requires e.Call? && |s.ring| == RXX_BUFFER_LEN && s.pos < RXX_BUFFER_LEN && Real(s, e)
    requires Accepted(s, e.inMicLevel) && BelowInCall(s, e.inMicLevel, e.x)
    ensures BelowInRun(s, [e])
  {
    hide BelowInCall;
  }

  lemma WideHigh(minLevel: int, maxLevel: int, mode: int)
    requires 0 <= minLevel < maxLevel < 0x8000
    ensures var s := Initial(minLevel, maxLevel, mode); s.maxAnalog - s.minLevel >= 42 ==> High(s)
  {
    InitialInv(minLevel, maxLevel, mode);
  }

  /** The least output is less than two above the minimum. */
  predicate Risky(s: Levels) {
    s.maxAnalog - s.minLevel < 42
  }

  lemma RiskyRun(minLevel: int, maxLevel: int, mode: int) returns (es: seq<Event>)
    requires 0 <= minLevel < maxLevel < 0x8000 && Risky(Initial(minLevel, maxLevel, mode))
    ensures BelowInRun(Initial(minLevel, maxLevel, mode), es)
  {
    hide BelowInRun, BelowInCall, Waiting, Ready, Reached, Next;
    var s := Initial(minLevel, maxLevel, mode);
    FirstWaiting(s, minLevel, maxLevel, mode);
    var t;
    es, t := Talk(s, minLevel, maxLevel, mode, s, 0);
    NarrowReady(s, minLevel, maxLevel, mode, t);
    LastCall(t, s.minOutput);
    LastBelowCall(t, s.minOutput);
    LastBelow(t, Call(s.minOutput, PEAKS));
    ThenBelow(s, es, t, Call(s.minOutput, PEAKS));
    es := es + [Call(s.minOutput, PEAKS)];
  }

  /** From the initial state some run raises a level below the minimum exactly when the range has
      fewer than 42 steps. The digital mode, from 0 to 255, never does. */
  lemma BelowExactly(minLevel: int, maxLevel: int, mode: int)
    requires 0 <= minLevel < maxLevel < 0x8000
    ensures (exists es :: BelowInRun(Initial(minLevel, maxLevel, mode), es)) <==> Risky(Initial(minLevel, maxLevel, mode))
  {
    hide BelowInRun, High;
    var s := Initial(minLevel, maxLevel, mode);
    if Risky(s) {
      var es := RiskyRun(minLevel, maxLevel, mode);
    } else {
      WideHigh(minLevel, maxLevel, mode);
      forall es ensures !BelowInRun(s, es) {
        NeverBelow(s, es);
      }
    }
  }

  // ---------- and what comes of it ----------

  /** A volume from the highest level on, or beyond every maximum, that was just set: it stays until
      the end of the call. */
  ghost predicate Beyond(x: Working, far: bool, i: nat) {
    && Core(x.s) && x.level >= Least(x.s, far) && x.s.micVol >= Least(x.s, far)
    && x.s.msTooHigh <= 2 * i && x.s.msTooLow <= 2 * i
  }

  function Least(s: Levels, far: bool): int {
    if far then s.maxInit + 1 else s.maxAnalog
  }

  lemma AdaptedBeyond(s: Levels, level: int, last: int, far: bool, i: nat)
    requires Beyond(Working(s, level), far, i) && i < 5
    ensures Beyond(Working(Adapted(s, level, last), level), far, i + 1) && !Moves(s)
    ensures Adapted(s, level, last).muteGuardMs == s.muteGuardMs
  {
    hide Lowered, Raised, Weight, Reduced;
  }

  lemma BlockBeyond(x: Working, last: int, rxx: int, vadLogRatio: int, far: bool, i: nat)
    requires Beyond(x, far, i) && i < 5
    ensures var y := Block(x, last, rxx, vadLogRatio);
            Beyond(y, far, i + 1) && y.s.muteGuardMs == x.s.muteGuardMs
  {
    hide Adapted, Moves, Spoken, Metered;
    MeteredKeeps(x.s, rxx);
    MeteredSame(x.s, rxx);
    var t := Metered(x.s, rxx);
    SpokenKeeps(t);
    SpokenSame(t);
    if vadLogRatio > t.vadThreshold { AdaptedBeyond(Spoken(t), x.level, last, far, i); }
  }

  lemma {:induction false} BlocksBeyond(x: Working, last: int, rxx: seq<int>, vadLogRatio: int, far: bool, i: nat)
    requires Beyond(x, far, i) && i + |rxx| == 5
    ensures |x.s.ring| == RXX_BUFFER_LEN && x.s.pos < RXX_BUFFER_LEN
    ensures var y := Blocks(x, last, rxx, vadLogRatio);
            Beyond(y, far, 5) && y.s.muteGuardMs == x.s.muteGuardMs
    decreases |rxx|
  {
    hide Block, Counters;
    if rxx != [] {
      BlockBeyond(x, last, rxx[0], vadLogRatio, far, i);
      BlocksBeyond(Block(x, last, rxx[0], vadLogRatio), last, rxx[1..], vadLogRatio, far, i + 1);
    }
  }

  lemma FirstBeyond(x: Working, last: int, far: bool)
    requires Core(x.s) && last <= x.s.maxInit && x.s.vadThreshold == 400
    requires if far then x.s.minLevel - 2 <= x.level < x.s.minLevel else last >= x.s.maxAnalog
    requires Region(Spoken(Metered(x.s, LOUD))) == 3 && Moves(Spoken(Metered(x.s, LOUD)))
    ensures var y := Block(x, last, LOUD, 1000);
            Beyond(y, far, 1) && y.s.muteGuardMs == x.s.muteGuardMs
  {
    hide Metered, Spoken, Weight, Raised, Region;
    MeteredKeeps(x.s, LOUD);
    MeteredSame(x.s, LOUD);
    SpokenKeeps(Metered(x.s, LOUD));
    SpokenSame(Metered(x.s, LOUD));
    var u := Spoken(Metered(x.s, LOUD));
    var t := u.(msTooHigh := 0, msTooLow := u.msTooLow + 2, slow := 0);
    if far { JumpsBelow(u, x.level, last); }
    RaisedBounds(Weight(t, x.level, OFFSET2, SLOPE2), x.level, x.s.minLevel, last, 1);
    WeightSame(u, t, x.level);
  }

  lemma WeightSame(s: Levels, t: Levels, level: int)
    requires s.minLevel == t.minLevel && s.maxInit == t.maxInit
    ensures Weight(s, level, OFFSET2, SLOPE2) == Weight(t, level, OFFSET2, SLOPE2)
  {
  }

  lemma LimitedBeyond(x: Working, last: int, far: bool)
    requires Beyond(x, far, 5) && x.s.muteGuardMs == 0
    ensures var t := Limited(x.s, last, false); OutLevel(t) == t.maxAnalog && (far ==> t.micVol == t.maxLevel)
  {
  }

  lemma LimitedSame(s: Levels, last: int)
    ensures Limited(s, last, false).maxAnalog == s.maxAnalog
  {
  }

  lemma SpokenSame(s: Levels)
    ensures Spoken(s) == s.(activeSpeech := Spoken(s).activeSpeech, lpMax := Spoken(s).lpMax, lp160 := Spoken(s).lp160)
  {
  }

  lemma WaitingInv(s0: Levels, minLevel: int, maxLevel: int, mode: int, s: Levels)
    requires Analog(s0, minLevel, maxLevel, mode) && Waiting(s0, s, 77)
    ensures Inv(s) && Accepted(s, s0.minOutput) && Accepted(s, s0.maxAnalog)
    ensures s.minLevel == s0.minLevel && s.maxInit == s0.maxInit && s.maxAnalog == s0.maxAnalog && Envelopes(PEAKS)
  {
  }

  /** What the last call makes of the volume. */
  lemma LastRaises(s: Levels, inMicLevel: int, far: bool)
    requires Inv(s) && Ready(s, inMicLevel) && Adopted(s, inMicLevel) == inMicLevel
    requires if far then inMicLevel <= s.minLevel + 1 else inMicLevel == s.maxAnalog
    ensures |s.ring| == RXX_BUFFER_LEN && s.pos < RXX_BUFFER_LEN
    ensures far ==> !Exact(s, Prepared(s, inMicLevel, PEAKS).level, OFFSET2, SLOPE2)
    ensures var t := Process(s, inMicLevel, PEAKS); OutLevel(t) == s.maxAnalog && (far ==> t.micVol == t.maxLevel)
  {
    hide Prepared, Blocks, Block, Adopt, Adopted, Exact, Beyond, Ready, Saturated, Region, Moves, Limited, Lowered, Raises, Counters;
    LastCall(s, inMicLevel);
    ReadyAccepted(s, inMicLevel);
    var x := Prepared(s, inMicLevel, PEAKS);
    PreparedKeeps(s, inMicLevel, PEAKS);
    PreparedSame(s, inMicLevel, PEAKS);
    MidCore(x, inMicLevel, 0);
    OutputBounds(s);
    if far {
      LastBelowCall(s, inMicLevel);
      WrapsExactly(s, x.level);
    }
    FirstBeyond(x, inMicLevel, far);
    BlockRing(x, inMicLevel, LOUD, 1000);
    BlocksBeyond(Block(x, inMicLevel, LOUD, 1000), inMicLevel, PEAKS.rxx[1..], 1000, far, 1);
    BlocksUnfold(x, inMicLevel);
    PreparedRing(s, inMicLevel, PEAKS);
    LimitedBeyond(Blocks(x, inMicLevel, PEAKS.rxx, 1000), inMicLevel, far);
    BlocksSame(x, inMicLevel, PEAKS.rxx, 1000);
    LimitedSame(Blocks(x, inMicLevel, PEAKS.rxx, 1000).s, inMicLevel);
  }

  lemma ReadyAccepted(s: Levels, inMicLevel: int)
    requires Ready(s, inMicLevel)
    ensures Accepted(s, inMicLevel) && s.minLevel <= Adopted(s, inMicLevel) && Envelopes(PEAKS)
  {
    hide Talked, Adopted;
  }

  /** In a range of fewer than 42 steps some run ends with a saturated frame for which the product wraps:
      it should lower the volume and sets it to the maximum. */
  lemma SaturatedRaises(minLevel: int, maxLevel: int, mode: int)
    returns (es: seq<Event>, s: Levels, inMicLevel: int, x: Input)
    requires mode != ADAPTIVE_DIGITAL && 0 <= minLevel < maxLevel < 0x8000 && maxLevel - minLevel < 42
    ensures Reached(Initial(minLevel, maxLevel, mode), es, s) && |s.ring| == RXX_BUFFER_LEN && s.pos < RXX_BUFFER_LEN
    ensures Envelopes(x) && Accepted(s, inMicLevel) && Saturated(Adopt(s, inMicLevel), x.env)
    ensures !Exact(s, Prepared(s, inMicLevel, x).level, OFFSET2, SLOPE2)
    ensures inMicLevel <= s.minLevel + 1
    ensures var t := Process(s, inMicLevel, x); t.micVol == t.maxLevel && OutLevel(t) == s.maxAnalog
  {
    hide Process, Prepared, Waiting, Adopt, Adopted, Saturated, Exact, Reached, Ready;
    var s0 := Initial(minLevel, maxLevel, mode);
    FirstWaiting(s0, minLevel, maxLevel, mode);
    es, s := Talk(s0, minLevel, maxLevel, mode, s0, 0);
    inMicLevel, x := s0.minOutput, PEAKS;
    NarrowReady(s0, minLevel, maxLevel, mode, s);
    LastCall(s, s0.minOutput);
    WaitingInv(s0, minLevel, maxLevel, mode, s);
    LastRaises(s, s0.minOutput, true);
  }

  /** In every range some run ends with a saturated frame that leaves the volume at the maximum: what it
      lowers is raised in the same call, starting above the last volume. */
  lemma SaturatedStays(minLevel: int, maxLevel: int, mode: int)
    returns (es: seq<Event>, s: Levels, x: Input)
    requires mode != ADAPTIVE_DIGITAL && 0 <= minLevel < maxLevel < 0x8000
    ensures Reached(Initial(minLevel, maxLevel, mode), es, s) && |s.ring| == RXX_BUFFER_LEN && s.pos < RXX_BUFFER_LEN
    ensures Envelopes(x) && Accepted(s, s.maxAnalog) && Saturated(Adopt(s, s.maxAnalog), x.env)
    ensures OutLevel(Process(s, s.maxAnalog, x)) == s.maxAnalog
  {
    hide Process, Waiting, Adopt, Adopted, Saturated, Reached, Ready;
    var s0 := Initial(minLevel, maxLevel, mode);
    FirstWaiting(s0, minLevel, maxLevel, mode);
    es, s := Talk(s0, minLevel, maxLevel, mode, s0, 0);
    x := PEAKS;
    HighReady(s0, minLevel, maxLevel, mode, s);
    WaitingInv(s0, minLevel, maxLevel, mode, s);
    LastCall(s, s.maxAnalog);
    LastRaises(s, s.maxAnalog, false);
  }

  lemma BlocksUnfold(x: Working, last: int)
    requires |x.s.ring| == RXX_BUFFER_LEN && x.s.pos < RXX_BUFFER_LEN
    ensures |Block(x, last, LOUD, 1000).s.ring| == RXX_BUFFER_LEN && Block(x, last, LOUD, 1000).s.pos < RXX_BUFFER_LEN
    ensures Blocks(x, last, PEAKS.rxx, 1000)
      == Blocks(Block(x, last, LOUD, 1000), last, PEAKS.rxx[1..], 1000)
  {
    hide Block;
    BlockRing(x, last, LOUD, 1000);
  }
}
