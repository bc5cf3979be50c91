/** What a call of `WebRtcAgc_ProcessAnalog` in `gbcom_common/agc/agc.c` does in front of its blocks: the level it
    takes over, saturation, silence and the threshold of speech. */
module AgcFrames {
  import opened AgcLevels

  // ---------- the level taken over ----------

  /** A tenth of the range above the minimum: 51/512. */
  lemma StartVolumeIs(s: Levels)
    requires s.minLevel <= s.maxLevel
    ensures var d := StartVolume(s) - s.minLevel;
            0 <= 51 * (s.maxLevel - s.minLevel) - 512 * d < 512
  {
  }

  /** The first call takes the reported level, in the analog mode at least a tenth. */
  lemma FirstLevel(s: Levels, inMicLevel: int)
    requires Inv(s) && Accepted(s, inMicLevel) && !s.firstCall
    ensures Adopted(s, inMicLevel) == if s.agcMode == 1 then Max(inMicLevel, StartVolume(s)) else inMicLevel
  {
    hide StartVolume, Core;
  }

  /** Later a level that was asked for and is reported again leaves the volume, the gain beyond the range
      included. */
  lemma EchoedLevel(s: Levels)
    requires Inv(s) && s.firstCall && s.micVol >= s.minOutput
    ensures Accepted(s, OutLevel(s)) && Adopted(s, OutLevel(s)) == s.micVol
  {
    hide StartVolume;
    OutputBounds(s);
  }

  /** Any other level is followed if it has changed, taken for a coarse slider if it has not, and raised to
      a tenth if it is too low. */
  lemma UserLevel(s: Levels, inMicLevel: int)
    requires Inv(s) && Accepted(s, inMicLevel) && s.firstCall && inMicLevel != OutLevel(s)
    ensures Adopted(s, inMicLevel)
         == if inMicLevel < s.minOutput then StartVolume(s)
            else if inMicLevel == s.lastInMicLevel then s.micVol else inMicLevel
  {
    hide StartVolume, Core;
  }

  /** A caller who sets what he is told goes on from the volume where the call before ended. */
  lemma CallsContinue(s: Levels, inMicLevel: int, x: Input)
    requires Inv(s) && Accepted(s, inMicLevel) && Envelopes(x)
    ensures |s.ring| == RXX_BUFFER_LEN && s.pos < RXX_BUFFER_LEN
    ensures var t := Process(s, inMicLevel, x); Accepted(t, OutLevel(t)) && Adopted(t, OutLevel(t)) == t.micVol
  {
    hide Prepared, Blocks, Adopted, Inv, Accepted, Limited;
    InvRing(s);
    ProcessKeeps(s, inMicLevel, x);
    CalledOnce(s, inMicLevel, x);
    EchoedLevel(Process(s, inMicLevel, x));
  }

  lemma InvRing(s: Levels)
    requires Inv(s)
    ensures |s.ring| == RXX_BUFFER_LEN && s.pos < RXX_BUFFER_LEN
  {
  }

  lemma CalledOnce(s: Levels, inMicLevel: int, x: Input)
    requires Proper(x) && |s.ring| == RXX_BUFFER_LEN && s.pos < RXX_BUFFER_LEN
    ensures Process(s, inMicLevel, x).firstCall
  {
    hide Prepared, Blocks, Adopted;
    var p, last := Prepared(s, inMicLevel, x), Adopted(s, inMicLevel);
    PreparedRing(s, inMicLevel, x);
    PreparedSame(s, inMicLevel, x);
    BlocksSame(p, last, x.rxx, x.vadLogRatio);
  }

  // ---------- saturation ----------

  /** How loud the first i subframes are in all, counting those above 875. */
  function Loudness(env: seq<int>, i: nat): int
    requires i <= |env|
  {
    if i == 0 then 0 else Loudness(env, i - 1) + if env[i - 1] >= 876 * 0x10_0000 then env[i - 1] / 0x10_0000 else 0
  }

  predicate Squares(env: seq<int>) {
    |env| == 10 && forall k :: 0 <= k < 10 ==> 0 <= env[k] <= 0x4000_0000
  }

  lemma {:induction false} LoudnessBounds(env: seq<int>, i: nat)
    requires Squares(env) && i <= 10
    ensures 0 <= Loudness(env, i) <= 1024 * i
  {
    if i > 0 { LoudnessBounds(env, i - 1); }
  }

  /** The sum is kept in 16 bits. */
  lemma {:induction false} SumWraps(sum: int, env: seq<int>, i: nat)
    requires Squares(env) && i <= 10 && -0x8000 <= sum < 0x8000
    ensures EnvSum(sum, env, i) == ToInt16(sum + Loudness(env, i))
  {
    if i > 0 {
      SumWraps(sum, env, i - 1);
      LoudnessBounds(env, i - 1);
      WrapsOn(sum + Loudness(env, i - 1), env[i - 1] / 0x10_0000);
    }
  }

  lemma WrapsOn(x: int, y: int)
    ensures ToInt16(ToInt16(x) + y) == ToInt16(x + y)
  {
  }

  /** A frame is found saturated exactly when the sum passes 25000 and does not pass 32767 as well. */
  lemma SaturatedExactly(s: Levels, env: seq<int>)
    requires Squares(env) && -0x8000 <= s.envSum <= 25000
    ensures Saturated(s, env) <==> 25000 < s.envSum + Loudness(env, 10) < 32768
  {
    hide EnvSum, Loudness;
    SumWraps(s.envSum, env, 10);
    LoudnessBounds(env, 10);
  }

  /** A saturated frame starts the sum over, any other leaves 0.99 of it, wrapped or not. */
  lemma SumStep(s: Levels, env: seq<int>)
    requires Squares(env) && -0x8000 <= s.envSum <= 25000
    ensures var t, x := SaturationCtrl(s, env), s.envSum + Loudness(env, 10);
            && t == s.(envSum := t.envSum)
            && if 25000 < x < 32768 then t.envSum == 0
               else
                 var y := if x >= 32768 then x - 65536 else x;
                 32768 * t.envSum <= 32440 * y < 32768 * (t.envSum + 1) && -32440 <= t.envSum < 25000
  {
    hide EnvSum, Loudness;
    SumWraps(s.envSum, env, 10);
    LoudnessBounds(env, 10);
    SaturatedExactly(s, env);
  }

  /** A frame at the greatest amplitude there is. */
  const FULL: seq<int> := [0x4000_0000, 0x4000_0000, 0x4000_0000, 0x4000_0000, 0x4000_0000,
                           0x4000_0000, 0x4000_0000, 0x4000_0000, 0x4000_0000, 0x4000_0000]

  lemma FullLoudness()
    ensures Squares(FULL) && Loudness(FULL, 10) == 10240
  {
    assert Loudness(FULL, 5) == 5120;
  }

  /** The state after n such frames. */
  function Full(s: Levels, n: nat): Levels {
    if n == 0 then s else SaturationCtrl(Full(s, n - 1), FULL)
  }

  lemma FullStep(s: Levels, n: nat)
    requires -0x8000 <= Full(s, n).envSum <= 25000
    ensures var e, t := Full(s, n).envSum, Full(s, n + 1).envSum;
            && (Saturated(Full(s, n), FULL) <==> 14760 < e < 22528)
            && (e <= 14760 ==> 32768 * t <= 32440 * (e + 10240) < 32768 * (t + 1))
            && (14760 < e < 22528 ==> t == 0)
            && (e >= 22528 ==> 32768 * t <= 32440 * (e - 55296) < 32768 * (t + 1))
  {
    hide SaturationCtrl, Saturated, Loudness;
    FullLoudness();
    SaturatedExactly(Full(s, n), FULL);
    SumStep(Full(s, n), FULL);
  }

  /** From silence the third frame at full scale is found saturated. */
  lemma ThirdFound(s: Levels)
    requires s.envSum == 0
    ensures !Saturated(Full(s, 0), FULL) && !Saturated(Full(s, 1), FULL) && Saturated(Full(s, 2), FULL)
  {
    hide Full, Saturated;
    FullStart(s);
    FullStep(s, 0);
    FullStep(s, 1);
    FullStep(s, 2);
  }

  lemma FullStart(s: Levels)
    ensures Full(s, 0) == s
  {
  }

  /** But where the sum is 22528 or more already, the next frame at full scale wraps it: this one and the
      five behind it are not found, whatever the sum was, and only the seventh is. */
  lemma LoudestMissed(s: Levels)
    requires 22528 <= s.envSum <= 25000
    ensures forall n :: 0 <= n < 6 ==> !Saturated(Full(s, n), FULL)
    ensures Saturated(Full(s, 6), FULL)
  {
    hide Full, Saturated;
    FullStart(s);
    FullStep(s, 0);
    assert -32440 <= Full(s, 1).envSum <= -29992;
    FullStep(s, 1);
    assert -21979 <= Full(s, 2).envSum <= -19554;
    FullStep(s, 2);
    assert -11622 <= Full(s, 3).envSum <= -9220;
    FullStep(s, 3);
    assert -1369 <= Full(s, 4).envSum <= 1010;
    FullStep(s, 4);
    assert 8782 <= Full(s, 5).envSum <= 11138;
    FullStep(s, 5);
    FullStep(s, 6);
    forall n | 0 <= n < 6 ensures !Saturated(Full(s, n), FULL) {
      assert n == 0 || n == 1 || n == 2 || n == 3 || n == 4 || n == 5;
    }
  }

  /** A frame whose first half has samples of 30720. */
  const NEARLY: seq<int> := [900 * 0x10_0000, 900 * 0x10_0000, 900 * 0x10_0000, 900 * 0x10_0000, 900 * 0x10_0000, 0, 0, 0, 0, 0]

  lemma NearlyLoudness()
    ensures Squares(NEARLY) && Loudness(NEARLY, 10) == 4500
  {
    assert Loudness(NEARLY, 5) == 4500;
  }

  /** Such a sum is in reach of a new instance in three frames, none of them found saturated. */
  lemma MissedIsReached(s: Levels)
    requires s.envSum == 0
    ensures var t := Full(s, 2);
            && !Saturated(Full(s, 0), FULL) && !Saturated(Full(s, 1), FULL) && !Saturated(t, NEARLY)
            && 22528 <= SaturationCtrl(t, NEARLY).envSum <= 25000
  {
    hide Full, Saturated, SaturationCtrl, Loudness;
    FullStart(s);
    FullStep(s, 0);
    FullStep(s, 1);
    NearlyLoudness();
    SaturatedExactly(Full(s, 2), NEARLY);
    SumStep(Full(s, 2), NEARLY);
  }

  // ---------- what else a call keeps ----------

  /** The sum and the threshold of speech are those of the frame: nothing behind it changes them. */
  lemma CallSum(s: Levels, inMicLevel: int, x: Input)
    requires Inv(s) && Envelopes(x)
    ensures |s.ring| == RXX_BUFFER_LEN && s.pos < RXX_BUFFER_LEN
    ensures Process(s, inMicLevel, x).envSum == SaturationCtrl(s, x.env).envSum
    ensures Process(s, inMicLevel, x).vadThreshold == SpeakerInactive(s, x.stdLongTerm).vadThreshold
  {
    hide Prepared, Blocks, Adopted, Inv, SaturationCtrl, SpeakerInactive;
    InvRing(s);
    var p, last := Prepared(s, inMicLevel, x), Adopted(s, inMicLevel);
    PreparedRing(s, inMicLevel, x);
    PreparedSum(s, inMicLevel, x);
    BlocksSum(p, last, x.rxx, x.vadLogRatio);
  }

  lemma PreparedSum(s: Levels, inMicLevel: int, x: Input)
    requires Proper(x)
    ensures var p := Prepared(s, inMicLevel, x).s;
            && p.envSum == SaturationCtrl(s, x.env).envSum && p.vadThreshold == SpeakerInactive(s, x.stdLongTerm).vadThreshold
  {
    hide EnvSum, SumOf, Adopted, Lowered, ZeroLevel;
  }

  lemma {:induction false} BlocksSum(x: Working, last: int, rxx: seq<int>, vadLogRatio: int)
    requires |x.s.ring| == RXX_BUFFER_LEN && x.s.pos < RXX_BUFFER_LEN
    ensures Blocks(x, last, rxx, vadLogRatio).s.envSum == x.s.envSum
    ensures Blocks(x, last, rxx, vadLogRatio).s.vadThreshold == x.s.vadThreshold
    decreases |rxx|
  {
    hide Block;
    if rxx != [] {
      BlockRing(x, last, rxx[0], vadLogRatio);
      BlockSum(x, last, rxx[0], vadLogRatio);
      BlocksSum(Block(x, last, rxx[0], vadLogRatio), last, rxx[1..], vadLogRatio);
    }
  }

  lemma BlockSum(x: Working, last: int, rxx: int, vadLogRatio: int)
    requires |x.s.ring| == RXX_BUFFER_LEN && x.s.pos < RXX_BUFFER_LEN
    ensures Block(x, last, rxx, vadLogRatio).s.envSum == x.s.envSum
    ensures Block(x, last, rxx, vadLogRatio).s.vadThreshold == x.s.vadThreshold
  {
    hide Lowered, Raised, Weight, Reduced, Region;
  }

  // ---------- the threshold of speech ----------

  /** It is 1500 behind a quiet far end; otherwise it goes a 32nd of the way to between 400 and 1400, the less
      the far end varies the higher. */
  lemma ThresholdStep(s: Levels, stdLongTerm: int)
    requires 0 <= s.vadThreshold <= 1500
    ensures var v, w := s.vadThreshold, SpeakerInactive(s, stdLongTerm).vadThreshold;
            if stdLongTerm < 2500 then w == 1500
            else
              var target := if stdLongTerm >= 4500 then 400 else 400 + (4500 - stdLongTerm) / 2;
              0 <= 31 * v + target - 32 * w < 32 && 400 <= target <= 1400
  {
  }

  /** In every run it stays between 400 and 1500. */
  lemma {:induction false} ThresholdStays(s: Levels, es: seq<Event>, t: Levels)
    requires Inv(s) && Reached(s, es, t) && 400 <= s.vadThreshold <= 1500
    ensures 400 <= t.vadThreshold <= 1500
    decreases |es|
  {
    hide Process, Counters, SpeakerInactive, SaturationCtrl;
    if es != [] {
      match es[0] {
        case Call(inMicLevel, x) =>
          if Accepted(s, inMicLevel) {
            ProcessKeeps(s, inMicLevel, x);
            CallSum(s, inMicLevel, x);
            ThresholdStep(s, x.stdLongTerm);
          }
        case _ => OtherKeeps(s, es[0]);
      }
      ThresholdStays(Next(s, es[0]), es[1..], t);
    }
  }

  // ---------- silence ----------

  predicate Silent(env: seq<int>) {
    SumOf(env) < 500
  }

  /** The envelopes of the ten subframes together stay below 500. */
  lemma SilentExactly(env: seq<int>)
    requires |env| == 10
    ensures Silent(env) <==>
      env[0] + env[1] + env[2] + env[3] + env[4] + env[5] + env[6] + env[7] + env[8] + env[9] < 500
  {
    SumOfTwo(env);
    SumOfTwo(env[..8]);
    SumOfTwo(env[..6]);
    SumOfTwo(env[..4]);
    SumOfTwo(env[..2]);
    assert env[..8][..6] == env[..6] && env[..6][..4] == env[..4] && env[..4][..2] == env[..2];
    assert SumOf(env[..2][..0]) == 0;
  }

  lemma SumOfTwo(env: seq<int>)
    requires |env| >= 2
    ensures SumOf(env) == SumOf(env[..|env| - 2]) + env[|env| - 2] + env[|env| - 1]
  {
    var e := env[..|env| - 1];
    assert e[..|e| - 1] == env[..|env| - 2];
  }

  /** Silence counts ten milliseconds a frame and anything else starts over; at more than 500 it is found
      once, and guards the next eight seconds. */
  lemma SilenceStep(s: Levels, level: int, env: seq<int>)
    ensures var t := ZeroCtrl(s, level, env);
            if Silent(env) && s.msZero > 490 then
              t.msZero == 0 && t.muteGuardMs == 8000 && t.activeSpeech == 0 && t.lpMax == 0
            else
              && t.micVol == s.micVol && t.activeSpeech == s.activeSpeech && t.lpMax == s.lpMax
              && t.msZero == (if Silent(env) then s.msZero + 10 else 0)
              && t.muteGuardMs == (if s.muteGuardMs > 0 then s.muteGuardMs - 10 else s.muteGuardMs)
  {
    hide ZeroLevel;
  }

  /** Found silence raises a level below the middle by a tenth, up to the limit of silence, and no other. */
  lemma SilenceRaises(s: Levels, level: int, env: seq<int>)
    requires Core(s) && level >= 0
    ensures var v := ZeroLevel(s, level, env);
            if Silent(env) && s.msZero > 490 && 2 * level < s.maxAnalog + s.minLevel then
              v == s.zeroCtrlMax || (v <= s.zeroCtrlMax && 0 <= 1126 * level - 1024 * v < 1024)
            else v == level
    ensures ZeroCtrl(s, level, env).micVol
         == if Silent(env) && s.msZero > 490 && 2 * level < s.maxAnalog + s.minLevel then ZeroLevel(s, level, env) else s.micVol
  {
    hide Counters, SumOf;
  }

  function Silences(s: Levels, envs: seq<seq<int>>): Levels
    decreases |envs|
  {
    if envs == [] then s else Silences(ZeroCtrl(s, s.micVol, envs[0]), envs[1..])
  }

  /** Fifty silent frames in a row do nothing, the next one is found. */
  lemma {:induction false} SilenceFound(s: Levels, envs: seq<seq<int>>)
    requires 0 <= s.msZero && s.msZero + 10 * |envs| <= 500 && forall k :: 0 <= k < |envs| ==> Silent(envs[k])
    ensures Silences(s, envs).msZero == s.msZero + 10 * |envs| && Silences(s, envs).micVol == s.micVol
    ensures forall env :: Silent(env) && s.msZero + 10 * |envs| > 490 ==>
              ZeroCtrl(Silences(s, envs), Silences(s, envs).micVol, env).muteGuardMs == 8000
    decreases |envs|
  {
    hide Silent, ZeroCtrl;
    if envs != [] {
      SilenceStep(s, s.micVol, envs[0]);
      SilenceFound(ZeroCtrl(s, s.micVol, envs[0]), envs[1..]);
    } else {
      forall env | Silent(env) && s.msZero > 490 ensures ZeroCtrl(s, s.micVol, env).muteGuardMs == 8000 {
        SilenceStep(s, s.micVol, env);
      }
    }
  }

  /** While the guard runs no call raises the volume. */
  lemma GuardHolds(s: Levels, inMicLevel: int, x: Input)
    requires Inv(s) && Accepted(s, inMicLevel) && Envelopes(x) && !Saturated(s, x.env)
    requires s.muteGuardMs > 10 && !(Silent(x.env) && s.msZero > 490)
    ensures |s.ring| == RXX_BUFFER_LEN && s.pos < RXX_BUFFER_LEN
    ensures Process(s, inMicLevel, x).micVol <= Max(Adopted(s, inMicLevel), s.minOutput)
    ensures Process(s, inMicLevel, x).muteGuardMs == s.muteGuardMs - 10
  {
    hide Prepared, Blocks, Adopted, Counters, Silent, Saturated;
    PreparedKeeps(s, inMicLevel, x);
    var p, last := Prepared(s, inMicLevel, x), Adopted(s, inMicLevel);
    PreparedRing(s, inMicLevel, x);
    BlocksKeep(p, last, x.rxx, x.vadLogRatio, 0);
    PreparedSame(s, inMicLevel, x);
    PreparedGuard(s, inMicLevel, x);
    BlocksSame(p, last, x.rxx, x.vadLogRatio);
    BlocksGuard(p, last, x.rxx, x.vadLogRatio);
    OutputBounds(Blocks(p, last, x.rxx, x.vadLogRatio).s);
    GuardBelow(s);
  }

  lemma GuardBelow(s: Levels)
    requires Inv(s)
    ensures s.muteGuardMs <= 8000
  {
  }

  lemma PreparedGuard(s: Levels, inMicLevel: int, x: Input)
    requires Proper(x) && !Saturated(s, x.env) && s.muteGuardMs > 10 && !(Silent(x.env) && s.msZero > 490)
    ensures Prepared(s, inMicLevel, x).s.muteGuardMs == s.muteGuardMs - 10
  {
    hide EnvSum, SumOf, Adopted, Lowered, ZeroLevel;
  }

  lemma {:induction false} BlocksGuard(x: Working, last: int, rxx: seq<int>, vadLogRatio: int)
    requires |x.s.ring| == RXX_BUFFER_LEN && x.s.pos < RXX_BUFFER_LEN
    ensures Blocks(x, last, rxx, vadLogRatio).s.muteGuardMs == x.s.muteGuardMs
    decreases |rxx|
  {
    hide Block;
    if rxx != [] {
      BlockRing(x, last, rxx[0], vadLogRatio);
      BlockGuard(x, last, rxx[0], vadLogRatio);
      BlocksGuard(Block(x, last, rxx[0], vadLogRatio), last, rxx[1..], vadLogRatio);
    }
  }

  lemma BlockGuard(x: Working, last: int, rxx: int, vadLogRatio: int)
    requires |x.s.ring| == RXX_BUFFER_LEN && x.s.pos < RXX_BUFFER_LEN
    ensures Block(x, last, rxx, vadLogRatio).s.muteGuardMs == x.s.muteGuardMs
  {
    hide Lowered, Raised, Weight, Reduced, Region;
  }

  /** Without echo and guard the volume behind the blocks is the one of the call, inside its limits; so it is
      in the call that finds silence or saturation. */
  lemma FreeCall(s: Levels, inMicLevel: int, x: Input)
    requires Inv(s) && Accepted(s, inMicLevel) && Envelopes(x) && !x.echo
    requires s.muteGuardMs == 0 || Saturated(s, x.env) || (Silent(x.env) && s.msZero > 490)
    ensures |s.ring| == RXX_BUFFER_LEN && s.pos < RXX_BUFFER_LEN
    ensures var p := Prepared(s, inMicLevel, x); |p.s.ring| == RXX_BUFFER_LEN && p.s.pos < RXX_BUFFER_LEN
    ensures var t := Blocks(Prepared(s, inMicLevel, x), Adopted(s, inMicLevel), x.rxx, x.vadLogRatio).s;
            Process(s, inMicLevel, x).micVol == Max(s.minOutput, Min(t.maxLevel, t.micVol))
  {
    hide Prepared, Blocks, Adopted, Counters, Silent, Saturated;
    PreparedKeeps(s, inMicLevel, x);
    var p, last := Prepared(s, inMicLevel, x), Adopted(s, inMicLevel);
    PreparedRing(s, inMicLevel, x);
    BlocksKeep(p, last, x.rxx, x.vadLogRatio, 0);
    PreparedSame(s, inMicLevel, x);
    FreePrepared(s, inMicLevel, x);
    BlocksSame(p, last, x.rxx, x.vadLogRatio);
    BlocksGuard(p, last, x.rxx, x.vadLogRatio);
    OutputBounds(Blocks(p, last, x.rxx, x.vadLogRatio).s);
  }

  lemma FreePrepared(s: Levels, inMicLevel: int, x: Input)
    requires Inv(s) && Envelopes(x)
    requires s.muteGuardMs == 0 || Saturated(s, x.env) || (Silent(x.env) && s.msZero > 490)
    ensures Prepared(s, inMicLevel, x).s.muteGuardMs == 0 || Prepared(s, inMicLevel, x).s.muteGuardMs == 8000
  {
    hide EnvSum, SumOf, Adopted, Lowered, ZeroLevel, Core, Counters;
    if Saturated(s, x.env) { LoudFrame(s, x); }
  }

  /** So a call that finds silence, and no speech, ends a tenth higher, from below the middle. */
  lemma SilenceLifts(s: Levels, inMicLevel: int, x: Input)
    requires Inv(s) && Accepted(s, inMicLevel) && Envelopes(x) && !x.echo && !Saturated(s, x.env)
    requires Silent(x.env) && s.msZero > 490 && x.vadLogRatio <= SpeakerInactive(s, x.stdLongTerm).vadThreshold
    ensures |s.ring| == RXX_BUFFER_LEN && s.pos < RXX_BUFFER_LEN
    ensures var level := Adopted(s, inMicLevel);
            var lifted := if 2 * level < s.maxAnalog + s.minLevel then Min(1126 * level / 1024, s.zeroCtrlMax) else level;
            Process(s, inMicLevel, x).micVol == Max(s.minOutput, Min(s.maxLevel, lifted))
  {
    hide Adopted, Counters, Saturated, Silent, SpeakerInactive, Prepared, Blocks;
    AdoptKeeps(s, inMicLevel);
    InvRing(s);
    var p := Prepared(s, inMicLevel, x);
    PreparedRing(s, inMicLevel, x);
    LiftedPrepared(s, inMicLevel, x);
    QuietBlocks(p, Adopted(s, inMicLevel), x.rxx, x.vadLogRatio);
    OutputBounds(s);
  }

  lemma LiftedPrepared(s: Levels, inMicLevel: int, x: Input)
    requires Inv(s) && Accepted(s, inMicLevel) && Proper(x) && !Saturated(s, x.env) && Silent(x.env) && s.msZero > 490
    ensures var p, level := Prepared(s, inMicLevel, x).s, Adopted(s, inMicLevel);
            && p.minOutput == s.minOutput && p.maxLevel == s.maxLevel && p.muteGuardMs == 8000
            && p.vadThreshold == SpeakerInactive(s, x.stdLongTerm).vadThreshold
            && p.micVol == if 2 * level < s.maxAnalog + s.minLevel then Min(1126 * level / 1024, s.zeroCtrlMax) else level
  {
    hide EnvSum, SumOf, Adopted, Lowered, Counters;
    AdoptKeeps(s, inMicLevel);
    assert Saturated(Adopt(s, inMicLevel), x.env) == Saturated(s, x.env);
  }

  // ---------- the start ----------

  /** A new instance: a quarter of the range on top, the least output 10/256 of all that above the minimum, the
      volume at the highest level or, for the adaptive digital mode, at 127 of 0 to 255. */
  lemma InitialExactly(minLevel: int, maxLevel: int, mode: int)
    requires 0 <= minLevel < maxLevel
    ensures var s := Initial(minLevel, maxLevel, mode);
            && (if mode == 2 then s.minLevel == 0 && s.maxAnalog == 255 && s.micVol == 127
                else s.minLevel == minLevel && s.maxAnalog == maxLevel == s.micVol)
            && 0 <= (s.maxAnalog - s.minLevel) - 4 * (s.maxInit - s.maxAnalog) < 4 && s.maxLevel == s.maxInit
            && 0 <= 10 * (s.maxInit - s.minLevel) - 256 * (s.minOutput - s.minLevel) < 256
            && s.zeroCtrlMax == s.maxAnalog && s.agcMode == mode && !s.firstCall && s.lastInMicLevel == 0
            && s.envSum == 0 && s.msZero == 0 && s.muteGuardMs == 0 && s.activeSpeech == 0 && s.lpMax == 0
            && s.vadThreshold == 400 && s.msTooHigh == 0 && s.msTooLow == 0 && s.slow == 0
            && s.inner == 520 && s.outer == 340 && s.upper == 16895980 && s.lower == 10660640
            && s.lp160 == 13420950 && s.lp16 == 16284 && s.rxx160 == 1250 && s.pos == 0
            && |s.ring| == 10 && forall k :: 0 <= k < 10 ==> s.ring[k] == 1000
  {
  }
}
