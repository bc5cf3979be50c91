/** When `WebRtcAgc_ProcessAnalog` (`gbcom_common/agc/agc.c`) raises a level below the minimum, and why
    no run in a wide range does. */
module AgcBelow {
  import opened AgcLevels

  // ---------- where a run gets below the minimum ----------

  /** The block raises the volume. */
  predicate Raises(s: Levels, rxx: int, vadLogRatio: int)
    requires s.pos < |s.ring|
  {
    var t := Metered(s, rxx);
    vadLogRatio > t.vadThreshold && 2 <= Region(Spoken(t)) <= 3 && Moves(Spoken(t))
  }

  /** Some block raises a level below the minimum. */
  predicate BelowInBlocks(x: Working, last: int, rxx: seq<int>, vadLogRatio: int)
    requires |x.s.ring| == RXX_BUFFER_LEN && x.s.pos < RXX_BUFFER_LEN
    decreases |rxx|
  {
    rxx != [] &&
    (BlockRing(x, last, rxx[0], vadLogRatio);
     (Raises(x.s, rxx[0], vadLogRatio) && x.level < x.s.minLevel)
     || BelowInBlocks(Block(x, last, rxx[0], vadLogRatio), last, rxx[1..], vadLogRatio))
  }

  predicate BelowInCall(s: Levels, inMicLevel: int, x: Input)
    requires Proper(x) && |s.ring| == RXX_BUFFER_LEN && s.pos < RXX_BUFFER_LEN
  {
    PreparedRing(s, inMicLevel, x);
    BelowInBlocks(Prepared(s, inMicLevel, x), Adopted(s, inMicLevel), x.rxx, x.vadLogRatio)
  }

  ghost predicate BelowInRun(s: Levels, es: seq<Event>)
    decreases |es|
  {
    es != [] && |s.ring| == RXX_BUFFER_LEN && s.pos < RXX_BUFFER_LEN && Real(s, es[0])
    && ((es[0].Call? && Accepted(s, es[0].inMicLevel) && BelowInCall(s, es[0].inMicLevel, es[0].x))
        || BelowInRun(Next(s, es[0]), es[1..]))
  }

  // ---------- wide ranges never get there ----------

  /** What holds between two calls when the least output is at least two above the minimum. */
  ghost predicate High(s: Levels) {
    && Inv(s) && s.minOutput >= s.minLevel + 2 && s.zeroCtrlMax >= s.minLevel
    && if s.firstCall then s.micVol >= s.minLevel + 2 else s.envSum == 0
  }

  /** Inside the loop: the level is above the minimum, or both timers have just been reset. */
  ghost predicate Above(x: Working, last: int, i: nat) {
    && Mid(x, last, i) && x.s.zeroCtrlMax >= x.s.minLevel
    && ((x.level >= x.s.minLevel && x.s.micVol >= x.s.minLevel) || (x.s.msTooHigh <= 2 * i && x.s.msTooLow <= 2 * i))
  }

  lemma AdaptedAbove(s: Levels, level: int, last: int, i: nat)
    requires Above(Working(s, level), last, i) && i < 5
    ensures Above(Working(Adapted(s, level, last), if Moves(s) then Adapted(s, level, last).micVol else level), last, i + 1)
    ensures 2 <= Region(s) <= 3 && Moves(s) ==> level >= s.minLevel
  {
    hide Mid, Lowered, Raised, Weight, Reduced;
    MidCore(Working(s, level), last, i);
    AdaptedKeeps(s, level, last, i);
    var t := s.(msTooHigh := 0, msTooLow := s.msTooLow + 2, slow := 0);
    RaisedBounds(Weight(t, level, OFFSET1, SLOPE1), level, s.minLevel, last, 2);
    RaisedBounds(Weight(t, level, OFFSET2, SLOPE2), level, s.minLevel, last, 1);
  }

  lemma MidCore(x: Working, last: int, i: nat)
    requires Mid(x, last, i)
    ensures |x.s.ring| == RXX_BUFFER_LEN && x.s.pos < RXX_BUFFER_LEN && x.s.minLevel <= last && Core(x.s)
    ensures MSEC_SPEECH_OUTER <= x.s.inner && MSEC_SPEECH_OUTER <= x.s.outer
  {
  }

  lemma BlockAbove(x: Working, last: int, rxx: int, vadLogRatio: int, i: nat)
    requires Above(x, last, i) && i < 5
    ensures |x.s.ring| == RXX_BUFFER_LEN && x.s.pos < RXX_BUFFER_LEN
    ensures Above(Block(x, last, rxx, vadLogRatio), last, i + 1)
    ensures Raises(x.s, rxx, vadLogRatio) ==> x.level >= x.s.minLevel
  {
    hide Adapted, Moves, Region, Counters;
    BlockKeeps(x, last, rxx, vadLogRatio, i);
    var t := Metered(x.s, rxx);
    if vadLogRatio > t.vadThreshold {
      MeteredKeeps(x.s, rxx);
      SpokenKeeps(t);
      AdaptedAbove(Spoken(t), x.level, last, i);
    }
  }

  lemma {:induction false} BlocksAbove(x: Working, last: int, rxx: seq<int>, vadLogRatio: int, i: nat)
    requires Above(x, last, i) && i + |rxx| == 5
    ensures |x.s.ring| == RXX_BUFFER_LEN && x.s.pos < RXX_BUFFER_LEN
    ensures Above(Blocks(x, last, rxx, vadLogRatio), last, 5) && !BelowInBlocks(x, last, rxx, vadLogRatio)
    decreases |rxx|
  {
    hide Block, Raises, Mid;
    MidCore(x, last, i);
    if rxx != [] {
      BlockAbove(x, last, rxx[0], vadLogRatio, i);
      BlocksAbove(Block(x, last, rxx[0], vadLogRatio), last, rxx[1..], vadLogRatio, i + 1);
    }
  }

  /** Ten subframes cannot saturate a sum that starts at zero. */
  lemma {:induction false} SumBelow(env: seq<int>, i: nat)
    requires i <= |env| && i <= 10 && forall k :: 0 <= k < |env| ==> 0 <= env[k] <= 0x4000_0000
    ensures 0 <= EnvSum(0, env, i) <= 1024 * i
  {
    if i > 0 { SumBelow(env, i - 1); }
  }

  lemma AdoptedHigh(s: Levels, inMicLevel: int)
    requires High(s) && Accepted(s, inMicLevel)
    ensures Adopted(s, inMicLevel) >= s.minLevel
    ensures s.firstCall ==> Adopted(s, inMicLevel) >= s.minLevel + 2
  {
    hide Counters;
  }

  lemma PreparedAbove(s: Levels, inMicLevel: int, x: Input)
    requires High(s) && Accepted(s, inMicLevel) && Envelopes(x)
    ensures Above(Prepared(s, inMicLevel, x), Adopted(s, inMicLevel), 0)
  {
    hide EnvSum, SumOf, Adopted, Mid, Lowered, Counters;
    PreparedKeeps(s, inMicLevel, x);
    AdoptedHigh(s, inMicLevel);
    if !s.firstCall { SumBelow(x.env, 10); }
    var a := Adopt(s, inMicLevel);
    if Saturated(a, x.env) { LoweredAbove(a.micVol, s.minLevel); }
  }

  lemma LoweredAbove(level: int, minLevel: int)
    requires level >= minLevel + 2
    ensures Lowered(29591, level, minLevel, level, 2) >= minLevel
  {
  }

  lemma CallHigh(s: Levels, inMicLevel: int, x: Input)
    requires High(s) && Accepted(s, inMicLevel) && Envelopes(x)
    ensures |s.ring| == RXX_BUFFER_LEN && s.pos < RXX_BUFFER_LEN
    ensures High(Process(s, inMicLevel, x)) && !BelowInCall(s, inMicLevel, x)
  {
    hide Prepared, Blocks, BelowInBlocks, Adopted, Counters, Mid;
    ProcessKeeps(s, inMicLevel, x);
    PreparedAbove(s, inMicLevel, x);
    PreparedRing(s, inMicLevel, x);
    var p := Prepared(s, inMicLevel, x);
    BlocksAbove(p, Adopted(s, inMicLevel), x.rxx, x.vadLogRatio, 0);
    PreparedSame(s, inMicLevel, x);
    BlocksSame(p, Adopted(s, inMicLevel), x.rxx, x.vadLogRatio);
  }

  lemma {:induction false} NeverBelow(s: Levels, es: seq<Event>)
    requires High(s)
    ensures !BelowInRun(s, es)
    decreases |es|
  {
    hide Process, BelowInCall, Counters;
    if es != [] && Real(s, es[0]) {
      match es[0] {
        case Call(inMicLevel, x) => if Accepted(s, inMicLevel) { CallHigh(s, inMicLevel, x); CallMinimum(s, inMicLevel, x); }
        case _ => OtherKeeps(s, es[0]);
      }
      NeverBelow(Next(s, es[0]), es[1..]);
    }
  }

  lemma CallMinimum(s: Levels, inMicLevel: int, x: Input)
    requires Proper(x) && |s.ring| == RXX_BUFFER_LEN && s.pos < RXX_BUFFER_LEN
    ensures Process(s, inMicLevel, x).minLevel == s.minLevel
  {
    hide Prepared, Blocks, Adopted;
    PreparedRing(s, inMicLevel, x);
    PreparedSame(s, inMicLevel, x);
    BlocksSame(Prepared(s, inMicLevel, x), Adopted(s, inMicLevel), x.rxx, x.vadLogRatio);
  }
}
