/** The automatic gain control of `gbcom_common/agc/agc.c`: its level control and its digital
    microphone gains on the state they share. The level fields stand together in `lv`. */
module Agc {
  import opened AgcTables
  import opened AgcLevels
  import opened AgcMic

  class LegacyAgc {
    var lv: Levels
    var fs: int
    var gainTableIdx: nat
    var micRef: int
    var micGainIdx: int
    var inQueue: nat
    const env: array2<nat>

    ghost predicate Valid()
      reads this, env
    {
      Inv(lv) && gainTableIdx < 32 && inQueue <= 2 && Envelopes()
    }

    ghost predicate Envelopes()
      reads env
    {
      && env.Length0 == 2 && env.Length1 == 10
      && forall q, k :: 0 <= q < 2 && 0 <= k < 10 ==> env[q, k] <= 0x4000_0000
    }

    constructor ()
      ensures env.Length0 == 2 && env.Length1 == 10 && fresh(env)
    {
      env := new nat[2, 10]((_, _) => 0);
      lv := Initial(0, 255, 0);
      gainTableIdx, inQueue := 0, 0;
    }

    /** `WebRtcAgc_Init`: the state is set up even when the levels are refused. */
    method Init(min: int, max: int, mode: int, rate: int) returns (ret: int)
      requires env.Length0 == 2 && env.Length1 == 10
      modifies this, env
      ensures mode < 0 || mode > FIXED_DIGITAL ==> ret == -1
      ensures 0 <= mode <= FIXED_DIGITAL ==>
        && lv == Initial(min, max, mode) && gainTableIdx == 0 && inQueue == 0 && fs == rate
        && micRef == lv.micVol && micGainIdx == 127
        && (ret == 0 <==> lv.minLevel < lv.maxAnalog && 0 <= lv.maxAnalog < 0x400_0000)
      ensures ret == 0 && 0 <= lv.minLevel && lv.maxAnalog < 0x8000 ==> Valid()
    {
      var s := lv.(envSum := 0);
      lv := s;
      if mode < 0 || mode > FIXED_DIGITAL { return -1; }
      s := s.(agcMode := mode);
      fs := rate;
      var minL, maxL := min, max;
      if mode == ADAPTIVE_DIGITAL {
        minL := 0;
        maxL := 255;
      }
      var max_add := Quot(maxL - minL, 4);
      s := s.(minLevel := minL, maxAnalog := maxL, maxLevel := maxL + max_add, maxInit := maxL + max_add);
      s := s.(zeroCtrlMax := maxL, lastInMicLevel := 0);
      s := s.(micVol := maxL);
      if mode == ADAPTIVE_DIGITAL { s := s.(micVol := 127); }
      micRef := s.micVol;
      micGainIdx := 127;
      s := s.(minOutput := s.minLevel + (s.maxLevel - s.minLevel) * 10 / 256);
      s := s.(msTooLow := 0, msTooHigh := 0, slow := 0, firstCall := false, msZero := 0, muteGuardMs := 0);
      gainTableIdx := 0;
      s := s.(inner := MSEC_SPEECH_INNER, outer := MSEC_SPEECH_OUTER, activeSpeech := 0, lpMax := 0, vadThreshold := 400);
      s := s.(ring := seq(RXX_BUFFER_LEN, _ => 1000), rxx160 := 125 * RXX_BUFFER_LEN, pos := 0, lp16 := 16284);
      forall q, k | 0 <= q < 2 && 0 <= k < 10 { env[q, k] := 0; }
      inQueue := 0;
      s := s.(upper := START_UPPER, lower := START_LOWER, lp160 := ANALOG_TARGET_LEVEL);
      lv := s;
      ret := if minL >= maxL || maxL < 0 || maxL >= 0x400_0000 then -1 else 0;
      if ret == 0 && 0 <= minL && maxL < 0x8000 { InitialInv(minL, maxL, mode); }
    }

    /** `WebRtcAgc_UpdateAgcThresholds`, which a new configuration runs. */
    method UpdateAgcThresholds()
      requires Valid()
      modifies this`lv
      ensures Valid() && lv == Next(old(lv), Configured)
    {
      lv := lv.(upper := START_UPPER, lower := START_LOWER);
    }

    /** `WebRtcAgc_SaturationCtrl`. */
    method SaturationCtrl(e: seq<int>) returns (saturated: bool)
      requires |e| == 10
      modifies this`lv
      ensures saturated == Saturated(old(lv), e) && lv == AgcLevels.SaturationCtrl(old(lv), e)
    {
      var sum := lv.envSum;
      for i := 0 to 10
        invariant sum == EnvSum(lv.envSum, e, i)
      {
        var tmpW16 := ToInt16(e[i] / 0x10_0000);
        if tmpW16 > 875 { sum := ToInt16(sum + tmpW16); }
      }
      saturated := sum > 25000;
      if saturated { sum := 0; }
      lv := lv.(envSum := ToInt16(sum * 32440 / 0x8000));
    }

    /** `WebRtcAgc_ZeroCtrl`. */
    method ZeroCtrl(inMicLevel: int, e: seq<int>) returns (level: int)
      requires |e| == 10
      modifies this`lv
      ensures level == ZeroLevel(old(lv), inMicLevel, e) && lv == AgcLevels.ZeroCtrl(old(lv), inMicLevel, e)
    {
      level := inMicLevel;
      var tmp := 0;
      for i := 0 to 10
        invariant tmp == SumOf(e[..i])
      {
        assert e[..i + 1][..i] == e[..i];
        tmp := tmp + e[i];
      }
      assert e[..10] == e;
      if tmp < 500 { lv := lv.(msZero := lv.msZero + 10); } else { lv := lv.(msZero := 0); }
      if lv.muteGuardMs > 0 { lv := lv.(muteGuardMs := lv.muteGuardMs - 10); }
      if lv.msZero > 500 {
        lv := lv.(msZero := 0);
        var midVal := Quot(lv.maxAnalog + lv.minLevel + 1, 2);
        if level < midVal {
          level := 1126 * level / 0x400;
          level := Min(level, lv.zeroCtrlMax);
          lv := lv.(micVol := level);
        }
        lv := lv.(activeSpeech := 0, lpMax := 0);
        lv := lv.(muteGuardMs := MUTE_GUARD_TIME_MS);
      }
    }

    /** `WebRtcAgc_SpeakerInactiveCtrl`. */
    method SpeakerInactiveCtrl(stdLongTerm: int)
      modifies this`lv
      ensures lv == SpeakerInactive(old(lv), stdLongTerm)
    {
      if stdLongTerm < 2500 {
        lv := lv.(vadThreshold := 1500);
      } else {
        var vadThresh := 400;
        if stdLongTerm < 4500 { vadThresh := vadThresh + Quot(4500 - stdLongTerm, 2); }
        lv := lv.(vadThreshold := ToInt16((vadThresh + 31 * lv.vadThreshold) / 32));
      }
    }

    /** What the call works with, out of the level the caller reports. */
    method AdoptLevel(inMicLevel: int) returns (level: int)
      modifies this`lv
      ensures lv == Adopt(old(lv), inMicLevel) && level == lv.micVol
    {
      var s := lv;
      level := inMicLevel;
      if !s.firstCall {
        var tmpVol := s.minLevel + (s.maxLevel - s.minLevel) * 51 / 512;
        if level < tmpVol && s.agcMode == ADAPTIVE_ANALOG { level := tmpVol; }
        s := s.(firstCall := true, micVol := level);
      }
      if level == s.maxAnalog && s.micVol > s.maxAnalog { level := s.micVol; }
      if level != s.micVol && level < s.minOutput {
        level := s.minLevel + (s.maxLevel - s.minLevel) * 51 / 512;
        s := s.(micVol := level);
      }
      if level != s.micVol {
        if inMicLevel == s.lastInMicLevel {
          level := s.micVol;
        } else {
          s := s.(micVol := level);
        }
      }
      if level > s.maxLevel { s := s.(maxLevel := level); }
      s := s.(lastInMicLevel := inMicLevel);
      lv := s;
    }

    /** The volume goes down at once when the signal was saturated. */
    method LowerSaturated(level: int, last: int)
      requires level == lv.micVol
      modifies this`lv
      ensures lv == Saturate(old(lv), last)
    {
      var s := lv.(lp160 := Quot(lv.lp160, 8) * 7);
      s := s.(zeroCtrlMax := s.micVol);
      var vol := LowerBy(29591, level, s.minLevel, last, 2);
      s := s.(micVol := vol, msTooHigh := -100, activeSpeech := 0, lpMax := 0);
      s := s.(inner := MSEC_SPEECH_INNER, outer := MSEC_SPEECH_OUTER, slow := 0, muteGuardMs := 0);
      lv := s.(upper := START_UPPER, lower := START_LOWER);
    }

    method FarTooHigh(inMicLevelTmp: int, last: int) returns (level: int)
      requires Region(lv) == 0
      modifies this`lv
      ensures lv == TooHigh(old(lv), inMicLevelTmp, last, true)
      ensures level == if Moves(old(lv)) then lv.micVol else inMicLevelTmp
    {
      hide Lowered;
      level := inMicLevelTmp;
      var s := lv.(msTooHigh := lv.msTooHigh + 2, msTooLow := 0, slow := 0);
      if s.msTooHigh > s.outer {
        s := s.(msTooHigh := 0, lp160 := s.lp160 / 64 * 53);
        var max := ReduceMax(s);
        s := s.(maxLevel := max);
        s := s.(zeroCtrlMax := s.micVol);
        level := LowerBy(31130, level, s.minLevel, last, 1);
        s := s.(micVol := level, activeSpeech := 0, lpMax := 0);
      }
      lv := s;
    }

    method NearTooHigh(inMicLevelTmp: int, last: int) returns (level: int)
      requires Region(lv) == 1
      modifies this`lv
      ensures lv == TooHigh(old(lv), inMicLevelTmp, last, false)
      ensures level == if Moves(old(lv)) then lv.micVol else inMicLevelTmp
    {
      hide Lowered;
      level := inMicLevelTmp;
      var s := lv.(msTooHigh := lv.msTooHigh + 2, msTooLow := 0, slow := 0);
      if s.msTooHigh > s.inner {
        s := s.(msTooHigh := 0, lp160 := Quot(s.lp160, 64) * 53);
        var max := ReduceMax(s);
        s := s.(maxLevel := max);
        s := s.(zeroCtrlMax := s.micVol);
        level := LowerBy(31621, level, s.minLevel, last, 1);
        s := s.(micVol := level);
      }
      lv := s;
    }

    method FarTooLow(inMicLevelTmp: int, last: int) returns (level: int)
      requires Region(lv) == 2
      modifies this`lv
      ensures lv == TooLow(old(lv), inMicLevelTmp, last, true)
      ensures level == if Moves(old(lv)) then lv.micVol else inMicLevelTmp
    {
      hide U32, Quot, ExpCurve, ToInt16, Raised;
      level := inMicLevelTmp;
      var s := lv.(msTooHigh := 0, slow := 0, msTooLow := lv.msTooLow + 2);
      if s.msTooLow > s.outer {
        s := s.(msTooLow := 0);
        var weightFIX := Weight(s, level, OFFSET1, SLOPE1);
        s := s.(lp160 := Quot(s.lp160, 64) * 67);
        level := RaiseBy(weightFIX, level, s.minLevel, last, 2);
        s := s.(micVol := level);
      }
      lv := s;
    }

    method NearTooLow(inMicLevelTmp: int, last: int) returns (level: int)
      requires Region(lv) == 3
      modifies this`lv
      ensures lv == TooLow(old(lv), inMicLevelTmp, last, false)
      ensures level == if Moves(old(lv)) then lv.micVol else inMicLevelTmp
    {
      hide U32, Quot, ExpCurve, ToInt16, Raised;
      level := inMicLevelTmp;
      var s := lv.(msTooHigh := 0, slow := 0, msTooLow := lv.msTooLow + 2);
      if s.msTooLow > s.inner {
        s := s.(msTooLow := 0);
        var weightFIX := Weight(s, level, OFFSET2, SLOPE2);
        s := s.(lp160 := Quot(s.lp160, 64) * 67);
        level := RaiseBy(weightFIX, level, s.minLevel, last, 1);
        s := s.(micVol := level);
      }
      lv := s;
    }

    /** What one block of a speech frame does to the volume. */
    method AdaptBlock(inMicLevelTmp: int, last: int) returns (level: int)
      modifies this`lv
      ensures lv == Adapted(old(lv), inMicLevelTmp, last)
      ensures level == if Moves(old(lv)) then lv.micVol else inMicLevelTmp
    {
      hide TooHigh, TooLow;
      if lv.lp160 > UPPER_SECONDARY {
        level := FarTooHigh(inMicLevelTmp, last);
      } else if lv.lp160 > lv.upper {
        level := NearTooHigh(inMicLevelTmp, last);
      } else if lv.lp160 < LOWER_SECONDARY {
        level := FarTooLow(inMicLevelTmp, last);
      } else if lv.lp160 < lv.lower {
        level := NearTooLow(inMicLevelTmp, last);
      } else {
        level := inMicLevelTmp;
        var s := lv;
        if s.slow > 4000 {
          s := s.(inner := 1000, outer := 500, upper := UPPER_PRIMARY, lower := LOWER_PRIMARY);
        } else {
          s := s.(slow := s.slow + 2);
        }
        lv := s.(msTooLow := 0, msTooHigh := 0, micVol := level);
      }
    }

    /** One of the five blocks of a frame. */
    method OneBlock(inMicLevelTmp: int, last: int, Rxx16w32: int, vadLogRatio: int) returns (level: int)
      requires |lv.ring| == RXX_BUFFER_LEN && lv.pos < RXX_BUFFER_LEN
      modifies this`lv
      ensures |lv.ring| == RXX_BUFFER_LEN && lv.pos < RXX_BUFFER_LEN
      ensures Working(lv, level) == Block(Working(old(lv), inMicLevelTmp), last, Rxx16w32, vadLogRatio)
    {
      hide Adapted, Moves;
      BlockRing(Working(lv, inMicLevelTmp), last, Rxx16w32, vadLogRatio);
      var s := lv;
      var tmp32 := (Rxx16w32 - s.ring[s.pos]) / 8;
      s := s.(rxx160 := s.rxx160 + tmp32, ring := s.ring[s.pos := Rxx16w32]);
      s := s.(pos := s.pos + 1);
      if s.pos == RXX_BUFFER_LEN { s := s.(pos := 0); }
      tmp32 := (Rxx16w32 - s.lp16) / 64;
      s := s.(lp16 := s.lp16 + tmp32);
      level := inMicLevelTmp;
      if vadLogRatio > s.vadThreshold {
        if s.activeSpeech < 250 {
          s := s.(activeSpeech := s.activeSpeech + 2);
          if s.lp16 > s.lpMax { s := s.(lpMax := s.lp16); }
        } else if s.activeSpeech == 250 {
          s := s.(activeSpeech := s.activeSpeech + 2);
          s := s.(lp160 := s.lpMax / 8 * RXX_BUFFER_LEN);
        }
        tmp32 := (s.rxx160 - s.lp160) / 0x400;
        s := s.(lp160 := s.lp160 + tmp32);
        lv := s;
        level := AdaptBlock(level, last);
      } else {
        lv := s;
      }
    }

    ghost function Row(q: nat): (e: seq<int>)
      requires q < env.Length0 && env.Length1 == 10
      reads env
      ensures |e| == 10 && forall k :: 0 <= k < 10 ==> e[k] == env[q, k]
    {
      seq(10, k requires 0 <= k < 10 reads env => env[q, k])
    }

    method OldestFrame() returns (e: seq<int>)
      requires env.Length0 == 2 && env.Length1 == 10
      ensures e == Row(0)
    {
      e := [];
      for k := 0 to 10
        invariant |e| == k && forall i :: 0 <= i < k ==> e[i] == env[0, i]
      {
        e := e + [env[0, k]];
      }
    }

    /** The call before it looks at the blocks. */
    method Prepare(inMicLevel: int, e: seq<int>, stdLongTerm: int, ghost x: Input)
      returns (level: int, lastMicVol: int, saturationWarning: bool)
      requires Proper(x) && e == x.env && stdLongTerm == x.stdLongTerm
      modifies this`lv
      ensures Working(lv, level) == Prepared(old(lv), inMicLevel, x) && lastMicVol == Adopted(old(lv), inMicLevel)
      ensures lv.ring == old(lv).ring && lv.pos == old(lv).pos
      ensures var a := Adopt(old(lv), inMicLevel);
              saturationWarning <==> Saturated(a, e) && Saturate(a, a.micVol).micVol < a.minOutput
    {
      hide Adopted, Saturated, ZeroLevel, AgcLevels.ZeroCtrl, SpeakerInactive, EnvSum, Lowered;
      PreparedRing(lv, inMicLevel, x);
      level := AdoptLevel(inMicLevel);
      lastMicVol := lv.micVol;
      saturationWarning := false;
      var saturated := SaturationCtrl(e);
      if saturated {
        LowerSaturated(level, lastMicVol);
        level := lv.micVol;
        if lv.micVol < lv.minOutput { saturationWarning := true; }
      }
      level := ZeroCtrl(level, e);
      SpeakerInactiveCtrl(stdLongTerm);
    }

    method AllBlocks(inMicLevelTmp: int, lastMicVol: int, rxx: seq<int>, vadLogRatio: int) returns (level: int)
      requires |lv.ring| == RXX_BUFFER_LEN && lv.pos < RXX_BUFFER_LEN && |rxx| == 5
      modifies this`lv
      ensures Working(lv, level) == Blocks(Working(old(lv), inMicLevelTmp), lastMicVol, rxx, vadLogRatio)
    {
      hide Block;
      level := inMicLevelTmp;
      ghost var all := Working(lv, level);
      for i := 0 to 5
        invariant |lv.ring| == RXX_BUFFER_LEN && lv.pos < RXX_BUFFER_LEN
        invariant Blocks(all, lastMicVol, rxx, vadLogRatio) == Blocks(Working(lv, level), lastMicVol, rxx[i..], vadLogRatio)
      {
        assert rxx[i..][0] == rxx[i] && rxx[i..][1..] == rxx[i + 1..];
        level := OneBlock(level, lastMicVol, rxx[i], vadLogRatio);
      }
    }

    method LimitGain(lastMicVol: int, echo: bool)
      modifies this`lv
      ensures lv == Limited(old(lv), lastMicVol, echo)
    {
      if echo || (lv.muteGuardMs > 0 && lv.muteGuardMs < MUTE_GUARD_TIME_MS) {
        if lv.micVol > lastMicVol { lv := lv.(micVol := lastMicVol); }
      }
      if lv.micVol > lv.maxLevel {
        lv := lv.(micVol := lv.maxLevel);
      } else if lv.micVol < lv.minOutput {
        lv := lv.(micVol := lv.minOutput);
      }
    }

    /** `WebRtcAgc_ProcessAnalog`. The energies of the blocks and what the voice activity detector
        found are given. */
    method ProcessAnalog(inMicLevel: int, rxx: seq<int>, stdLongTerm: int, vadLogRatio: int, echo: bool)
      returns (ret: int, outMicLevel: int, saturationWarning: bool)
      requires Valid() && |rxx| == 5
      modifies this`lv
      ensures Valid()
      ensures ret == if Accepted(old(lv), inMicLevel) then 0 else -1
      ensures ret == -1 ==> lv == old(lv)
      ensures ret == 0 ==>
        && lv == Process(old(lv), inMicLevel, Input(Row(0), rxx, stdLongTerm, vadLogRatio, echo))
        && outMicLevel == OutLevel(lv)
        && lv.minOutput <= lv.micVol <= lv.maxLevel && lv.minOutput <= outMicLevel <= lv.maxAnalog
    {
      hide Prepared, Blocks, Limited, Inv, Adopted, Saturated;
      if inMicLevel > lv.maxAnalog {
        return -1, 0, false;
      } else if inMicLevel < lv.minLevel {
        return -1, 0, false;
      }
      var e := OldestFrame();
      ghost var x := Input(e, rxx, stdLongTerm, vadLogRatio, echo);
      ProcessKeeps(lv, inMicLevel, x);
      var level, lastMicVol;
      level, lastMicVol, saturationWarning := Prepare(inMicLevel, e, stdLongTerm, x);
      level := AllBlocks(level, lastMicVol, rxx, vadLogRatio);
      LimitGain(lastMicVol, echo);
      outMicLevel := Min(lv.micVol, lv.maxAnalog);
      ret := 0;
    }

    /** `WebRtcAgc_AddMic`: a volume beyond the analog range becomes a digital gain, and the loudest
        sample of every subframe goes into the queue. */
    method AddMic(in_mic: array2<Int16>) returns (ret: int)
      requires Valid() && in_mic.Length0 >= 1
      modifies this`gainTableIdx, this`inQueue, in_mic, env
      ensures Valid()
      ensures ret == if in_mic.Length1 == (if fs == 8000 then 80 else 160) then 0 else -1
      ensures ret == -1 ==> gainTableIdx == old(gainTableIdx) && inQueue == old(inQueue)
      ensures ret == -1 ==> forall j, i :: 0 <= j < in_mic.Length0 && 0 <= i < in_mic.Length1 ==>
        in_mic[j, i] == old(in_mic[j, i])
      ensures ret == 0 ==>
        && gainTableIdx == MicIdx(lv, old(gainTableIdx)) && inQueue == (if old(inQueue) == 0 then 1 else 2)
        && (forall j, i :: 0 <= j < in_mic.Length0 && 0 <= i < in_mic.Length1 ==>
              in_mic[j, i] == MicSample(lv, gainTableIdx, old(in_mic[j, i])))
        && (forall q, k :: q == (if old(inQueue) > 0 then 1 else 0) && 0 <= k < 10 ==>
              Loudest(in_mic, k * (if fs == 8000 then 8 else 16), if fs == 8000 then 8 else 16, env[q, k]))
    {
      hide Inv, MicIdx, TargetIdx, Loudest;
      var samples, L := in_mic.Length1, 0;
      if fs == 8000 {
        L := 8;
        if samples != 80 { return -1; }
      } else {
        L := 16;
        if samples != 160 { return -1; }
      }
      MicIdxInTable(lv, gainTableIdx);
      StepGainIdx();
      if lv.micVol > lv.maxAnalog {
        ApplyGain(in_mic, GAIN_ANALOG[gainTableIdx]);
      }
      FillEnvelope(in_mic, L, if inQueue > 0 then 1 else 0);
      inQueue := if inQueue == 0 then 1 else 2;
      ret := 0;
    }

    /** The loudest sample of each of the ten subframes. */
    method FillEnvelope(in_mic: array2<Int16>, L: nat, q: nat)
      requires Envelopes() && q < 2 && in_mic.Length0 >= 1 && in_mic.Length1 == 10 * L && (L == 8 || L == 16)
      modifies env
      ensures Envelopes() && forall k :: 0 <= k < 10 ==> Loudest(in_mic, k * L, L, env[q, k])
    {
      hide Loudest;
      for k := 0 to 10
        invariant Envelopes()
        invariant forall m :: 0 <= m < k ==> Loudest(in_mic, m * L, L, env[q, m])
      {
        var max_nrg := MaxEnergy(in_mic, k * L, L);
        EnergySmall(in_mic, k * L, L, max_nrg);
        env[q, k] := max_nrg;
      }
    }

    /** The index goes one step towards its target. */
    method StepGainIdx()
      requires Valid()
      modifies this`gainTableIdx
      ensures gainTableIdx == MicIdx(lv, old(gainTableIdx)) && gainTableIdx < 32
    {
      MicIdxInTable(lv, gainTableIdx);
      if lv.micVol > lv.maxAnalog {
        var tmp16 := ToInt16(lv.micVol - lv.maxAnalog);
        var tmp32 := 31 * tmp16;
        tmp16 := ToInt16(lv.maxLevel - lv.maxAnalog);
        var targetGainIdx := Quot(tmp32, tmp16);
        if gainTableIdx < targetGainIdx {
          gainTableIdx := gainTableIdx + 1;
        } else if gainTableIdx > targetGainIdx {
          gainTableIdx := gainTableIdx - 1;
        }
      } else {
        gainTableIdx := 0;
      }
    }

    /** `WebRtcAgc_VirtualMic` in the adaptive digital mode. */
    method VirtualMic(in_near: array2<Int16>, micLevelIn: int) returns (ret: int, micLevelOut: int)
      requires Valid() && lv.minLevel == 0 && lv.maxAnalog == 255 && in_near.Length0 >= 1
      modifies this, in_near, env
      ensures Valid() && 0 <= micLevelOut <= 255 && micGainIdx == micLevelOut
      ensures micRef == micLevelIn
      ensures lv == if micLevelIn == old(micRef) then old(lv) else Next(old(lv), Restarted)
      ensures micLevelOut <= lv.micVol && (micLevelOut >= 126 || micLevelOut == lv.micVol)
      ensures ret == (if in_near.Length1 == (if fs == 8000 then 80 else 160) then 0 else -1)
      ensures var start := StartIdx(old(lv), micLevelIn != old(micRef));
              var v, xs := Virtual(start, FirstGain(start)), old(Band(in_near));
              && micLevelOut == Along(v, xs, |xs|).idx
              && (forall i :: 0 <= i < |xs| ==>
                    in_near[0, i] == Sent(lv, gainTableIdx, ret, Scaled(xs[i], Along(v, xs, i).gain)))
              && (forall j, i :: 0 < j < in_near.Length0 && 0 <= i < |xs| ==>
                    in_near[j, i] == Sent(lv, gainTableIdx, ret, Scaled(old(in_near[j, i]), Along(v, xs, i + 1).gain)))
    {
      hide MicIdx, Loudest, MicSample, Along, FirstGain, Scaled;
      var gainIdx := lv.micVol;
      if lv.micVol > lv.maxAnalog { gainIdx := lv.maxAnalog; }
      if micLevelIn != micRef {
        micRef := micLevelIn;
        lv := lv.(micVol := 127);
        micGainIdx := 127;
        gainIdx := 127;
      }
      micLevelOut := VirtualGain(in_near, gainIdx);
      micGainIdx := micLevelOut;
      var r := AddMic(in_near);
      ret := if r != 0 then -1 else 0;
    }

    /** What `WebRtcAgc_Process` does behind the digital part: the level control, and the queue
        moves on. */
    method ProcessQueue(inMicLevel: int, rxx: seq<int>, stdLongTerm: int, vadLogRatio: int, echo: bool, lowLevelSignal: bool)
      returns (ret: int, outMicLevel: int, saturationWarning: bool)
      requires Valid() && |rxx| == 5
      modifies this`lv, this`inQueue, env
      ensures Valid()
      ensures var run := old(lv).agcMode < FIXED_DIGITAL && (!lowLevelSignal || old(lv).agcMode != ADAPTIVE_DIGITAL);
              && ret == (if run && !Accepted(old(lv), inMicLevel) then -1 else 0)
              && (run && ret == 0 ==>
                    && lv == Process(old(lv), inMicLevel, Input(old(Row(0)), rxx, stdLongTerm, vadLogRatio, echo))
                    && outMicLevel == OutLevel(lv) && lv.minOutput <= outMicLevel <= lv.maxAnalog)
              && (!run ==> lv == old(lv) && outMicLevel == inMicLevel)
              && (ret == -1 ==> lv == old(lv) && inQueue == old(inQueue))
      ensures ret == 0 ==> inQueue == if old(inQueue) > 0 then old(inQueue) - 1 else 0
      ensures ret == 0 ==> forall k :: 0 <= k < 10 ==> env[0, k] == old(if inQueue > 1 then env[1, k] else env[0, k])
    {
      hide Inv, Process;
      ret, outMicLevel, saturationWarning := 0, inMicLevel, false;
      ghost var mode := lv.agcMode;
      if lv.agcMode < FIXED_DIGITAL && (!lowLevelSignal || lv.agcMode != ADAPTIVE_DIGITAL) {
        ret, outMicLevel, saturationWarning := ProcessAnalog(inMicLevel, rxx, stdLongTerm, vadLogRatio, echo);
        if ret == -1 { return; }
      }
      if inQueue > 1 {
        forall k | 0 <= k < 10 { env[0, k] := env[1, k]; }
      }
      if inQueue > 0 { inQueue := inQueue - 1; }
    }
  }

  method LowerBy(factor: nat, level: int, minLevel: int, last: int, step: int) returns (vol: int)
    ensures vol == Lowered(factor, level, minLevel, last, step)
  {
    var tmp32 := level - minLevel;
    var tmpU32 := U32(factor * U32(tmp32));
    vol := tmpU32 / 0x8000 + minLevel;
    if vol > last - step { vol := last - step; }
  }

  method RaiseBy(weight: int, level: int, minLevel: int, last: int, step: int) returns (vol: int)
    ensures vol == Raised(weight, level, minLevel, last, step)
  {
    var tmpU32 := U32(U32(weight) * U32(level - minLevel));
    vol := tmpU32 / 0x4000 + minLevel;
    if vol < last + step { vol := last + step; }
  }

  /** The maximum goes a sixteenth of the way to the volume, but not into the analog range. */
  method ReduceMax(s: Levels) returns (max: int)
    ensures max == Reduced(s)
  {
    max := Quot(15 * s.maxLevel + s.micVol, 16);
    max := Max(max, s.maxAnalog);
  }

  /** A sample after `WebRtcAgc_AddMic`, with the gain in 12 binary places. */
  function MicSample(s: Levels, idx: nat, x: Int16): Int16
    requires idx < 32
  {
    if s.micVol > s.maxAnalog then Clamped(x * GAIN_ANALOG[idx] / 0x1000) else x
  }

  /** The index the virtual level starts from. */
  function StartIdx(s: Levels, restarted: bool): int {
    if restarted then 127 else if s.micVol > s.maxAnalog then s.maxAnalog else s.micVol
  }

  /** What becomes of a sample behind the virtual gain: `WebRtcAgc_AddMic` may refuse the frame. */
  function Sent(s: Levels, idx: nat, ret: int, x: Int16): Int16
    requires idx < 32
  {
    if ret == 0 then MicSample(s, idx, x) else x
  }

  /** `m` is the greatest square of the samples from `start` on. */
  ghost predicate Loudest(a: array2<Int16>, start: nat, n: nat, m: nat)
    requires a.Length0 >= 1 && start + n <= a.Length1
    reads a
  {
    && m <= 0x4000_0000
    && (forall i :: start <= i < start + n ==> a[0, i] as int * a[0, i] as int <= m)
    && (m == 0 || exists i :: start <= i < start + n && a[0, i] as int * a[0, i] as int == m)
  }

  lemma EnergySmall(a: array2<Int16>, start: nat, n: nat, m: nat)
    requires a.Length0 >= 1 && start + n <= a.Length1 && Loudest(a, start, n, m)
    ensures m <= 0x4000_0000
  {
  }

  method MaxEnergy(a: array2<Int16>, start: nat, n: nat) returns (max_nrg: nat)
    requires a.Length0 >= 1 && start + n <= a.Length1
    ensures Loudest(a, start, n, max_nrg)
  {
    max_nrg := 0;
    for i := 0 to n
      invariant max_nrg <= 0x4000_0000
      invariant forall k :: start <= k < start + i ==> a[0, k] as int * a[0, k] as int <= max_nrg
      invariant max_nrg == 0 || exists k :: start <= k < start + i && a[0, k] as int * a[0, k] as int == max_nrg
    {
      var nrg := Energy(a[0, start + i]);
      if nrg > max_nrg { max_nrg := nrg; }
    }
  }

  function Energy(x: Int16): (e: nat)
    ensures e == x * x && e <= 0x4000_0000
  {
    var y: int := x;
    EnergyBound(y);
    y * y
  }

  lemma EnergyBound(y: int)
    requires -0x8000 <= y <= 0x8000
    ensures 0 <= y * y <= 0x4000_0000
  {
    var z: nat := if y >= 0 then y else -y;
    assert z * z == y * y;
    LesserSquare(z, 0x8000);
  }

  lemma LesserSquare(z: nat, b: nat)
    requires z <= b
    ensures 0 <= z * z <= b * b
  {
    LesserProduct(z, b, z);
    LesserProduct(z, b, b);
  }

  lemma LesserProduct(z: nat, b: nat, k: nat)
    requires z <= b
    ensures 0 <= z * k <= b * k
  {
  }

  /** Every sample of every band, times the gain. */
  method ApplyGain(a: array2<Int16>, gain: nat)
    modifies a
    ensures forall j, i :: 0 <= j < a.Length0 && 0 <= i < a.Length1 ==> a[j, i] == Clamped(old(a[j, i]) * gain / 0x1000)
  {
    for i := 0 to a.Length1
      invariant forall j, k :: 0 <= j < a.Length0 && 0 <= k < a.Length1 ==>
        a[j, k] == if k < i then Clamped(old(a[j, k]) * gain / 0x1000) else old(a[j, k])
    {
      for j := 0 to a.Length0
        invariant forall m, k :: 0 <= m < a.Length0 && 0 <= k < a.Length1 ==>
          a[m, k] == if k < i || (k == i && m < j) then Clamped(old(a[m, k]) * gain / 0x1000) else old(a[m, k])
      {
        var sample := a[j, i] * gain / 0x1000;
        if sample > 32767 {
          a[j, i] := 32767;
        } else if sample < -32768 {
          a[j, i] := -32768;
        } else {
          a[j, i] := sample;
        }
      }
    }
  }

  /** The lowest band. */
  ghost function Band(a: array2<Int16>): (xs: seq<Int16>)
    requires a.Length0 >= 1
    reads a
    ensures |xs| == a.Length1 && forall i :: 0 <= i < |xs| ==> xs[i] == a[0, i]
  {
    seq(a.Length1, i requires 0 <= i < a.Length1 reads a => a[0, i])
  }

  /** The loop of `WebRtcAgc_VirtualMic`: the lowest band steers the gain of all bands. */
  method VirtualGain(a: array2<Int16>, start: int) returns (gainIdx: int)
    requires a.Length0 >= 1 && 0 <= start <= 255
    modifies a
    ensures var v, xs := Virtual(start, FirstGain(start)), old(Band(a));
            && Sound(v) && gainIdx == Along(v, xs, |xs|).idx
            && 0 <= gainIdx <= start && (gainIdx >= 126 || gainIdx == start)
            && (forall i :: 0 <= i < |xs| ==> a[0, i] == Scaled(xs[i], Along(v, xs, i).gain))
            && (forall j, i :: 0 < j < a.Length0 && 0 <= i < |xs| ==> a[j, i] == Scaled(old(a[j, i]), Along(v, xs, i + 1).gain))
  {
    hide Along, After, FirstGain, LaterGain, Sound, Scaled;
    ghost var v, xs := Virtual(start, FirstGain(start)), Band(a);
    FirstSound(start);
    AlongStart(v, xs);
    gainIdx := start;
    var gain := FirstGain(start);
    for ii := 0 to a.Length1
      invariant Virtual(gainIdx, gain) == Along(v, xs, ii)
      invariant forall j, i :: 0 <= j < a.Length0 && ii <= i < a.Length1 ==> a[j, i] == old(a[j, i])
      invariant forall i :: 0 <= i < ii ==> a[0, i] == Scaled(xs[i], Along(v, xs, i).gain)
      invariant forall j, i :: 0 < j < a.Length0 && 0 <= i < ii ==> a[j, i] == Scaled(old(a[j, i]), Along(v, xs, i + 1).gain)
    {
      var x;
      AlongStep(v, xs, ii);
      x, gainIdx, gain := VirtualStep(a[0, ii], gainIdx, gain);
      a[0, ii] := x;
      OtherBands(a, ii, gain);
    }
    AlongSound(v, xs, |xs|);
  }

  /** The other bands of one sample. */
  method OtherBands(a: array2<Int16>, ii: nat, gain: int)
    requires a.Length0 >= 1 && ii < a.Length1
    modifies a
    ensures forall j, i :: 0 <= j < a.Length0 && 0 <= i < a.Length1 ==>
      a[j, i] == if j > 0 && i == ii then Scaled(old(a[j, i]), gain) else old(a[j, i])
  {
    hide Scaled;
    for j := 1 to a.Length0
      invariant forall m, i :: 0 <= m < a.Length0 && 0 <= i < a.Length1 ==>
        a[m, i] == if 0 < m < j && i == ii then Scaled(old(a[m, i]), gain) else old(a[m, i])
    {
      var y := ScaleSample(a[j, ii], gain);
      a[j, ii] := y;
    }
  }

  /** One sample of the lowest band: where it clips, the gain steps down. */
  method VirtualStep(x: Int16, idx: int, gain: int) returns (tmpFlt: Int16, idx': int, gain': int)
    requires Sound(Virtual(idx, gain))
    ensures tmpFlt == Scaled(x, gain) && Virtual(idx', gain') == After(Virtual(idx, gain), x)
  {
    hide FirstGain, LaterGain;
    idx', gain' := idx, gain;
    var t := x * gain / 0x400;
    if t > 32767 {
      t := 32767;
      ClippingIndex(Virtual(idx, gain), x);
      idx' := idx - 1;
      gain' := LaterGain(idx');
    }
    if t < -32768 {
      t := -32768;
      ClippingIndex(Virtual(idx, gain), x);
      idx' := idx - 1;
      gain' := LaterGain(idx');
    }
    tmpFlt := t;
  }

  method ScaleSample(x: Int16, gain: int) returns (y: Int16)
    ensures y == Scaled(x, gain)
  {
    var t := x * gain / 0x400;
    if t > 32767 { t := 32767; }
    if t < -32768 { t := -32768; }
    y := t;
  }
}
