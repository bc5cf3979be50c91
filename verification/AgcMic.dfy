/** The digital gains that stand in for a microphone volume beyond its range:
    `WebRtcAgc_AddMic` and `WebRtcAgc_VirtualMic` of `gbcom_common/agc/agc.c`, as functions. */
module AgcMic {
  import opened AgcTables
  import opened AgcLevels

  type Int16 = x: int | -0x8000 <= x < 0x8000

  function Clamped(x: int): Int16 {
    if x > 0x7FFF then 0x7FFF else if x < -0x8000 then -0x8000 else x
  }

  // ---------- the gain of WebRtcAgc_AddMic ----------

  /** Where in the table the gain should be, for a volume beyond the analog range. */
  function TargetIdx(s: Levels): int
    requires s.maxLevel > s.maxAnalog
  {
    Quot(31 * (s.micVol - s.maxAnalog), s.maxLevel - s.maxAnalog)
  }

  /** One step towards the target, or back to the start. */
  function MicIdx(s: Levels, idx: nat): int {
    if s.micVol <= s.maxAnalog then 0
    else if s.maxLevel <= s.maxAnalog then 0
    else if idx < TargetIdx(s) then idx + 1
    else if idx > TargetIdx(s) then idx - 1
    else idx
  }

  /** What `WebRtcAgc_AddMic` asserts and takes for granted: no division by zero, no value beyond 16
      bits, and an index inside the table. */
  lemma MicIdxInTable(s: Levels, idx: nat)
    requires Inv(s) && idx < 32
    ensures 0 <= MicIdx(s, idx) < 32
    ensures s.micVol > s.maxAnalog ==>
      && 0 < s.micVol - s.maxAnalog < 0x8000 && 0 < s.maxLevel - s.maxAnalog < 0x8000
      && 0 <= TargetIdx(s) < 32
  {
    if s.micVol > s.maxAnalog {
      Share(s.micVol - s.maxAnalog, s.maxLevel - s.maxAnalog);
    }
  }

  lemma Share(x: int, d: int)
    requires 0 <= x <= d && d > 0
    ensures 0 <= 31 * x / d <= 31
  {
    if 31 * x / d > 31 {
      Above(31 * x, d);
    }
  }

  lemma Above(x: int, d: int)
    requires d > 0 && x <= 31 * d
    ensures x / d <= 31
  {
  }

  // ---------- the gain of WebRtcAgc_VirtualMic ----------

  /** The index of the gain and the gain in use. */
  datatype Virtual = Virtual(idx: int, gain: int)

  /** The gain a frame starts with. */
  function FirstGain(idx: int): int
    requires 0 <= idx <= 255
  {
    if idx > 127 then GAIN_VIRTUAL[idx - 128] else SUPPRESSION_VIRTUAL[127 - idx]
  }

  /** The gain after a step down, which reads the table one entry further on. */
  function LaterGain(idx: int): int
    requires 0 <= idx <= 254
  {
    if idx >= 127 then GAIN_VIRTUAL[idx - 127] else SUPPRESSION_VIRTUAL[127 - idx]
  }

  predicate Clips(v: Virtual, x: int) {
    x * v.gain / 0x400 > 0x7FFF || x * v.gain / 0x400 < -0x8000
  }

  /** A gain that can clip belongs to an index that can go down. */
  ghost predicate Sound(v: Virtual) {
    0 <= v.idx <= 255 && 0 <= v.gain && (v.gain <= 1024 || v.idx >= 127)
  }

  lemma FirstSound(idx: int)
    requires 0 <= idx <= 255
    ensures Sound(Virtual(idx, FirstGain(idx)))
  {
  }

  /** A suppressed sample fits. */
  lemma NoClip(x: Int16, gain: int)
    requires 0 <= gain <= 1024
    ensures -0x8000 <= x * gain / 0x400 <= 0x7FFF
  {
    var y: int := x;
    if y >= 0 {
      Smaller(y, gain);
    } else {
      Smaller(-y, gain);
      assert y * gain == -((-y) * gain);
    }
  }

  lemma Smaller(x: nat, gain: nat)
    requires gain <= 1024
    ensures x * gain <= x * 1024
  {
  }

  /** The gain behind sample x. */
  function After(v: Virtual, x: Int16): (r: Virtual)
    requires Sound(v)
    ensures Sound(r) && r.idx <= v.idx && (r.idx >= 126 || r.idx == v.idx)
  {
    if Clips(v, x) then
      ClippingIndex(v, x);
      LaterSound(v.idx - 1);
      Virtual(v.idx - 1, LaterGain(v.idx - 1))
    else v
  }

  /** Only a gain above one clips, so the index is 127 at least. */
  lemma ClippingIndex(v: Virtual, x: Int16)
    requires Sound(v) && Clips(v, x)
    ensures v.idx >= 127
  {
    if v.gain <= 1024 { NoClip(x, v.gain); }
  }

  lemma LaterSound(idx: int)
    requires 126 <= idx <= 254
    ensures Sound(Virtual(idx, LaterGain(idx)))
  {
  }

  /** The gain behind the first i samples of the lowest band. */
  function Along(v: Virtual, xs: seq<Int16>, i: nat): (r: Virtual)
    requires Sound(v) && i <= |xs|
    ensures Sound(r) && r.idx <= v.idx && (r.idx >= 126 || r.idx == v.idx)
  {
    if i == 0 then v else After(Along(v, xs, i - 1), xs[i - 1])
  }

  lemma AlongStart(v: Virtual, xs: seq<Int16>)
    requires Sound(v)
    ensures Along(v, xs, 0) == v
  {
  }

  lemma AlongStep(v: Virtual, xs: seq<Int16>, i: nat)
    requires Sound(v) && i < |xs|
    ensures Along(v, xs, i + 1) == After(Along(v, xs, i), xs[i])
  {
  }

  lemma AlongSound(v: Virtual, xs: seq<Int16>, i: nat)
    requires Sound(v) && i <= |xs|
    ensures 0 <= Along(v, xs, i).idx <= v.idx && (Along(v, xs, i).idx >= 126 || Along(v, xs, i).idx == v.idx)
  {
  }

  function Scaled(x: Int16, gain: int): Int16 {
    Clamped(x * gain / 0x400)
  }
}
