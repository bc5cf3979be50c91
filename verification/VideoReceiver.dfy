/** The receive loop of `video_packet_recv` in `video/video_data_recv.cc`: it looks for start codes
    in the packets and puts video frames together. */
module VideoReceiver {
  import opened CText

  const FRAG_HEAD: Text := [0, 0, 0, 1]
  const PPS_FRAG := 0x67
  const SPS_FRAG := 0x68
  const PACKET_LEN_MAX := 2048
  const MAX_SIZE := 2 * 1024 * 1024

  /** What the loop carries from one packet to the next. Both buffers keep their old bytes behind
      what was written last. */
  datatype State = State(packet: Text, frag: Text, offset: nat, started: bool, gop: bool, idr: bool, saved: seq<Text>)

  ghost predicate Sound(s: State) {
    |s.packet| == PACKET_LEN_MAX && |s.frag| == MAX_SIZE && s.offset <= MAX_SIZE
  }

  function Overlaid(buf: Text, at: nat, data: Text): (r: Text)
    requires at + |data| <= |buf|
    ensures |r| == |buf|
  {
    buf[..at] + data + buf[at + |data|..]
  }

  predicate IsKey(kind: Byte) {
    kind == SPS_FRAG || kind == PPS_FRAG
  }

  /** One packet of the loop, empty ones included. */
  function Step(s: State, c: Text): (r: State)
    requires Sound(s) && |c| <= PACKET_LEN_MAX
    ensures Sound(r)
  {
    if c == [] then s
    else
      var p := Overlaid(s.packet, 0, c);
      if !s.gop && !(p[..4] == FRAG_HEAD && IsKey(p[4])) then s.(packet := p)
      else Taken(s.(packet := p, gop := true), c, p[..4] == FRAG_HEAD)
  }

  /** A packet behind the first parameter set; `head` says that the packet buffer starts with a
      start code. */
  function Taken(s: State, c: Text, head: bool): (r: State)
    requires Sound(s) && |c| <= PACKET_LEN_MAX
    ensures Sound(r)
  {
    if !head then
      if s.offset + |c| > MAX_SIZE then s.(offset := 0, started := false)
      else s.(frag := Overlaid(s.frag, s.offset, c), offset := s.offset + |c|)
    else if !s.started || s.offset == 0 then
      s.(started := true, offset := |c|, frag := Overlaid(s.frag, 0, c))
    else if s.frag[4] == PPS_FRAG && !s.idr && s.offset < 1024 then
      s.(idr := true, frag := Overlaid(s.frag, s.offset, c), offset := s.offset + |c|)
    else
      s.(idr := false, saved := s.saved + [s.frag[..s.offset]], offset := |c|, frag := Overlaid(s.frag, 0, c))
  }

  function Run(s: State, cs: seq<Text>): (r: State)
    requires Sound(s) && forall c <- cs :: |c| <= PACKET_LEN_MAX
    ensures Sound(r)
    decreases |cs|
  {
    if cs == [] then s else Run(Step(s, cs[0]), cs[1..])
  }

  lemma {:induction false} RunAppend(s: State, cs: seq<Text>, ds: seq<Text>)
    requires Sound(s) && (forall c <- cs :: |c| <= PACKET_LEN_MAX) && (forall c <- ds :: |c| <= PACKET_LEN_MAX)
    ensures Run(s, cs + ds) == Run(Run(s, cs), ds)
    decreases |cs|
  {
    hide Step, Sound;
    if cs == [] {
      assert cs + ds == ds;
    } else {
      assert (cs + ds)[1..] == cs[1..] + ds;
      RunAppend(Step(s, cs[0]), cs[1..], ds);
    }
  }

  class Receiver {
    const packet_data: array<Byte>
    const frag_data: array<Byte>
    var frag_data_offset: nat
    var start_flag: bool
    var first_gop: bool
    var idr_start: bool
    var saved: seq<Text>

    ghost predicate Valid()
      reads this
    {
      packet_data != frag_data && packet_data.Length == PACKET_LEN_MAX && frag_data.Length == MAX_SIZE
      && frag_data_offset <= MAX_SIZE
    }

    ghost function Abs(): (s: State)
      requires Valid()
      reads this, packet_data, frag_data
      ensures Sound(s)
    {
      State(packet_data[..], frag_data[..], frag_data_offset, start_flag, first_gop, idr_start, saved)
    }

    constructor ()
      ensures Valid() && fresh(packet_data) && fresh(frag_data)
      ensures !start_flag && !first_gop && !idr_start && frag_data_offset == 0 && saved == []
    {
      packet_data := new Byte[PACKET_LEN_MAX];
      frag_data := new Byte[MAX_SIZE];
      frag_data_offset := 0;
      start_flag, first_gop, idr_start, saved := false, false, false, [];
    }

    /** The body of the loop, for the packet `data` that was dequeued. */
    method Receive(data: Text)
      requires Valid() && |data| <= PACKET_LEN_MAX
      modifies this, packet_data, frag_data
      ensures Valid() && Abs() == Step(old(Abs()), data)
    {
      hide Overlaid;
      if data == [] { return; }
      Copy(packet_data, 0, data);
      if !first_gop {
        if packet_data[..4] != FRAG_HEAD { return; }
        var pkt_type := packet_data[4];
        if pkt_type == SPS_FRAG || pkt_type == PPS_FRAG {
          first_gop := true;
        } else {
          return;
        }
      }
      if packet_data[..4] != FRAG_HEAD {
        if frag_data_offset + |data| > MAX_SIZE {
          frag_data_offset := 0;
          start_flag := false;
          return;
        }
        Copy(frag_data, frag_data_offset, data);
        frag_data_offset := frag_data_offset + |data|;
        return;
      }
      if !start_flag || frag_data_offset == 0 {
        start_flag := true;
        frag_data_offset := |data|;
        Copy(frag_data, 0, data);
        return;
      }
      var pkt_type := frag_data[4];
      if pkt_type == PPS_FRAG && !idr_start && frag_data_offset < 1024 {
        idr_start := true;
        Copy(frag_data, frag_data_offset, data);
        frag_data_offset := frag_data_offset + |data|;
        return;
      }
      idr_start := false;
      saved := saved + [frag_data[..frag_data_offset]];
      start_flag := true;
      frag_data_offset := |data|;
      Copy(frag_data, 0, data);
    }

    /** The loop. */
    method ReceiveAll(packets: seq<Text>)
      requires Valid() && forall c <- packets :: |c| <= PACKET_LEN_MAX
      modifies this, packet_data, frag_data
      ensures Valid() && Abs() == Run(old(Abs()), packets)
    {
      hide Step, Sound;
      ghost var s0 := Abs();
      for i := 0 to |packets|
        invariant Valid() && Run(s0, packets) == Run(Abs(), packets[i..])
      {
        assert packets[i..][1..] == packets[i + 1..];
        Receive(packets[i]);
      }
    }
  }

  /** `memcpy` into a buffer. */
  method Copy(dst: array<Byte>, at: nat, src: Text)
    requires at + |src| <= dst.Length
    modifies dst
    ensures dst[..] == Overlaid(old(dst[..]), at, src)
  {
    forall k | 0 <= k < |src| {
      dst[at + k] := src[k];
    }
  }
}
