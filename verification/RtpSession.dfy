/** The sending side of `gbcom_common/comm/rtp_session.c` and `rtp_session_thread.c`: a frame is cut
    into queue items, and an item into packets. */
module RtpSession {
  import opened CText

  const MESH_RTP_VERSION := 3
  const RTP_PAYLOAD_MAX_SIZE := 1300

  /** What a header says, and the payload. */
  datatype Packet = Packet(v: nat, pt: nat, sn: nat, m: bool, payload: Text)

  /** The pieces of p bytes, and what is left. */
  function Chunks(data: Text, p: nat): (cs: seq<Text>)
    requires p > 0
    ensures data == [] <==> cs == []
    decreases |data|
  {
    if data == [] then []
    else if |data| <= p then [data]
    else [data[..p]] + Chunks(data[p..], p)
  }

  function Joined(cs: seq<Text>): Text {
    if cs == [] then [] else cs[0] + Joined(cs[1..])
  }

  /** The pieces put together are the data. */
  lemma {:induction false} ChunksJoined(data: Text, p: nat)
    requires p > 0
    ensures Joined(Chunks(data, p)) == data
    decreases |data|
  {
    if |data| > p {
      ChunksJoined(data[p..], p);
      var cs := Chunks(data[p..], p);
      assert ([data[..p]] + cs)[1..] == cs;
    }
  }

  /** Every piece but the last has p bytes, and the last has at least one. */
  lemma {:induction false} ChunkSize(data: Text, p: nat, i: nat)
    requires p > 0 && i < |Chunks(data, p)|
    ensures 0 < |Chunks(data, p)[i]| <= p
    ensures i + 1 < |Chunks(data, p)| ==> |Chunks(data, p)[i]| == p
    decreases |data|
  {
    if |data| > p && i > 0 { ChunkSize(data[p..], p, i - 1); }
  }

  lemma {:induction false} JoinedAppend(cs: seq<Text>, ds: seq<Text>)
    ensures Joined(cs + ds) == Joined(cs) + Joined(ds)
  {
    if cs == [] {
      assert cs + ds == ds;
    } else {
      assert (cs + ds)[1..] == cs[1..] + ds;
      JoinedAppend(cs[1..], ds);
    }
  }

  /** The packets of the pieces, with consecutive sequence numbers of 16 bits. The marker is written
      on the last one only; on the others it is what the buffer held, which nobody clears. */
  function Packets(cs: seq<Text>, sn: nat, pt: nat, held: bool): seq<Packet> {
    seq(|cs|, i requires 0 <= i < |cs| =>
      Packet(MESH_RTP_VERSION, pt, (sn + i) % 0x1_0000, held || i == |cs| - 1, cs[i]))
  }

  function Payloads(ps: seq<Packet>): (cs: seq<Text>)
    ensures |cs| == |ps|
  {
    seq(|ps|, i requires 0 <= i < |ps| => ps[i].payload)
  }

  lemma PayloadsOfPackets(cs: seq<Text>, sn: nat, pt: nat, held: bool)
    ensures Payloads(Packets(cs, sn, pt, held)) == cs
  {
  }

  /** The marker tells the end of the data exactly when the buffer held none, or one packet is all. */
  lemma MarkerExactly(cs: seq<Text>, sn: nat, pt: nat, held: bool)
    ensures var ps := Packets(cs, sn, pt, held);
            (forall i :: 0 <= i < |ps| ==> (ps[i].m <==> i == |ps| - 1)) <==> !held || |cs| <= 1
  {
    var ps := Packets(cs, sn, pt, held);
    if held && |cs| > 1 { assert ps[0].m; }
  }

  class Session {
    var data_type: nat
    var max_pkt_len: nat
    var sn: nat

    constructor (dataType: nat, maxPktLen: nat)
      ensures data_type == dataType && max_pkt_len == maxPktLen && sn == 0
    {
      data_type, max_pkt_len, sn := dataType, maxPktLen, 0;
    }

    /** `rtp_data_send`; the packets given to the socket. `held` is the marker bit that the local
        buffer happens to hold. */
    method Send(data: Text, held: bool) returns (sent: seq<Packet>)
      requires max_pkt_len > 0
      modifies this`sn
      ensures sent == Packets(Chunks(data, max_pkt_len), old(sn), data_type, held)
      ensures sn == old(sn) + |sent|
    {
      hide Chunks;
      var len := |data|;
      var send_len := 0;
      var m := held;
      sent := [];
      ghost var all := Chunks(data, max_pkt_len);
      NoChunks(max_pkt_len);
      assert data[len..] == [] && data[0..] == data;
      while send_len < len
        invariant send_len <= len && sn == old(sn) + |sent| && |sent| <= |all|
        invariant all[|sent|..] == Chunks(data[send_len..], max_pkt_len)
        invariant send_len < len ==> m == held
        invariant sent == Packets(all, old(sn), data_type, held)[..|sent|]
      {
        var rest := data[send_len..];
        var send_bytes := if len - send_len >= max_pkt_len then max_pkt_len else len - send_len;
        var head := sn % 0x1_0000;
        sn := sn + 1;
        var body := data[send_len..send_len + send_bytes];
        NextChunk(data, send_len, send_bytes, max_pkt_len, all, |sent|);
        send_len := send_len + send_bytes;
        if send_len == len { m := true; }
        sent := sent + [Packet(MESH_RTP_VERSION, data_type, head, m, body)];
      }
    }
  }

  lemma NoChunks(p: nat)
    requires p > 0
    ensures Chunks([], p) == []
  {
  }

  lemma NextChunk(data: Text, done: nat, n: nat, p: nat, all: seq<Text>, i: nat)
    requires p > 0 && done < |data| && i <= |all| && all[i..] == Chunks(data[done..], p)
    requires n == if |data| - done >= p then p else |data| - done
    ensures i < |all| && all[i] == data[done..done + n]
    ensures all[i + 1..] == Chunks(data[done + n..], p)
    ensures i == |all| - 1 <==> done + n == |data|
  {
    var rest := data[done..];
    var cs := Chunks(rest, p);
    assert cs[0] == all[i] && cs[1..] == all[i + 1..];
    assert rest[..n] == data[done..done + n] && rest[n..] == data[done + n..];
    assert |rest| > p ==> cs == [rest[..p]] + Chunks(rest[p..], p);
  }

  /** `rtp_session_data_enqueue` on the queue it fills. */
  class Queue {
    var queue_out: seq<Text>

    constructor ()
      ensures queue_out == []
    {
      queue_out := [];
    }

    method Enqueue(data: Text)
      modifies this
      ensures queue_out == old(queue_out) + Items(data)
    {
      var size := |data|;
      if size <= RTP_PAYLOAD_MAX_SIZE {
        queue_out := queue_out + [data];
        return;
      }
      var len := RTP_PAYLOAD_MAX_SIZE;
      var offset := 0;
      ghost var all := Chunks(data, len);
      ghost var i := 0;
      assert data[0..] == data;
      while offset + len < size
        invariant offset < size && i < |all| && all[i..] == Chunks(data[offset..], len)
        invariant queue_out == old(queue_out) + all[..i]
      {
        NextChunk(data, offset, len, len, all, i);
        queue_out := queue_out + [data[offset..offset + len]];
        offset := offset + len;
        i := i + 1;
      }
      NextChunk(data, offset, size - offset, len, all, i);
      queue_out := queue_out + [data[offset..]];
      assert all[..i] + [all[i]] == all;
    }
  }

  /** An empty frame still makes one item. */
  function Items(data: Text): seq<Text> {
    if data == [] then [[]] else Chunks(data, RTP_PAYLOAD_MAX_SIZE)
  }

  /** What the socket gets when every item is sent on its own. */
  function SentItems(items: seq<Text>, p: nat): seq<Text>
    requires p > 0
  {
    if items == [] then [] else Chunks(items[0], p) + SentItems(items[1..], p)
  }

  /** A session with packets no smaller than an item sends every item of a frame as one packet. */
  lemma OnePacketPerItem(data: Text, p: nat)
    requires data != [] && p >= RTP_PAYLOAD_MAX_SIZE
    ensures SentItems(Items(data), p) == Chunks(data, RTP_PAYLOAD_MAX_SIZE)
  {
    var items := Chunks(data, RTP_PAYLOAD_MAX_SIZE);
    forall i | 0 <= i < |items| ensures 0 < |items[i]| <= p {
      ChunkSize(data, RTP_PAYLOAD_MAX_SIZE, i);
    }
    AllSmall(items, p);
  }

  lemma {:induction false} AllSmall(items: seq<Text>, p: nat)
    requires p > 0 && forall i :: 0 <= i < |items| ==> 0 < |items[i]| <= p
    ensures SentItems(items, p) == items
  {
    if items != [] {
      AllSmall(items[1..], p);
      assert Chunks(items[0], p) == [items[0]];
    }
  }
}
