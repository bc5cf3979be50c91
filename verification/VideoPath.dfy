/** The video path end to end: frames cut by `gbcom_common/comm/rtp_session.c` and put together
    again by `video/video_data_recv.cc`. */
module VideoPath {
  import opened CText
  import opened RtpSession
  import opened VideoReceiver

  // ---------- what the encoder is meant to get ----------

  /** A frame of at least five bytes: start code, type, contents. */
  predicate Frame(f: Text) {
    |f| >= 5 && f[..4] == FRAG_HEAD
  }

  predicate Frames(fs: seq<Text>) {
    forall i :: 0 <= i < |fs| ==> Frame(fs[i])
  }

  /** A short parameter frame goes together with the frame behind it. */
  function Pieces(fs: seq<Text>): seq<Text>
    requires Frames(fs)
  {
    if fs == [] then []
    else if |fs| >= 2 && fs[0][4] == PPS_FRAG && |fs[0]| < 1024 then [fs[0] + fs[1]] + Pieces(fs[2..])
    else [fs[0]] + Pieces(fs[1..])
  }

  /** The frames from the first parameter set on. */
  function FromKey(fs: seq<Text>): (r: seq<Text>)
    requires Frames(fs)
    ensures Frames(r)
  {
    if fs == [] then [] else if IsKey(fs[0][4]) then fs else FromKey(fs[1..])
  }

  /** Nothing is lost or made up. */
  lemma {:induction false} PiecesJoined(fs: seq<Text>)
    requires Frames(fs)
    ensures Joined(Pieces(fs)) == Joined(fs)
  {
    if fs == [] {
    } else if |fs| >= 2 && fs[0][4] == PPS_FRAG && |fs[0]| < 1024 {
      PiecesJoined(fs[2..]);
      assert fs[1..][1..] == fs[2..];
      Assoc(fs[0], fs[1], Joined(fs[2..]));
      assert Pieces(fs)[1..] == Pieces(fs[2..]);
    } else {
      PiecesJoined(fs[1..]);
      assert Pieces(fs)[1..] == Pieces(fs[1..]);
    }
  }

  // ---------- the packets of a frame ----------

  /** The four bytes the receiver sees in front: a short packet leaves bytes of the one before. */
  function Front(prev: Text, c: Text): Text
    requires |prev| >= 4
  {
    if |c| >= 4 then c[..4] else c + prev[|c|..4]
  }

  /** No packet of the frame but the first looks like the start of a frame. */
  ghost predicate NoFalseStart(f: Text, p: nat)
    requires p >= 5
  {
    forall i :: 0 < i < |Chunks(f, p)| ==> !FalseStart(Chunks(f, p), i)
  }

  predicate FalseStart(cs: seq<Text>, i: nat)
    requires 0 < i < |cs|
  {
    |cs[i - 1]| >= 4 && Front(cs[i - 1], cs[i]) == FRAG_HEAD
  }

  /** The pieces of a frame behind its first packet, which are all appended. */
  ghost predicate Tail(prev: Text, cs: seq<Text>)
    decreases |cs|
  {
    cs == [] || (|prev| >= 4 && Front(prev, cs[0]) != FRAG_HEAD && 0 < |cs[0]| <= PACKET_LEN_MAX && Tail(cs[0], cs[1..]))
  }

  /** As far as none of them looks like a start. */
  lemma {:induction false} TailOf(f: Text, p: nat, i: nat, j: nat)
    requires 5 <= p <= PACKET_LEN_MAX && i < j <= |Chunks(f, p)|
    requires forall k :: i < k < j ==> !FalseStart(Chunks(f, p), k)
    ensures Tail(Chunks(f, p)[i], Chunks(f, p)[i + 1..j])
    decreases j - i
  {
    hide Chunks;
    var cs := Chunks(f, p);
    ChunkSize(f, p, i);
    if i + 1 < j {
      ChunkSize(f, p, i + 1);
      TailOf(f, p, i + 1, j);
      assert !FalseStart(cs, i + 1);
      assert cs[i + 1..j][0] == cs[i + 1] && cs[i + 1..j][1..] == cs[i + 2..j];
    }
  }

  lemma FirstChunk(f: Text, p: nat)
    requires Frame(f) && 5 <= p <= PACKET_LEN_MAX && NoFalseStart(f, p)
    ensures var cs := Chunks(f, p);
            && cs != [] && 5 <= |cs[0]| <= PACKET_LEN_MAX && cs[0][..5] == f[..5]
            && Tail(cs[0], cs[1..]) && cs[0] + Joined(cs[1..]) == f
  {
    var cs := Chunks(f, p);
    TailOf(f, p, 0, |cs|);
    assert cs[1..|cs|] == cs[1..];
    ChunksJoined(f, p);
  }

  // ---------- the receiver inside a frame ----------

  /** The packet buffer shows the packet received last. */
  ghost predicate Shows(s: State, prev: Text) {
    Sound(s) && |prev| <= PACKET_LEN_MAX && s.packet[..|prev|] == prev
  }

  lemma StepShows(s: State, prev: Text, c: Text)
    requires Shows(s, prev) && |prev| >= 4 && 0 < |c| <= PACKET_LEN_MAX
    ensures Overlaid(s.packet, 0, c)[..4] == Front(prev, c)
  {
    var p := Overlaid(s.packet, 0, c);
    forall k | 0 <= k < 4 ensures p[k] == Front(prev, c)[k] {
      assert k >= |c| ==> s.packet[..|prev|][k] == prev[k];
    }
  }

  /** Behind the first parameter set the tail of a frame is appended to the pending bytes. */
  lemma {:induction false} TailAppended(s: State, prev: Text, cs: seq<Text>)
    requires Shows(s, prev) && s.gop && Tail(prev, cs) && (forall c <- cs :: |c| <= PACKET_LEN_MAX)
    requires s.offset + |Joined(cs)| <= MAX_SIZE
    ensures var r := Run(s, cs);
            && r.gop && r.idr == s.idr && r.saved == s.saved && r.started == s.started
            && r.offset == s.offset + |Joined(cs)|
            && r.frag[..r.offset] == s.frag[..s.offset] + Joined(cs)
    decreases |cs|
  {
    if cs != [] {
      StepShows(s, prev, cs[0]);
      var t := Step(s, cs[0]);
      assert t.frag[..t.offset] == s.frag[..s.offset] + cs[0];
      assert Shows(t, cs[0]);
      TailAppended(t, cs[0], cs[1..]);
      Assoc(s.frag[..s.offset], cs[0], Joined(cs[1..]));
    }
  }

  /** Before the first parameter set the tail of a frame is dropped. */
  lemma {:induction false} TailDropped(s: State, prev: Text, cs: seq<Text>)
    requires Shows(s, prev) && !s.gop && Tail(prev, cs) && (forall c <- cs :: |c| <= PACKET_LEN_MAX)
    ensures Run(s, cs) == s.(packet := Run(s, cs).packet)
    decreases |cs|
  {
    if cs != [] {
      StepShows(s, prev, cs[0]);
      var t := Step(s, cs[0]);
      assert Shows(t, cs[0]);
      TailDropped(t, cs[0], cs[1..]);
    }
  }

  // ---------- one frame ----------

  /** What the receiver holds between two frames. */
  datatype View = View(saved: seq<Text>, pending: Text, idr: bool, gop: bool)

  ghost predicate Matches(s: State, v: View) {
    && Sound(s) && s.gop == v.gop && s.saved == v.saved && s.idr == v.idr
    && if v.gop then s.started && Frame(v.pending) && s.offset == |v.pending| && s.frag[..s.offset] == v.pending
       else s.offset == 0 && !s.started && !s.idr
  }

  predicate Glued(v: View) {
    |v.pending| >= 5 && v.pending[4] == PPS_FRAG && !v.idr && |v.pending| < 1024
  }

  /** What a frame of which x arrived makes of it. */
  function Group(v: View, x: Text): View
    requires |x| >= 5
  {
    if !v.gop && !IsKey(x[4]) then v
    else if !v.gop then v.(gop := true, pending := x)
    else if Glued(v) then v.(pending := v.pending + x, idr := true)
    else View(v.saved + [v.pending], x, false, true)
  }

  lemma FirstStep(s: State, v: View, c: Text)
    requires Matches(s, v) && Frame(c) && |c| <= PACKET_LEN_MAX
    ensures Matches(Step(s, c), Group(v, c)) && Shows(Step(s, c), c)
  {
    var p := Overlaid(s.packet, 0, c);
    assert p[..4] == c[..4] && p[4] == c[4];
    if v.gop {
      assert s.frag[..s.offset][4] == s.frag[4];
      GroupFrame(v, c);
    }
  }

  lemma GroupFrame(v: View, c: Text)
    requires Frame(c) && v.gop && Frame(v.pending)
    ensures Frame(Group(v, c).pending)
  {
    assert (v.pending + c)[..4] == v.pending[..4];
  }

  lemma GroupWhole(v: View, f: Text, c: Text, rest: Text)
    requires |c| >= 5 && f == c + rest
    ensures Group(v, f) == (if v.gop || IsKey(c[4]) then Group(v, c).(pending := Group(v, c).pending + rest) else v)
  {
    Assoc(v.pending, c, rest);
  }

  /** A frame of which no later packet looks like a start is taken as a whole. */
  lemma FrameReceived(s: State, v: View, f: Text, p: nat)
    requires Matches(s, v) && Frame(f) && 5 <= p <= PACKET_LEN_MAX && NoFalseStart(f, p)
    requires |Group(v, f).pending| <= MAX_SIZE
    ensures forall c <- Chunks(f, p) :: |c| <= PACKET_LEN_MAX
    ensures Matches(Run(s, Chunks(f, p)), Group(v, f))
  {
    hide Chunks, Step, Matches, Group, NoFalseStart;
    var cs := Chunks(f, p);
    MatchesIs(s, v);
    forall c | c in cs ensures |c| <= PACKET_LEN_MAX {
      var i :| 0 <= i < |cs| && cs[i] == c;
      ChunkSize(f, p, i);
    }
    FirstChunk(f, p);
    assert cs[0][..4] == f[..5][..4] && cs[0][4] == f[..5][4];
    FirstStep(s, v, cs[0]);
    GroupWhole(v, f, cs[0], Joined(cs[1..]));
    MatchesIs(Step(s, cs[0]), Group(v, cs[0]));
    GroupGop(v, cs[0]);
    var t := Step(s, cs[0]);
    if v.gop || IsKey(f[4]) {
      TailAppended(t, cs[0], cs[1..]);
      StillFrame(Group(v, cs[0]).pending, Joined(cs[1..]));
    } else {
      TailDropped(t, cs[0], cs[1..]);
    }
    MatchesIs(Run(s, cs), Group(v, f));
  }

  lemma StillFrame(f: Text, rest: Text)
    requires Frame(f)
    ensures Frame(f + rest)
  {
    assert (f + rest)[..4] == f[..4];
  }

  lemma GroupGop(v: View, c: Text)
    requires |c| >= 5
    ensures Group(v, c).gop == (v.gop || IsKey(c[4]))
    ensures !v.gop && !IsKey(c[4]) ==> Group(v, c) == v
  {
  }

  lemma MatchesIs(s: State, v: View)
    ensures Matches(s, v) <==>
      && Sound(s) && s.gop == v.gop && s.saved == v.saved && s.idr == v.idr
      && if v.gop then s.started && Frame(v.pending) && s.offset == |v.pending| && s.frag[..s.offset] == v.pending
         else s.offset == 0 && !s.started && !s.idr
  {
  }

  // ---------- all frames ----------

  function Delivered(fs: seq<Text>, p: nat): seq<Text>
    requires p > 0
  {
    if fs == [] then [] else Chunks(fs[0], p) + Delivered(fs[1..], p)
  }

  ghost predicate Clean(fs: seq<Text>, p: nat)
    requires p >= 5
  {
    forall i :: 0 <= i < |fs| ==> NoFalseStart(fs[i], p)
  }

  lemma {:induction false} DeliveredFits(fs: seq<Text>, p: nat)
    requires 0 < p <= PACKET_LEN_MAX
    ensures forall c <- Delivered(fs, p) :: |c| <= PACKET_LEN_MAX
  {
    if fs != [] {
      DeliveredFits(fs[1..], p);
      var cs := Chunks(fs[0], p);
      forall c | c in cs ensures |c| <= PACKET_LEN_MAX {
        var i :| 0 <= i < |cs| && cs[i] == c;
        ChunkSize(fs[0], p, i);
      }
    }
  }

  /** The pieces that come of what is pending and the frames behind it. */
  function Rest(v: View, fs: seq<Text>): (r: seq<Text>)
    requires Frame(v.pending) && Frames(fs)
    ensures r != []
  {
    if v.idr then [v.pending] + Pieces(fs) else Pieces([v.pending] + fs)
  }

  predicate Fit(ps: seq<Text>) {
    forall i :: 0 <= i < |ps| ==> |ps[i]| <= MAX_SIZE
  }

  /** One more frame moves a piece from the rest to what is saved, or joins two. */
  lemma RestStep(v: View, fs: seq<Text>)
    requires v.gop && Frame(v.pending) && Frames(fs) && fs != []
    ensures var w := Group(v, fs[0]);
            && w.gop && Frame(w.pending) && Frames(fs[1..])
            && v.saved + Rest(v, fs) == w.saved + Rest(w, fs[1..])
            && |w.pending| <= |Rest(w, fs[1..])[0]|
            && (Fit(Rest(v, fs)) ==> Fit(Rest(w, fs[1..])))
  {
    var w := Group(v, fs[0]);
    GroupFrame(v, fs[0]);
    var all := [v.pending] + fs;
    assert all[1..] == fs && all[2..] == fs[1..];
    if Glued(v) {
      assert Rest(v, fs) == Rest(w, fs[1..]);
    } else {
      assert [fs[0]] + fs[1..] == fs;
      assert Rest(v, fs) == [v.pending] + Pieces(fs);
      assert v.saved + [v.pending] + Pieces(fs) == v.saved + ([v.pending] + Pieces(fs));
      assert forall i :: 0 <= i < |Pieces(fs)| ==> Rest(v, fs)[i + 1] == Pieces(fs)[i];
    }
  }

  /** Behind the first parameter set. */
  lemma {:induction false} AllReceived(s: State, v: View, fs: seq<Text>, p: nat)
    requires Matches(s, v) && v.gop && Frame(v.pending) && Frames(fs) && 5 <= p <= PACKET_LEN_MAX && Clean(fs, p)
    requires Fit(Rest(v, fs))
    ensures forall c <- Delivered(fs, p) :: |c| <= PACKET_LEN_MAX
    ensures var r := Run(s, Delivered(fs, p));
            && r.gop && r.offset <= MAX_SIZE && |r.frag| == MAX_SIZE
            && r.saved + [r.frag[..r.offset]] == v.saved + Rest(v, fs)
    decreases |fs|
  {
    hide Step, Matches, Group, Chunks, NoFalseStart, Run, Pieces, Glued;
    DeliveredFits(fs, p);
    MatchesIs(s, v);
    if fs == [] {
      OnePiece(v);
      RunNothing(s);
    } else {
      var w := Group(v, fs[0]);
      RestStep(v, fs);
      FrameReceived(s, v, fs[0], p);
      RunAppend(s, Chunks(fs[0], p), Delivered(fs[1..], p));
      AllReceived(Run(s, Chunks(fs[0], p)), w, fs[1..], p);
    }
  }

  lemma OnePiece(v: View)
    requires Frame(v.pending)
    ensures Rest(v, []) == [v.pending]
  {
    assert [v.pending] + [] == [v.pending] && [v.pending][1..] == [];
    assert Pieces([v.pending]) == [v.pending] + Pieces([]);
  }

  lemma RunNothing(s: State)
    requires Sound(s)
    ensures Run(s, []) == s
  {
  }

  ghost predicate Fresh(s: State) {
    Sound(s) && !s.gop && !s.started && !s.idr && s.offset == 0 && s.saved == []
  }

  /** What is saved and what is pending are these pieces. */
  ghost predicate Whole(s: State, ps: seq<Text>) {
    if ps == [] then s.saved == [] && s.offset == 0
    else s.offset <= |s.frag| && s.saved + [s.frag[..s.offset]] == ps
  }

  /** The frames reach the encoder whole: what is saved and what is pending are the pieces of the
      frames from the first parameter set on. */
  lemma {:induction false} EndToEnd(s: State, fs: seq<Text>, p: nat)
    requires Fresh(s) && Frames(fs) && 5 <= p <= PACKET_LEN_MAX && Clean(fs, p)
    requires Fit(Pieces(FromKey(fs)))
    ensures forall c <- Delivered(fs, p) :: |c| <= PACKET_LEN_MAX
    ensures Whole(Run(s, Delivered(fs, p)), Pieces(FromKey(fs)))
    decreases |fs|
  {
    hide Step, Matches, Group, Chunks, NoFalseStart, Run, Pieces;
    DeliveredFits(fs, p);
    if fs == [] {
      RunNothing(s);
      NoPieces();
    } else {
      var v := View([], [], false, false);
      MatchesIs(s, v);
      GroupGop(v, fs[0]);
      GroupFirst(v, fs[0]);
      if IsKey(fs[0][4]) {
        FirstFits(fs);
      }
      FrameReceived(s, v, fs[0], p);
      var t := Run(s, Chunks(fs[0], p));
      RunAppend(s, Chunks(fs[0], p), Delivered(fs[1..], p));
      MatchesIs(t, Group(v, fs[0]));
      if IsKey(fs[0][4]) {
        assert [fs[0]] + fs[1..] == fs;
        AllReceived(t, Group(v, fs[0]), fs[1..], p);
        assert [] + Pieces(fs) == Pieces(fs);
      } else {
        EndToEnd(t, fs[1..], p);
      }
    }
  }

  lemma NoPieces()
    ensures Pieces([]) == []
  {
  }

  lemma GroupFirst(v: View, f: Text)
    requires !v.gop && Frame(f)
    ensures IsKey(f[4]) ==> Group(v, f) == v.(gop := true, pending := f)
  {
  }

  /** The first frame is no longer than the first piece. */
  lemma FirstFits(fs: seq<Text>)
    requires Frames(fs) && fs != [] && Fit(Pieces(fs))
    ensures |fs[0]| <= MAX_SIZE && Pieces(fs) != []
  {
    assert |fs[0]| <= |Pieces(fs)[0]|;
  }

  /** Saved and pending bytes together are the bytes of the frames. */
  lemma BytesKept(s: State, fs: seq<Text>, p: nat)
    requires Fresh(s) && Frames(fs) && 5 <= p <= PACKET_LEN_MAX && Clean(fs, p)
    requires Fit(Pieces(FromKey(fs)))
    ensures forall c <- Delivered(fs, p) :: |c| <= PACKET_LEN_MAX
    ensures var r := Run(s, Delivered(fs, p));
            r.offset <= |r.frag| && Joined(r.saved) + r.frag[..r.offset] == Joined(FromKey(fs))
  {
    EndToEnd(s, fs, p);
    PiecesJoined(FromKey(fs));
    var r := Run(s, Delivered(fs, p));
    hide Run, Pieces, FromKey, Step;
    if Pieces(FromKey(fs)) != [] {
      JoinedAppend(r.saved, [r.frag[..r.offset]]);
    }
  }

  // ---------- packets on the wire ----------

  /** The packets of all frames, sent by one session; a new buffer for each of them. */
  function Wire(fs: seq<Text>, p: nat, sn: nat, pt: nat, held: seq<bool>): seq<Packet>
    requires p > 0 && |held| == |fs|
  {
    if fs == [] then []
    else
      var cs := Chunks(fs[0], p);
      Packets(cs, sn, pt, held[0]) + Wire(fs[1..], p, sn + |cs|, pt, held[1..])
  }

  /** Sequence numbers of 16 bits that run on from sn. */
  ghost predicate Numbered(ps: seq<Packet>, sn: nat) {
    forall i :: 0 <= i < |ps| ==> ps[i].sn == (sn + i) % 0x1_0000
  }

  lemma NumbersRunOn(ps: seq<Packet>, rest: seq<Packet>, sn: nat)
    requires Numbered(ps, sn) && Numbered(rest, sn + |ps|)
    ensures Numbered(ps + rest, sn)
  {
    forall i | 0 <= i < |ps + rest| ensures (ps + rest)[i].sn == (sn + i) % 0x1_0000 {
      assert i >= |ps| ==> rest[i - |ps|].sn == (sn + |ps| + (i - |ps|)) % 0x1_0000;
    }
  }

  lemma PayloadsAppend(ps: seq<Packet>, rest: seq<Packet>)
    ensures Payloads(ps + rest) == Payloads(ps) + Payloads(rest)
  {
  }

  lemma PacketsNumbered(cs: seq<Text>, sn: nat, pt: nat, held: bool)
    ensures |Packets(cs, sn, pt, held)| == |cs| && Numbered(Packets(cs, sn, pt, held), sn)
  {
  }

  /** The payloads are what is delivered, and the sequence numbers run on across frames. */
  lemma {:induction false} WireIsDelivered(fs: seq<Text>, p: nat, sn: nat, pt: nat, held: seq<bool>)
    requires p > 0 && |held| == |fs|
    ensures Payloads(Wire(fs, p, sn, pt, held)) == Delivered(fs, p)
    ensures Numbered(Wire(fs, p, sn, pt, held), sn)
    decreases |fs|
  {
    hide Chunks, Packets, Payloads, Numbered;
    if fs == [] {
      PayloadsOfPackets([], sn, pt, false);
      PacketsNumbered([], sn, pt, false);
    } else {
      var cs := Chunks(fs[0], p);
      PacketsNumbered(cs, sn, pt, held[0]);
      PayloadsOfPackets(cs, sn, pt, held[0]);
      WireIsDelivered(fs[1..], p, sn + |cs|, pt, held[1..]);
      var ps, rest := Packets(cs, sn, pt, held[0]), Wire(fs[1..], p, sn + |cs|, pt, held[1..]);
      PayloadsAppend(ps, rest);
      NumbersRunOn(ps, rest, sn);
    }
  }
}
