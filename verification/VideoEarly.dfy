/** Frames that arrive before the first key frame: the receiver drops them, unless one of their later
    packets looks like the start of a key frame. */
module VideoEarly {
  import opened CText
  import opened RtpSession
  import opened VideoReceiver
  import opened VideoPath

  // ---------- what the receiver sees of a packet ----------

  /** The five bytes of the packet buffer that it tests: start code and type. */
  function Seen(prev: Text, c: Text): (r: Text)
    requires |prev| >= 5
    ensures |r| == 5
  {
    if |c| >= 5 then c[..5] else c + prev[|c|..5]
  }

  predicate KeyStart(seen: Text) {
    |seen| == 5 && seen[..4] == FRAG_HEAD && IsKey(seen[4])
  }

  /** A packet behind the first one of its frame that looks like the start of a key frame. */
  predicate FalseKey(cs: seq<Text>, i: nat)
    requires 0 < i < |cs|
  {
    |cs[i - 1]| >= 5 && KeyStart(Seen(cs[i - 1], cs[i]))
  }

  ghost predicate Quiet(f: Text, p: nat)
    requires p >= 5
  {
    forall i :: 0 < i < |Chunks(f, p)| ==> !FalseKey(Chunks(f, p), i)
  }

  ghost predicate AllQuiet(fs: seq<Text>, p: nat)
    requires p >= 5
  {
    forall i :: 0 <= i < |fs| ==> Quiet(fs[i], p)
  }

  /** A frame without a false start has no false key either. */
  lemma CleanIsQuiet(f: Text, p: nat)
    requires p >= 5 && NoFalseStart(f, p)
    ensures Quiet(f, p)
  {
    hide Chunks;
    var cs := Chunks(f, p);
    forall i | 0 < i < |cs| ensures !FalseKey(cs, i) {
      assert !FalseStart(cs, i);
      if |cs[i - 1]| >= 5 { SeenFront(cs[i - 1], cs[i]); }
    }
  }

  lemma SeenFront(prev: Text, c: Text)
    requires |prev| >= 5
    ensures Seen(prev, c)[..4] == Front(prev, c)
  {
  }

  // ---------- packets one by one ----------

  lemma LastShown(s: State, cs: seq<Text>, c: Text)
    requires Sound(s) && (forall d <- cs :: |d| <= PACKET_LEN_MAX) && 0 < |c| <= PACKET_LEN_MAX
    ensures Run(s, cs + [c]) == Step(Run(s, cs), c) && Shows(Run(s, cs + [c]), c)
  {
    hide *;
    RunAppend(s, cs, [c]);
    RunOne(Run(s, cs), c);
    StepShown(Run(s, cs), c);
  }

  lemma RunOne(s: State, c: Text)
    requires Sound(s) && |c| <= PACKET_LEN_MAX
    ensures Run(s, [c]) == Step(s, c)
  {
    hide Step, Sound;
    assert [c][1..] == [];
  }

  lemma StepShown(s: State, c: Text)
    requires Sound(s) && 0 < |c| <= PACKET_LEN_MAX
    ensures Shows(Step(s, c), c)
  {
    assert Overlaid(s.packet, 0, c)[..|c|] == c;
  }

  lemma Sizes(f: Text, p: nat)
    requires 0 < p <= PACKET_LEN_MAX
    ensures forall c <- Chunks(f, p) :: 0 < |c| <= PACKET_LEN_MAX
  {
    hide Chunks;
    var cs := Chunks(f, p);
    forall c | c in cs ensures 0 < |c| <= PACKET_LEN_MAX {
      var i :| 0 <= i < |cs| && cs[i] == c;
      ChunkSize(f, p, i);
    }
  }

  lemma FirstFive(g: Text, p: nat)
    requires Frame(g) && 5 <= p
    ensures Chunks(g, p) != [] && Frame(Chunks(g, p)[0]) && Chunks(g, p)[0][..5] == g[..5]
  {
    assert |g| > p ==> g[..p][..4] == g[..4];
  }

  /** Nothing but the packet buffer changes. */
  ghost predicate Untouched(s: State, t: State) {
    t == s.(packet := t.packet)
  }

  lemma HeadOnly(s: State, c: Text)
    requires Sound(s) && !s.gop && 5 <= |c| <= PACKET_LEN_MAX
    ensures var t := Step(s, c);
            if KeyStart(c[..5]) then t == Taken(s.(packet := t.packet, gop := true), c, true) else Untouched(s, t)
  {
    var q := Overlaid(s.packet, 0, c);
    assert q[..4] == c[..5][..4] && q[4] == c[..5][4];
  }

  lemma LaterOnly(s: State, prev: Text, c: Text)
    requires Shows(s, prev) && !s.gop && |prev| >= 5 && 0 < |c| <= PACKET_LEN_MAX
    ensures var t := Step(s, c);
            if KeyStart(Seen(prev, c)) then t == Taken(s.(packet := t.packet, gop := true), c, true) else Untouched(s, t)
  {
    var q := Overlaid(s.packet, 0, c);
    forall k | 0 <= k < 5 ensures q[k] == Seen(prev, c)[k] {
      assert k >= |c| ==> s.packet[..|prev|][k] == prev[k];
    }
    assert q[..4] == Seen(prev, c)[..4];
  }

  /** Up to the first false key the packets of the frame are dropped. */
  lemma {:induction false} DroppedUpTo(s: State, f: Text, p: nat, i: nat)
    requires Sound(s) && !s.gop && Frame(f) && !IsKey(f[4]) && 5 <= p <= PACKET_LEN_MAX && 0 < i <= |Chunks(f, p)|
    requires forall k :: 0 < k < i ==> !FalseKey(Chunks(f, p), k)
    ensures forall c <- Chunks(f, p) :: |c| <= PACKET_LEN_MAX
    ensures var cs := Chunks(f, p);
            Untouched(s, Run(s, cs[..i])) && Shows(Run(s, cs[..i]), cs[i - 1]) && (i < |cs| ==> |cs[i - 1]| >= 5)
    decreases i
  {
    hide Chunks, Step, Run, Seen;
    var cs := Chunks(f, p);
    Sizes(f, p);
    ChunkSize(f, p, i - 1);
    LastShown(s, cs[..i - 1], cs[i - 1]);
    assert cs[..i] == cs[..i - 1] + [cs[i - 1]];
    if i == 1 {
      FirstFive(f, p);
      assert cs[..0] == [];
      RunNothing(s);
      HeadOnly(s, cs[0]);
      assert cs[0][..5][4] == f[..5][4];
    } else {
      DroppedUpTo(s, f, p, i - 1);
      assert !FalseKey(cs, i - 1);
      LaterOnly(Run(s, cs[..i - 1]), cs[i - 2], cs[i - 1]);
    }
  }

  /** A quiet frame that is no key frame leaves no trace. */
  lemma QuietDropped(s: State, f: Text, p: nat)
    requires Fresh(s) && Frame(f) && !IsKey(f[4]) && 5 <= p <= PACKET_LEN_MAX && Quiet(f, p)
    ensures forall c <- Chunks(f, p) :: |c| <= PACKET_LEN_MAX
    ensures Fresh(Run(s, Chunks(f, p)))
  {
    hide Chunks, Step, Run, FalseKey;
    var cs := Chunks(f, p);
    FirstFive(f, p);
    DroppedUpTo(s, f, p, |cs|);
    assert cs[..|cs|] == cs;
  }

  // ---------- bytes behind an early start ----------

  /** A frame has been started, and so one is always pending. */
  ghost predicate Live(s: State) {
    Sound(s) && s.gop && s.started && s.offset > 0
  }

  ghost function Bytes(s: State): nat {
    |Joined(s.saved)| + s.offset
  }

  lemma SavedBytes(saved: seq<Text>, x: Text)
    ensures |Joined(saved + [x])| == |Joined(saved)| + |x|
  {
    JoinedAppend(saved, [x]);
    assert [x][1..] == [];
    assert Joined([x]) == x;
  }

  /** No packet is lost as long as the pending frame has room. */
  lemma StepBytes(s: State, c: Text)
    requires Live(s) && 0 < |c| <= PACKET_LEN_MAX
    ensures var t, head := Step(s, c), Overlaid(s.packet, 0, c)[..4] == FRAG_HEAD;
            && (head ==> Live(t) && Bytes(t) == Bytes(s) + |c| && t.offset <= 1023 + |c|)
            && (!head && s.offset + |c| <= MAX_SIZE ==>
                  Live(t) && Bytes(t) == Bytes(s) + |c| && t.offset == s.offset + |c|)
  {
    hide Joined;
    SavedBytes(s.saved, s.frag[..s.offset]);
  }

  lemma {:induction false} TailBytes(s: State, cs: seq<Text>, n: nat)
    requires Live(s) && s.offset <= n && (forall c <- cs :: 0 < |c| <= PACKET_LEN_MAX)
    requires n >= 1023 && n + |Joined(cs)| <= MAX_SIZE
    ensures var t := Run(s, cs); Live(t) && Bytes(t) == Bytes(s) + |Joined(cs)|
    decreases |cs|
  {
    hide Step, Bytes, Live, Sound;
    LiveIsSound(s);
    if cs != [] {
      StepBytes(s, cs[0]);
      TailBytes(Step(s, cs[0]), cs[1..], n + |cs[0]|);
    }
  }

  lemma LiveIsSound(s: State)
    requires Live(s)
    ensures Sound(s)
  {
  }

  /** A frame for which there is room even behind a short frame it is glued to. */
  ghost predicate Roomy(fs: seq<Text>) {
    forall i :: 0 <= i < |fs| ==> |fs[i]| + 1023 <= MAX_SIZE
  }

  lemma FrameBytes(s: State, f: Text, p: nat)
    requires Live(s) && Frame(f) && 5 <= p <= PACKET_LEN_MAX && |f| + 1023 <= MAX_SIZE
    ensures forall c <- Chunks(f, p) :: |c| <= PACKET_LEN_MAX
    ensures var t := Run(s, Chunks(f, p)); Live(t) && Bytes(t) == Bytes(s) + |f|
  {
    hide Chunks, Step, Bytes, Live, Sound;
    var cs := Chunks(f, p);
    LiveIsSound(s);
    Sizes(f, p);
    FirstFive(f, p);
    ChunksJoined(f, p);
    assert Overlaid(s.packet, 0, cs[0])[..4] == cs[0][..4] by { SoundSizes(s); }
    StepBytes(s, cs[0]);
    TailBytes(Step(s, cs[0]), cs[1..], 1023 + |cs[0]|);
  }

  lemma SoundSizes(s: State)
    requires Sound(s)
    ensures |s.packet| == PACKET_LEN_MAX
  {
  }

  lemma {:induction false} AllBytes(s: State, fs: seq<Text>, p: nat)
    requires Live(s) && Frames(fs) && 5 <= p <= PACKET_LEN_MAX && Roomy(fs)
    ensures forall c <- Delivered(fs, p) :: |c| <= PACKET_LEN_MAX
    ensures var t := Run(s, Delivered(fs, p)); Live(t) && Bytes(t) == Bytes(s) + |Joined(fs)|
    decreases |fs|
  {
    hide Chunks, Step, Bytes, Live, Sound, Run;
    LiveIsSound(s);
    DeliveredFits(fs, p);
    if fs == [] {
      RunNothing(s);
    } else {
      FrameBytes(s, fs[0], p);
      DeliveredFits(fs[1..], p);
      RunAppend(s, Chunks(fs[0], p), Delivered(fs[1..], p));
      AllBytes(Run(s, Chunks(fs[0], p)), fs[1..], p);
    }
  }

  lemma {:induction false} FirstFalseKey(cs: seq<Text>, lo: nat) returns (i: nat)
    requires exists k :: lo < k < |cs| && FalseKey(cs, k)
    ensures lo < i < |cs| && FalseKey(cs, i) && forall k :: lo < k < i ==> !FalseKey(cs, k)
    decreases |cs| - lo
  {
    hide FalseKey;
    var k :| lo < k < |cs| && FalseKey(cs, k);
    if FalseKey(cs, lo + 1) {
      i := lo + 1;
    } else {
      i := FirstFalseKey(cs, lo + 1);
    }
  }

  lemma JoinedFrom(cs: seq<Text>, i: nat)
    requires i < |cs|
    ensures |cs[i]| + |Joined(cs[i + 1..])| <= |Joined(cs)|
  {
    JoinedAppend(cs[..i], cs[i..]);
    assert cs == cs[..i] + cs[i..];
    assert cs[i..][1..] == cs[i + 1..];
  }

  /** A false key starts a frame. */
  lemma Started(s: State, f: Text, p: nat)
    requires Fresh(s) && Frame(f) && !IsKey(f[4]) && 5 <= p <= PACKET_LEN_MAX && !Quiet(f, p) && |f| + 1023 <= MAX_SIZE
    ensures forall c <- Chunks(f, p) :: |c| <= PACKET_LEN_MAX
    ensures Live(Run(s, Chunks(f, p)))
  {
    hide Chunks, Step, Run, FalseKey, Seen, Joined, Bytes;
    var cs := Chunks(f, p);
    var i := FirstFalseKey(cs, 0);
    DroppedUpTo(s, f, p, i);
    Sizes(f, p);
    FalseKeyIs(cs, i);
    LaterOnly(Run(s, cs[..i]), cs[i - 1], cs[i]);
    LastShown(s, cs[..i], cs[i]);
    assert cs[..i + 1] == cs[..i] + [cs[i]];
    assert cs == cs[..i + 1] + cs[i + 1..];
    RunAppend(s, cs[..i + 1], cs[i + 1..]);
    ChunksJoined(f, p);
    JoinedFrom(cs, i);
    TailBytes(Run(s, cs[..i + 1]), cs[i + 1..], 1023 + |cs[i]|);
  }

  lemma FalseKeyIs(cs: seq<Text>, i: nat)
    requires 0 < i < |cs| && FalseKey(cs, i)
    ensures |cs[i - 1]| >= 5 && KeyStart(Seen(cs[i - 1], cs[i]))
  {
  }

  /** More bytes than the frames have cannot be their pieces. */
  lemma TooMuch(t: State, fs: seq<Text>)
    requires Live(t) && Frames(fs) && Bytes(t) > |Joined(fs)|
    ensures !Whole(t, Pieces(fs))
  {
    hide Joined, Pieces;
    PiecesJoined(fs);
    SavedBytes(t.saved, t.frag[..t.offset]);
  }

  /** One false key among the frames before the first key frame is enough. */
  lemma {:induction false} EarlyStart(s: State, before: seq<Text>, fs: seq<Text>, p: nat)
    requires Fresh(s) && Frames(before) && Frames(fs) && Frames(before + fs) && 5 <= p <= PACKET_LEN_MAX
    requires FromKey(before) == [] && !AllQuiet(before, p) && Roomy(before + fs)
    ensures forall c <- Delivered(before + fs, p) :: |c| <= PACKET_LEN_MAX
    ensures !Whole(Run(s, Delivered(before + fs, p)), Pieces(fs))
    decreases |before|
  {
    hide Step, Run, Chunks, Quiet, Whole, Pieces, Bytes;
    DeliveredFits(before + fs, p);
    var f, rest := before[0], before[1..];
    assert (before + fs)[0] == f && (before + fs)[1..] == rest + fs;
    DeliveredFits(rest + fs, p);
    Sizes(f, p);
    RunAppend(s, Chunks(f, p), Delivered(rest + fs, p));
    RoomyRest(before + fs);
    if Quiet(f, p) {
      QuietDropped(s, f, p);
      EarlyStart(Run(s, Chunks(f, p)), rest, fs, p);
    } else {
      Started(s, f, p);
      var t := Run(s, Chunks(f, p));
      AllBytes(t, rest + fs, p);
      JoinedAppend(rest, fs);
      LiveBytes(t);
      TooMuch(Run(t, Delivered(rest + fs, p)), fs);
    }
  }

  lemma RoomyRest(fs: seq<Text>)
    requires Roomy(fs) && fs != []
    ensures |fs[0]| + 1023 <= MAX_SIZE && Roomy(fs[1..])
  {
  }

  lemma LiveBytes(s: State)
    requires Live(s)
    ensures Bytes(s) > 0
  {
  }
}
