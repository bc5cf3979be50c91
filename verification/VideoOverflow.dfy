/** Frames of any length: what `video/video_data_recv.cc` does with pieces that are longer than its buffer of
    two megabytes, and the first packet it takes. */
module VideoOverflow {
  import opened CText
  import opened RtpSession
  import opened VideoReceiver
  import opened VideoPath

  // ---------- single packets, in numbers ----------

  /** The first packet taken starts with 0 0 0 1 103 or 0 0 0 1 104. */
  lemma FirstTakenExactly(s: State, c: Text)
    requires Fresh(s) && 5 <= |c| <= 2048
    ensures var t := Step(s, c);
            if c[..5] == [0, 0, 0, 1, 103] || c[..5] == [0, 0, 0, 1, 104]
            then t.gop && t.started && t.offset == |c| && t.frag[..|c|] == c && t.saved == []
            else t == s.(packet := t.packet)
  {
    var p := Overlaid(s.packet, 0, c);
    assert p[..4] == c[..4] && p[4] == c[4];
    assert forall k: int :: c[..5] == [0, 0, 0, 1, k] <==> c[..4] == [0, 0, 0, 1] && c[4] == k;
  }

  /** A start code closes what is pending, but for a parameter set of type 103 below 1024 bytes that came
      alone. */
  lemma ClosedExactly(s: State, c: Text)
    requires Sound(s) && s.gop && s.started && s.offset >= 5 && 5 <= |c| <= 2048 && c[..4] == [0, 0, 0, 1]
    ensures var t := Step(s, c);
            if s.frag[4] == 103 && !s.idr && s.offset < 1024
            then t.saved == s.saved && t.idr && t.frag[..t.offset] == s.frag[..s.offset] + c
            else t.saved == s.saved + [s.frag[..s.offset]] && !t.idr && t.frag[..t.offset] == c
  {
    var p := Overlaid(s.packet, 0, c);
    assert p[..4] == c[..4];
  }

  // ---------- one frame ----------

  /** The tail of a frame is kept exactly when it fits into 2097152 bytes; otherwise all that was pending is
      lost, and nothing else. */
  lemma {:induction false} TailExactly(s: State, prev: Text, cs: seq<Text>)
    requires Shows(s, prev) && s.gop && Tail(prev, cs) && (forall c <- cs :: |c| <= PACKET_LEN_MAX)
    ensures var r := Run(s, cs);
            && Sound(r) && r.gop && r.idr == s.idr && r.saved == s.saved
            && (r.started <==> s.started && s.offset + |Joined(cs)| <= 2097152)
    decreases |cs|
  {
    if cs != [] {
      StepShows(s, prev, cs[0]);
      var t := Step(s, cs[0]);
      assert Shows(t, cs[0]);
      TailExactly(t, cs[0], cs[1..]);
    }
  }

  lemma ChunksFit(f: Text, p: nat)
    requires 5 <= p <= PACKET_LEN_MAX
    ensures forall c <- Chunks(f, p) :: |c| <= PACKET_LEN_MAX
  {
    var cs := Chunks(f, p);
    forall c | c in cs ensures |c| <= PACKET_LEN_MAX {
      var i :| 0 <= i < |cs| && cs[i] == c;
      ChunkSize(f, p, i);
    }
  }

  /** A piece of more than 2097152 bytes is lost whole; what was saved before stays. */
  lemma FrameTooLong(s: State, v: View, f: Text, p: nat)
    requires Matches(s, v) && Frame(f) && 5 <= p <= PACKET_LEN_MAX && NoFalseStart(f, p)
    requires |Group(v, f).pending| > MAX_SIZE && (v.gop || IsKey(f[4]))
    ensures forall c <- Chunks(f, p) :: |c| <= PACKET_LEN_MAX
    ensures Lost(Run(s, Chunks(f, p)), Group(v, f).saved, Group(v, f).idr)
  {
    hide Chunks, Step, Matches, Group, NoFalseStart, Run;
    var cs := Chunks(f, p);
    MatchesIs(s, v);
    ChunksFit(f, p);
    FirstChunk(f, p);
    assert cs[0][..4] == f[..5][..4] && cs[0][4] == f[..5][4];
    FirstStep(s, v, cs[0]);
    GroupWhole(v, f, cs[0], Joined(cs[1..]));
    MatchesIs(Step(s, cs[0]), Group(v, cs[0]));
    GroupGop(v, cs[0]);
    RunOn(s, cs);
    TailExactly(Step(s, cs[0]), cs[0], cs[1..]);
  }

  lemma RunOn(s: State, cs: seq<Text>)
    requires Sound(s) && cs != [] && forall c <- cs :: |c| <= PACKET_LEN_MAX
    ensures forall c <- cs[1..] :: |c| <= PACKET_LEN_MAX
    ensures Run(s, cs) == Run(Step(s, cs[0]), cs[1..])
  {
    hide Step;
  }

  /** Nothing is pending, but the mark of a joined piece may be left. */
  ghost predicate Lost(s: State, saved: seq<Text>, idr: bool) {
    Sound(s) && s.gop && !s.started && s.saved == saved && s.idr == idr
  }

  lemma StartAgain(s: State, c: Text)
    requires Lost(s, s.saved, s.idr) && Frame(c) && |c| <= PACKET_LEN_MAX
    ensures Matches(Step(s, c), View(s.saved, c, s.idr, true)) && Shows(Step(s, c), c)
  {
    var p := Overlaid(s.packet, 0, c);
    assert p[..4] == c[..4];
  }

  /** The next frame starts anew. */
  lemma FrameAfterLoss(s: State, f: Text, p: nat)
    requires Lost(s, s.saved, s.idr) && Frame(f) && 5 <= p <= PACKET_LEN_MAX && NoFalseStart(f, p)
    ensures forall c <- Chunks(f, p) :: |c| <= PACKET_LEN_MAX
    ensures if |f| <= MAX_SIZE then Matches(Run(s, Chunks(f, p)), View(s.saved, f, s.idr, true))
            else Lost(Run(s, Chunks(f, p)), s.saved, s.idr)
  {
    hide Chunks, Step, Matches, NoFalseStart, Run;
    var cs := Chunks(f, p);
    ChunksFit(f, p);
    FirstChunk(f, p);
    assert cs[0][..4] == f[..5][..4];
    StartAgain(s, cs[0]);
    var t := Step(s, cs[0]);
    MatchesIs(t, View(s.saved, cs[0], s.idr, true));
    RunOn(s, cs);
    TailExactly(t, cs[0], cs[1..]);
    if |f| <= MAX_SIZE {
      TailAppended(t, cs[0], cs[1..]);
      MatchesIs(Run(s, cs), View(s.saved, f, s.idr, true));
    }
  }

  // ---------- all frames ----------

  /** The pieces that are kept. One longer than the buffer is left out; when that was a joined piece the
      mark of it stays, and the next parameter set goes alone. */
  function Kept(fs: seq<Text>, mark: bool): seq<Text>
    requires Frames(fs)
    decreases |fs|
  {
    if fs == [] then []
    else if !mark && |fs| >= 2 && fs[0][4] == 103 && |fs[0]| < 1024 then
      if |fs[0] + fs[1]| <= 2097152 then [fs[0] + fs[1]] + Kept(fs[2..], false) else Kept(fs[2..], true)
    else if |fs[0]| <= 2097152 then [fs[0]] + Kept(fs[1..], false)
    else Kept(fs[1..], mark)
  }

  /** What becomes of the pending bytes and the frames behind them. */
  function Out(v: View, fs: seq<Text>): seq<Text>
    requires Frame(v.pending) && Frames(fs)
  {
    if !Glued(v) || fs == [] then [v.pending] + Kept(fs, false)
    else if |v.pending + fs[0]| <= 2097152 then [v.pending + fs[0]] + Kept(fs[1..], false)
    else Kept(fs[1..], true)
  }

  lemma KeptIsOut(saved: seq<Text>, f: Text, fs: seq<Text>, mark: bool)
    requires Frame(f) && Frames(fs) && |f| <= 2097152
    ensures Frames([f] + fs) && Kept([f] + fs, mark) == Out(View(saved, f, mark, true), fs)
  {
    var all := [f] + fs;
    assert all[1..] == fs && (fs != [] ==> all[2..] == fs[1..]);
  }

  lemma KeptTooLong(f: Text, fs: seq<Text>, mark: bool)
    requires Frame(f) && Frames(fs) && |f| > 2097152
    ensures Frames([f] + fs) && Kept([f] + fs, mark) == Kept(fs, mark)
  {
    var all := [f] + fs;
    assert all[1..] == fs;
  }

  lemma OutStep(v: View, fs: seq<Text>)
    requires v.gop && Frame(v.pending) && Frames(fs) && fs != []
    ensures var w := Group(v, fs[0]);
            && w.gop && Frame(w.pending) && Frames(fs[1..])
            && v.saved + Out(v, fs) == w.saved + if |w.pending| <= 2097152 then Out(w, fs[1..]) else Kept(fs[1..], w.idr)
  {
    var w := Group(v, fs[0]);
    GroupFrame(v, fs[0]);
    var rest := fs[1..];
    assert [fs[0]] + rest == fs;
    if !Glued(v) {
      Assoc2(v.saved, v.pending, Kept(fs, false));
      if |fs[0]| <= 2097152 { KeptIsOut(w.saved, fs[0], rest, false); } else { KeptTooLong(fs[0], rest, false); }
    }
  }

  lemma Assoc2(xs: seq<Text>, x: Text, ys: seq<Text>)
    ensures xs + ([x] + ys) == (xs + [x]) + ys
  {
  }

  /** What is saved and what is pending. */
  ghost function Had(s: State): seq<Text>
    requires Sound(s)
  {
    if s.started then s.saved + [s.frag[..s.offset]] else s.saved
  }

  lemma {:induction false} KeptFrom(s: State, v: View, fs: seq<Text>, p: nat)
    requires Matches(s, v) && v.gop && Frame(v.pending) && Frames(fs) && 5 <= p <= PACKET_LEN_MAX && Clean(fs, p)
    ensures forall c <- Delivered(fs, p) :: |c| <= PACKET_LEN_MAX
    ensures Had(Run(s, Delivered(fs, p))) == v.saved + Out(v, fs)
    decreases |fs|
  {
    hide Step, Matches, Group, Chunks, NoFalseStart, Run, Kept, Glued, Out;
    DeliveredFits(fs, p);
    MatchesIs(s, v);
    if fs == [] {
      OutNothing(v);
      RunNothing(s);
    } else {
      var w := Group(v, fs[0]);
      OutStep(v, fs);
      ChunksFit(fs[0], p);
      RunAppend(s, Chunks(fs[0], p), Delivered(fs[1..], p));
      if |w.pending| <= MAX_SIZE {
        FrameReceived(s, v, fs[0], p);
        KeptFrom(Run(s, Chunks(fs[0], p)), w, fs[1..], p);
      } else {
        FrameTooLong(s, v, fs[0], p);
        KeptAfterLoss(Run(s, Chunks(fs[0], p)), fs[1..], p);
      }
    }
  }

  lemma OutNothing(v: View)
    requires Frame(v.pending)
    ensures Out(v, []) == [v.pending]
  {
    assert [v.pending] + [] == [v.pending];
  }

  lemma {:induction false} KeptAfterLoss(s: State, fs: seq<Text>, p: nat)
    requires Lost(s, s.saved, s.idr) && Frames(fs) && 5 <= p <= PACKET_LEN_MAX && Clean(fs, p)
    ensures forall c <- Delivered(fs, p) :: |c| <= PACKET_LEN_MAX
    ensures Had(Run(s, Delivered(fs, p))) == s.saved + Kept(fs, s.idr)
    decreases |fs|
  {
    hide Step, Matches, Chunks, NoFalseStart, Run, Kept, Out;
    DeliveredFits(fs, p);
    if fs == [] {
      RunNothing(s);
      KeptNothing(s.idr);
    } else {
      var f, rest := fs[0], fs[1..];
      assert [f] + rest == fs;
      ChunksFit(f, p);
      RunAppend(s, Chunks(f, p), Delivered(rest, p));
      FrameAfterLoss(s, f, p);
      var t := Run(s, Chunks(f, p));
      if |f| <= MAX_SIZE {
        KeptIsOut(s.saved, f, rest, s.idr);
        KeptFrom(t, View(s.saved, f, s.idr, true), rest, p);
      } else {
        KeptTooLong(f, rest, s.idr);
        KeptAfterLoss(t, rest, p);
      }
    }
  }

  lemma KeptNothing(mark: bool)
    ensures Kept([], mark) == []
  {
  }

  /** Frames of any length: from the first parameter set on, exactly the pieces that fit into the buffer
      are saved or pending, in order. */
  lemma {:induction false} KeptExactly(s: State, fs: seq<Text>, p: nat)
    requires Fresh(s) && Frames(fs) && 5 <= p <= PACKET_LEN_MAX && Clean(fs, p)
    ensures forall c <- Delivered(fs, p) :: |c| <= PACKET_LEN_MAX
    ensures Had(Run(s, Delivered(fs, p))) == Kept(FromKey(fs), false)
    decreases |fs|
  {
    hide Step, Matches, Group, Chunks, NoFalseStart, Run, Kept, Out;
    DeliveredFits(fs, p);
    if fs == [] {
      RunNothing(s);
      KeptNothing(false);
    } else {
      var v := View([], [], false, false);
      var f, rest := fs[0], fs[1..];
      assert [f] + rest == fs;
      MatchesIs(s, v);
      GroupGop(v, f);
      GroupFirst(v, f);
      ChunksFit(f, p);
      RunAppend(s, Chunks(f, p), Delivered(rest, p));
      var t := Run(s, Chunks(f, p));
      if !IsKey(f[4]) {
        FrameReceived(s, v, f, p);
        MatchesIs(t, v);
        KeptExactly(t, rest, p);
      } else if |f| <= MAX_SIZE {
        FrameReceived(s, v, f, p);
        KeptIsOut([], f, rest, false);
        KeptFrom(t, View([], f, false, true), rest, p);
        assert [] + Kept(fs, false) == Kept(fs, false);
      } else {
        FrameTooLong(s, v, f, p);
        KeptTooLong(f, rest, false);
        KeptAfterLoss(t, rest, p);
        assert [] + Kept(rest, false) == Kept(rest, false);
      }
    }
  }
}
