/** When frames do not reach the encoder whole: a packet behind the first one of its frame that looks
    like a start tears the frame, and how a torn frame may be mended. */
module VideoTorn {
  import opened CText
  import opened RtpSession
  import opened VideoReceiver
  import opened VideoPath
  import opened VideoEarly

  // ---------- cutting a frame in front of a packet ----------

  lemma {:induction false} ChunksCut(data: Text, p: nat, i: nat)
    requires p > 0 && i < |Chunks(data, p)|
    ensures i * p < |data|
    ensures Chunks(data[..i * p], p) == Chunks(data, p)[..i] && Chunks(data[i * p..], p) == Chunks(data, p)[i..]
    decreases i
  {
    if i > 0 {
      var n := (i - 1) * p;
      assert i * p == n + p;
      ChunksCut(data[p..], p, i - 1);
      if i > 1 { Multiple(i - 1, p); }
      OneLess(data, p, i, n);
    } else {
      assert data[..0] == [] && data[0..] == data;
    }
  }

  lemma OneLess(data: Text, p: nat, i: nat, n: nat)
    requires p > 0 && |data| > p && 0 < i < |Chunks(data, p)| && n < |data[p..]| && (if i == 1 then n == 0 else n >= p)
    requires Chunks(data[p..][..n], p) == Chunks(data[p..], p)[..i - 1]
    requires Chunks(data[p..][n..], p) == Chunks(data[p..], p)[i - 1..]
    ensures Chunks(data[..n + p], p) == Chunks(data, p)[..i] && Chunks(data[n + p..], p) == Chunks(data, p)[i..]
  {
    hide Chunks;
    var rest := data[p..];
    assert data[..n + p][..p] == data[..p] && data[..n + p][p..] == rest[..n] && data[n + p..] == rest[n..];
    FirstChunks(data, p);
    FirstChunks(data[..n + p], p);
  }

  lemma FirstChunks(data: Text, p: nat)
    requires p > 0 && data != []
    ensures Chunks(data, p) == if |data| <= p then [data] else [data[..p]] + Chunks(data[p..], p)
  {
  }

  lemma Multiple(i: nat, p: nat)
    requires i > 0
    ensures i * p >= p
  {
    assert (i - 1) * p >= 0;
  }

  // ---------- what a run leaves as it is ----------

  lemma {:induction false} SavedGrows(s: State, cs: seq<Text>)
    requires Sound(s) && forall c <- cs :: |c| <= PACKET_LEN_MAX
    ensures s.saved <= Run(s, cs).saved
    decreases |cs|
  {
    if cs != [] {
      SavedGrows(Step(s, cs[0]), cs[1..]);
    }
  }

  // ---------- the packet that looks like a start ----------

  /** An item was saved that is shorter than what is to come there. */
  ghost predicate Torn(saved: seq<Text>, w: View) {
    |w.saved| < |saved| && saved[..|w.saved|] == w.saved && |saved[|w.saved|]| < |w.pending|
  }

  /** What is pending is saved, or the packet is glued to it. */
  lemma FalseStep(s: State, v: View, prev: Text, c: Text)
    requires Matches(s, v) && v.gop && Shows(s, prev) && |prev| >= 4 && 0 < |c| <= PACKET_LEN_MAX
    requires Front(prev, c) == FRAG_HEAD
    ensures var t := Step(s, c);
            && Shows(t, c) && t.gop && t.started
            && if Glued(v) then Matches(t, v.(pending := v.pending + c, idr := true))
               else t.saved == v.saved + [v.pending] && t.offset == |c| && t.frag[..t.offset] == c
  {
    StepShows(s, prev, c);
    assert s.frag[..s.offset][4] == s.frag[4];
    var t := Step(s, c);
    assert t.packet[..|c|] == c;
    if Glued(v) {
      assert t.frag[..t.offset] == s.frag[..s.offset] + c;
      StillFrame(v.pending, c);
    }
  }

  // ---------- one frame ----------

  /** No packet behind `lo` looks like a start. */
  ghost predicate Clear(cs: seq<Text>, lo: nat) {
    forall k :: lo < k < |cs| ==> !FalseStart(cs, k)
  }

  /** Exactly one packet does. */
  ghost predicate Lone(cs: seq<Text>, i: nat) {
    0 < i < |cs| && FalseStart(cs, i) && forall k :: 0 < k < |cs| && k != i ==> !FalseStart(cs, k)
  }

  /** The receiver glues the frame to its own beginning. */
  ghost predicate Mended(f: Text, p: nat)
    requires |f| >= 5 && p >= 5
  {
    f[4] == PPS_FRAG && exists i: nat :: Lone(Chunks(f, p), i) && i * p < 1024
  }

  lemma {:induction false} FirstFalse(cs: seq<Text>, lo: nat) returns (i: nat)
    requires !Clear(cs, lo)
    ensures lo < i < |cs| && FalseStart(cs, i) && forall k :: lo < k < i ==> !FalseStart(cs, k)
    decreases |cs| - lo
  {
    hide FalseStart;
    var k :| lo < k < |cs| && FalseStart(cs, k);
    if FalseStart(cs, lo + 1) {
      i := lo + 1;
    } else {
      i := FirstFalse(cs, lo + 1);
    }
  }

  /** A frame that comes in, and what the receiver holds. */
  ghost predicate Arrives(s: State, v: View, f: Text, p: nat) {
    && Matches(s, v) && Frame(f) && (v.gop || IsKey(f[4])) && 5 <= p <= PACKET_LEN_MAX
    && |Group(v, f).pending| <= MAX_SIZE
  }

  /** The next frame goes together with the one that is pending. */
  predicate Paired(v: View) {
    v.gop && Glued(v)
  }

  lemma Grouped(v: View, f: Text, h: Text, rest: Text)
    requires Frame(h) && (v.gop || IsKey(h[4])) && f == h + rest
    requires v.gop || !v.idr
    ensures Frame(f) && f[4] == h[4] && Group(v, h).gop
    ensures Group(v, f) == Group(v, h).(pending := Group(v, h).pending + rest)
    ensures Group(v, h).idr == Paired(v)
    ensures !Paired(v) ==> Group(v, h).pending == h
  {
    assert (h + rest)[..4] == h[..4];
    GroupWhole(v, f, h, rest);
  }

  /** The packets in front of the first false start arrive as a frame of their own. */
  lemma HeadReceived(s: State, v: View, f: Text, p: nat, i: nat)
    requires Arrives(s, v, f, p) && 0 < i < |Chunks(f, p)|
    requires forall k :: 0 < k < i ==> !FalseStart(Chunks(f, p), k)
    ensures p <= i * p < |f| && Frame(f[..i * p]) && (v.gop || IsKey(f[..i * p][4]))
    ensures forall c <- Chunks(f, p) :: |c| <= PACKET_LEN_MAX
    ensures var cs, h := Chunks(f, p), f[..i * p];
            && |cs[i - 1]| == p && Matches(Run(s, cs[..i]), Group(v, h)) && Shows(Run(s, cs[..i]), cs[i - 1])
  {
    hide Chunks, Step, Run, Matches, Group, NoFalseStart;
    var cs, n := Chunks(f, p), i * p;
    Sizes(f, p);
    ChunksCut(f, p, i);
    var h, rest := f[..n], f[n..];
    Multiple(i, p);
    assert h[..4] == f[..4] && h + rest == f;
    GroupLonger(v, h, rest);
    HeadClear(f, h, p, i);
    FrameReceived(s, v, h, p);
    ChunkSize(f, p, i - 1);
    MatchesIs(s, v);
    LastShown(s, cs[..i - 1], cs[i - 1]);
    assert cs[..i] == cs[..i - 1] + [cs[i - 1]];
  }

  lemma GroupLonger(v: View, h: Text, rest: Text)
    requires |h| >= 5
    ensures |Group(v, h).pending| <= |Group(v, h + rest).pending|
  {
  }

  lemma HeadClear(f: Text, h: Text, p: nat, i: nat)
    requires p >= 5 && i <= |Chunks(f, p)| && Chunks(h, p) == Chunks(f, p)[..i]
    requires forall k :: 0 < k < i ==> !FalseStart(Chunks(f, p), k)
    ensures NoFalseStart(h, p)
  {
    hide Chunks;
    forall k | 0 < k < |Chunks(h, p)| ensures !FalseStart(Chunks(h, p), k) {
      assert !FalseStart(Chunks(f, p), k);
    }
  }

  /** The state behind the first false start, and what is still to come. */
  lemma BehindFalse(s: State, v: View, f: Text, p: nat, i: nat)
    requires Arrives(s, v, f, p) && 0 < i < |Chunks(f, p)| && FalseStart(Chunks(f, p), i)
    requires forall k :: 0 < k < i ==> !FalseStart(Chunks(f, p), k)
    ensures p <= i * p < |f| && forall c <- Chunks(f, p) :: |c| <= PACKET_LEN_MAX
    ensures var cs, hv, w := Chunks(f, p), Group(v, f[..i * p]), Group(v, f);
            var u := Run(s, cs[..i + 1]);
            && Run(s, cs) == Run(u, cs[i + 1..]) && Shows(u, cs[i]) && hv.gop
            && (Glued(hv) <==> !Paired(v) && f[4] == PPS_FRAG && i * p < 1024)
            && w == hv.(pending := hv.pending + f[i * p..])
            && if Glued(hv) then Matches(u, hv.(pending := hv.pending + cs[i], idr := true)) && !w.idr
               else Torn(u.saved, w)
  {
    hide Chunks, Step, Run, Matches, Group, FalseStart, Overlaid;
    var cs, n := Chunks(f, p), i * p;
    HeadReceived(s, v, f, p, i);
    var h, rest := f[..n], f[n..];
    assert h + rest == f;
    MatchesIs(s, v);
    Grouped(v, f, h, rest);
    var t := Run(s, cs[..i]);
    MatchesIs(t, Group(v, h));
    ChunkSize(f, p, i);
    FalseIs(cs, i);
    FalseStep(t, Group(v, h), cs[i - 1], cs[i]);
    LastShown(s, cs[..i], cs[i]);
    assert cs[..i + 1] == cs[..i] + [cs[i]];
    assert cs == cs[..i + 1] + cs[i + 1..];
    RunAppend(s, cs[..i + 1], cs[i + 1..]);
  }

  lemma FalseIs(cs: seq<Text>, i: nat)
    requires 0 < i < |cs| && FalseStart(cs, i)
    ensures |cs[i - 1]| >= 4 && Front(cs[i - 1], cs[i]) == FRAG_HEAD
  {
  }

  /** Behind a glued packet: the rest is appended, or a second false start tears the frame. */
  lemma BehindGlued(u: State, hv: View, w: View, f: Text, p: nat, i: nat)
    requires 5 <= p <= PACKET_LEN_MAX && 0 < i < |Chunks(f, p)| && i * p < |f|
    requires forall c <- Chunks(f, p) :: |c| <= PACKET_LEN_MAX
    requires Matches(u, hv.(pending := hv.pending + Chunks(f, p)[i], idr := true)) && Shows(u, Chunks(f, p)[i]) && hv.gop
    requires w == hv.(pending := hv.pending + f[i * p..]) && |w.pending| <= MAX_SIZE
    ensures var cs := Chunks(f, p);
            var r := Run(u, cs[i + 1..]);
            if Clear(cs, i) then Matches(r, w.(idr := true)) else Torn(r.saved, w)
  {
    hide Chunks, Step, Run, Matches, FalseStart, Clear;
    var cs := Chunks(f, p);
    var v := hv.(pending := hv.pending + cs[i], idr := true);
    ChunksCut(f, p, i);
    ChunksJoined(f[i * p..], p);
    assert cs[i..] == [cs[i]] + cs[i + 1..];
    JoinedOne(cs[i], cs[i + 1..]);
    Assoc(hv.pending, cs[i], Joined(cs[i + 1..]));
    if Clear(cs, i) {
      ClearIs(cs, i);
      TailOf(f, p, i, |cs|);
      assert cs[i + 1..|cs|] == cs[i + 1..];
      TailTaken(u, v, cs[i], cs[i + 1..]);
    } else {
      var j := FirstFalse(cs, i);
      TornTwice(u, v, w, f, p, i, j);
    }
  }

  lemma ClearIs(cs: seq<Text>, lo: nat)
    ensures Clear(cs, lo) <==> forall k :: lo < k < |cs| ==> !FalseStart(cs, k)
  {
    hide FalseStart;
  }

  lemma JoinedOne(c: Text, cs: seq<Text>)
    ensures Joined([c] + cs) == c + Joined(cs)
  {
    assert ([c] + cs)[1..] == cs;
  }

  lemma TailTaken(u: State, v: View, prev: Text, cs: seq<Text>)
    requires Matches(u, v) && v.gop && Shows(u, prev) && Tail(prev, cs) && (forall c <- cs :: |c| <= PACKET_LEN_MAX)
    requires |v.pending| + |Joined(cs)| <= MAX_SIZE
    ensures Matches(Run(u, cs), v.(pending := v.pending + Joined(cs)))
  {
    hide Step, Run;
    TailAppended(u, prev, cs);
    StillFrame(v.pending, Joined(cs));
  }

  /** As far as the next false start. */
  lemma UpToNext(u: State, v: View, f: Text, p: nat, i: nat, j: nat)
    requires 5 <= p <= PACKET_LEN_MAX && 0 < i < j < |Chunks(f, p)|
    requires forall c <- Chunks(f, p) :: |c| <= PACKET_LEN_MAX
    requires forall k :: i < k < j ==> !FalseStart(Chunks(f, p), k)
    requires Matches(u, v) && v.gop && Shows(u, Chunks(f, p)[i])
    requires |v.pending| + |Joined(Chunks(f, p)[i + 1..j])| <= MAX_SIZE
    ensures var cs := Chunks(f, p);
            var x := Run(u, cs[i + 1..j]);
            Matches(x, v.(pending := v.pending + Joined(cs[i + 1..j]))) && Shows(x, cs[j - 1])
  {
    hide Chunks, Step, Run, Matches, FalseStart, Joined;
    var cs := Chunks(f, p);
    TailOf(f, p, i, j);
    TailTaken(u, v, cs[i], cs[i + 1..j]);
    if i + 1 < j {
      ChunkSize(f, p, j - 1);
      LastShown(u, cs[i + 1..j - 1], cs[j - 1]);
      assert cs[i + 1..j] == cs[i + 1..j - 1] + [cs[j - 1]];
    } else {
      assert cs[i + 1..j] == [];
      RunNothing(u);
    }
  }

  lemma TornTwice(u: State, v: View, w: View, f: Text, p: nat, i: nat, j: nat)
    requires 5 <= p <= PACKET_LEN_MAX && 0 < i < j < |Chunks(f, p)|
    requires forall c <- Chunks(f, p) :: |c| <= PACKET_LEN_MAX
    requires FalseStart(Chunks(f, p), j) && forall k :: i < k < j ==> !FalseStart(Chunks(f, p), k)
    requires Matches(u, v) && v.gop && v.idr && Shows(u, Chunks(f, p)[i])
    requires w.saved == v.saved && |w.pending| == |v.pending| + |Joined(Chunks(f, p)[i + 1..])| <= MAX_SIZE
    ensures Torn(Run(u, Chunks(f, p)[i + 1..]).saved, w)
  {
    hide Chunks, Step, Run, Matches, FalseStart, Joined;
    var cs := Chunks(f, p);
    var mid, rest := cs[i + 1..j], cs[j + 1..];
    assert cs[i + 1..] == mid + ([cs[j]] + rest);
    JoinedAppend(mid, [cs[j]] + rest);
    JoinedOne(cs[j], rest);
    ChunkSize(f, p, j);
    UpToNext(u, v, f, p, i, j);
    FalseIs(cs, j);
    FalseStep(Run(u, mid), v.(pending := v.pending + Joined(mid)), cs[j - 1], cs[j]);
    MatchesIs(u, v);
    LastShown(u, mid, cs[j]);
    assert cs[i + 1..] == (mid + [cs[j]]) + rest;
    RunAppend(u, mid + [cs[j]], rest);
    StillTorn(Run(u, mid + [cs[j]]), rest, w);
  }

  /** What becomes of a frame: taken whole, mended, or torn. */
  lemma FrameFate(s: State, v: View, f: Text, p: nat)
    requires Arrives(s, v, f, p)
    ensures forall c <- Chunks(f, p) :: |c| <= PACKET_LEN_MAX
    ensures var r, w := Run(s, Chunks(f, p)), Group(v, f);
            if NoFalseStart(f, p) then Matches(r, w)
            else if !Paired(v) && Mended(f, p) then Matches(r, w.(idr := true)) && !w.idr
            else Torn(r.saved, w)
  {
    hide Step, Run, Matches, Group, FalseStart, Chunks, Glued, Torn;
    var cs := Chunks(f, p);
    Sizes(f, p);
    MatchesIs(s, v);
    if NoFalseStart(f, p) {
      FrameReceived(s, v, f, p);
    } else {
      var i := FirstFalse(cs, 0);
      BehindFalse(s, v, f, p, i);
      OnlyFirst(f, p, i);
      var hv, u := Group(v, f[..i * p]), Run(s, cs[..i + 1]);
      if Glued(hv) {
        BehindGlued(u, hv, Group(v, f), f, p, i);
      } else {
        StillTorn(u, cs[i + 1..], Group(v, f));
      }
    }
  }

  lemma StillTorn(u: State, cs: seq<Text>, w: View)
    requires Sound(u) && (forall c <- cs :: |c| <= PACKET_LEN_MAX) && Torn(u.saved, w)
    ensures Torn(Run(u, cs).saved, w)
  {
    hide Run;
    SavedGrows(u, cs);
  }

  lemma OnlyFirst(f: Text, p: nat, i: nat)
    requires |f| >= 5 && p >= 5 && 0 < i < |Chunks(f, p)| && FalseStart(Chunks(f, p), i)
    requires forall k :: 0 < k < i ==> !FalseStart(Chunks(f, p), k)
    ensures Mended(f, p) <==> f[4] == PPS_FRAG && i * p < 1024 && Clear(Chunks(f, p), i)
  {
    hide Chunks, FalseStart;
    if Mended(f, p) {
      var k: nat :| Lone(Chunks(f, p), k) && k * p < 1024;
      assert k == i;
    }
    if Clear(Chunks(f, p), i) { assert Lone(Chunks(f, p), i); }
  }

  /** A frame is taken as a whole exactly when no later packet of it looks like a start. */
  lemma FrameExactly(s: State, v: View, f: Text, p: nat)
    requires Arrives(s, v, f, p)
    ensures forall c <- Chunks(f, p) :: |c| <= PACKET_LEN_MAX
    ensures Matches(Run(s, Chunks(f, p)), Group(v, f)) <==> NoFalseStart(f, p)
  {
    hide Step, Run, Group, NoFalseStart, Chunks, Mended, Paired, Matches;
    MatchesIs(s, v);
    FrameFate(s, v, f, p);
    MatchesIs(Run(s, Chunks(f, p)), Group(v, f));
    MatchesIs(Run(s, Chunks(f, p)), Group(v, f).(idr := true));
  }

  // ---------- all frames ----------

  /** Which frames reach the encoder whole; `paired` says that the frame before takes the first of
      them. A short parameter frame may be mended only if nothing is to be glued to it any more. */
  ghost predicate Survives(fs: seq<Text>, paired: bool, p: nat)
    requires Frames(fs) && p >= 5
    decreases |fs|
  {
    fs == [] ||
    var f := fs[0];
    if NoFalseStart(f, p) then Survives(fs[1..], !paired && f[4] == PPS_FRAG && |f| < 1024, p)
    else !paired && Mended(f, p) && (|f| >= 1024 || |fs| == 1) && Survives(fs[1..], false, p)
  }

  /** With payloads of 1024 bytes no frame is mended: all of them must be clean. */
  lemma {:induction false} SurvivesIfClean(fs: seq<Text>, paired: bool, p: nat)
    requires Frames(fs) && p >= 1024
    ensures Survives(fs, paired, p) <==> Clean(fs, p)
    decreases |fs|
  {
    hide NoFalseStart, Mended;
    if fs != [] {
      var f := fs[0];
      NeverMended(f, p);
      SurvivesIfClean(fs[1..], !paired && f[4] == PPS_FRAG && |f| < 1024, p);
      assert Clean(fs, p) <==> NoFalseStart(f, p) && Clean(fs[1..], p) by {
        if NoFalseStart(f, p) && Clean(fs[1..], p) {
          forall i | 0 <= i < |fs| ensures NoFalseStart(fs[i], p) {
            assert i > 0 ==> fs[i] == fs[1..][i - 1];
          }
        }
        if Clean(fs, p) {
          forall i | 0 <= i < |fs[1..]| ensures NoFalseStart(fs[1..][i], p) {
            assert fs[1..][i] == fs[i + 1];
          }
        }
      }
    }
  }

  lemma NeverMended(f: Text, p: nat)
    requires |f| >= 5 && p >= 1024
    ensures !Mended(f, p)
  {
    hide FalseStart;
    if Mended(f, p) {
      var i: nat :| Lone(Chunks(f, p), i) && i * p < 1024;
      Multiple(i, p);
    }
  }

  /** Behind the first parameter set, or at it. */
  ghost predicate Expects(v: View, fs: seq<Text>) {
    Frames(fs) && if v.gop then Frame(v.pending) else fs != [] && IsKey(fs[0][4]) && !v.idr
  }

  ghost function Expected(v: View, fs: seq<Text>): (ps: seq<Text>)
    requires Expects(v, fs)
    ensures v.gop ==> ps != []
  {
    if v.gop then Rest(v, fs) else Pieces(fs)
  }

  lemma ExpectStep(v: View, fs: seq<Text>)
    requires Expects(v, fs) && fs != []
    ensures var w := Group(v, fs[0]);
            && w.gop && Frame(w.pending) && Expects(w, fs[1..])
            && v.saved + Expected(v, fs) == w.saved + Rest(w, fs[1..])
            && |w.pending| <= |Rest(w, fs[1..])[0]|
            && (Fit(Expected(v, fs)) ==> Fit(Rest(w, fs[1..])))
  {
    hide Pieces;
    if v.gop {
      RestStep(v, fs);
    } else {
      GroupFirst(v, fs[0]);
      assert [fs[0]] + fs[1..] == fs;
      FirstLonger(fs);
    }
  }

  lemma FirstLonger(fs: seq<Text>)
    requires Frames(fs) && fs != []
    ensures Pieces(fs) != [] && |fs[0]| <= |Pieces(fs)[0]|
  {
  }

  /** Some item saved is shorter than it should be. */
  ghost predicate TornPiece(saved: seq<Text>, ps: seq<Text>) {
    exists j :: 0 <= j < |saved| && j < |ps| && |saved[j]| < |ps[j]|
  }

  lemma TornStays(t: State, cs: seq<Text>, w: View, rest: seq<Text>)
    requires Sound(t) && (forall c <- cs :: |c| <= PACKET_LEN_MAX) && Torn(t.saved, w)
    requires rest != [] && |w.pending| <= |rest[0]|
    ensures TornPiece(Run(t, cs).saved, w.saved + rest)
  {
    hide Run;
    StillTorn(t, cs, w);
    var saved, j := Run(t, cs).saved, |w.saved|;
    assert (w.saved + rest)[j] == rest[0];
  }

  /** A short frame that was mended is saved alone as soon as another frame begins. */
  lemma SavedAlone(t: State, w: View, g: Text, p: nat)
    requires Matches(t, w) && w.gop && w.idr && Frame(g) && 5 <= p <= PACKET_LEN_MAX
    ensures forall c <- Chunks(g, p) :: |c| <= PACKET_LEN_MAX
    ensures Torn(Run(t, Chunks(g, p)).saved, w.(pending := w.pending + g))
  {
    hide Chunks, Step, Matches;
    var cs := Chunks(g, p);
    Sizes(g, p);
    ChunksCut(g, p, 0);
    ChunkSize(g, p, 0);
    FirstFive(g, p);
    MatchesIs(t, w);
    FirstStep(t, w, cs[0]);
    MatchesIs(Step(t, cs[0]), Group(w, cs[0]));
    StillTorn(Step(t, cs[0]), cs[1..], w.(pending := w.pending + g));
  }

  /** What is saved and what is pending are the pieces exactly of the frames that survive; a piece
      that was saved too short stays so. */
  lemma {:induction false} AllFate(s: State, v: View, fs: seq<Text>, p: nat)
    requires Matches(s, v) && Expects(v, fs) && 5 <= p <= PACKET_LEN_MAX && Fit(Expected(v, fs))
    ensures forall c <- Delivered(fs, p) :: |c| <= PACKET_LEN_MAX
    ensures var r, ps := Run(s, Delivered(fs, p)), v.saved + Expected(v, fs);
            if Survives(fs, Paired(v), p) then r.offset <= |r.frag| && r.saved + [r.frag[..r.offset]] == ps
            else TornPiece(r.saved, ps)
    decreases |fs|
  {
    hide Step, Run, Matches, Group, NoFalseStart, Mended, Chunks, Rest, Expected, Glued, TornPiece, Torn, Fit, Pieces;
    DeliveredFits(fs, p);
    MatchesIs(s, v);
    if fs == [] {
      OnePiece(v);
      RunNothing(s);
      ExpectedIs(v, fs);
    } else {
      var f, w, t := fs[0], Group(v, fs[0]), Run(s, Chunks(fs[0], p));
      ExpectStep(v, fs);
      ExpectedIs(w, fs[1..]);
      PendingFits(w, fs);
      FrameFate(s, v, f, p);
      RunAppend(s, Chunks(f, p), Delivered(fs[1..], p));
      PairedNext(s, v, f);
      if NoFalseStart(f, p) {
        AllFate(t, w, fs[1..], p);
      } else if !Paired(v) && Mended(f, p) {
        MendedKind(f, p);
        if |f| >= 1024 || |fs| == 1 {
          MendedSame(w, fs[1..]);
          AllFate(t, w.(idr := true), fs[1..], p);
        } else {
          MendedAlone(t, w, fs, p);
        }
      } else {
        TornStays(t, Delivered(fs[1..], p), w, Rest(w, fs[1..]));
      }
    }
  }

  lemma ExpectedIs(v: View, fs: seq<Text>)
    requires Expects(v, fs) && v.gop
    ensures Expected(v, fs) == Rest(v, fs)
  {
  }

  lemma PendingFits(w: View, fs: seq<Text>)
    requires fs != [] && w.gop && Expects(w, fs[1..]) && Rest(w, fs[1..]) != []
    requires Fit(Rest(w, fs[1..])) && |w.pending| <= |Rest(w, fs[1..])[0]|
    ensures |w.pending| <= MAX_SIZE
  {
  }

  lemma MendedKind(f: Text, p: nat)
    requires |f| >= 5 && p >= 5 && Mended(f, p)
    ensures f[4] == PPS_FRAG
  {
  }

  lemma PairedNext(s: State, v: View, f: Text)
    requires Matches(s, v) && Frame(f) && (v.gop || IsKey(f[4]))
    ensures var w := Group(v, f);
            && (Paired(w) <==> !Paired(v) && f[4] == PPS_FRAG && |f| < 1024)
            && (!Paired(v) ==> w.pending == f)
  {
    hide Group;
    assert f + [] == f;
    Grouped(v, f, f, []);
  }

  /** A mended frame to which nothing is to be glued counts as a whole one. */
  lemma MendedSame(w: View, rest: seq<Text>)
    requires Expects(w, rest) && w.gop && (|w.pending| >= 1024 || rest == [])
    ensures var w' := w.(idr := true);
            Expects(w', rest) && Expected(w', rest) == Rest(w, rest) && !Paired(w')
  {
    if rest == [] {
      OnePiece(w);
      OnePiece(w.(idr := true));
    } else {
      assert ([w.pending] + rest)[1..] == rest;
    }
  }

  lemma MendedAlone(t: State, w: View, fs: seq<Text>, p: nat)
    requires |fs| > 1 && Expects(w, fs[1..]) && w.gop && !w.idr && 5 <= p <= PACKET_LEN_MAX
    requires Matches(t, w.(idr := true)) && w.pending == fs[0] && w.pending[4] == PPS_FRAG && |w.pending| < 1024
    ensures forall c <- Delivered(fs[1..], p) :: |c| <= PACKET_LEN_MAX
    ensures TornPiece(Run(t, Delivered(fs[1..], p)).saved, w.saved + Rest(w, fs[1..]))
  {
    hide Step, Run, Matches, Chunks, TornPiece, Torn, Fit;
    var g, rest := fs[1], Rest(w, fs[1..]);
    var all := [w.pending] + fs[1..];
    assert all[1] == g && all[2..] == fs[2..];
    MatchesIs(t, w.(idr := true));
    SavedAlone(t, w.(idr := true), g, p);
    DeliveredFits(fs[1..], p);
    DeliveredFits(fs[2..], p);
    assert fs[1..][1..] == fs[2..];
    RunAppend(t, Chunks(g, p), Delivered(fs[2..], p));
    TornStays(Run(t, Chunks(g, p)), Delivered(fs[2..], p), w.(idr := true, pending := w.pending + g), rest);
  }

  lemma TornNotWhole(s: State, ps: seq<Text>)
    requires TornPiece(s.saved, ps)
    ensures !Whole(s, ps)
  {
    var j :| 0 <= j < |s.saved| && j < |ps| && |s.saved[j]| < |ps[j]|;
    if s.offset <= |s.frag| {
      assert (s.saved + [s.frag[..s.offset]])[j] == s.saved[j];
    }
  }

  /** End to end, for any payload size: the encoder gets the pieces exactly when the frames before
      the first parameter set are quiet, so that they are dropped, and those from it on survive. */
  lemma EndToEndExactly(s: State, before: seq<Text>, fs: seq<Text>, p: nat)
    requires Fresh(s) && Frames(before + fs) && 5 <= p <= PACKET_LEN_MAX
    requires Frames(before) && FromKey(before) == []
    requires Frames(fs) && (fs == [] || IsKey(fs[0][4])) && Fit(Pieces(fs))
    requires AllQuiet(before, p) || Roomy(before + fs)
    ensures forall c <- Delivered(before + fs, p) :: |c| <= PACKET_LEN_MAX
    ensures FromKey(before + fs) == fs
    ensures Whole(Run(s, Delivered(before + fs, p)), Pieces(fs)) <==> AllQuiet(before, p) && Survives(fs, false, p)
  {
    hide *;
    FromKeyOn(before, fs);
    if AllQuiet(before, p) {
      QuietStart(s, before, fs, p);
    } else {
      EarlyStart(s, before, fs, p);
    }
  }

  lemma {:induction false} FromKeyOn(before: seq<Text>, fs: seq<Text>)
    requires Frames(before + fs) && Frames(before) && FromKey(before) == []
    requires Frames(fs) && (fs == [] || IsKey(fs[0][4]))
    ensures FromKey(before + fs) == fs
  {
    if before == [] {
      assert before + fs == fs;
    } else {
      assert (before + fs)[0] == before[0] && (before + fs)[1..] == before[1..] + fs;
      FromKeyOn(before[1..], fs);
    }
  }

  lemma {:induction false} QuietStart(s: State, before: seq<Text>, fs: seq<Text>, p: nat)
    requires Fresh(s) && Frames(before + fs) && 5 <= p <= PACKET_LEN_MAX
    requires Frames(before) && AllQuiet(before, p) && FromKey(before) == []
    requires Frames(fs) && (fs == [] || IsKey(fs[0][4])) && Fit(Pieces(fs))
    ensures forall c <- Delivered(before + fs, p) :: |c| <= PACKET_LEN_MAX
    ensures Whole(Run(s, Delivered(before + fs, p)), Pieces(fs)) <==> Survives(fs, false, p)
    decreases |before|
  {
    hide Step, Run, Quiet, Chunks, Pieces, Survives, Whole, Fit;
    DeliveredFits(before + fs, p);
    if before != [] {
      var f := before[0];
      assert (before + fs)[0] == f && (before + fs)[1..] == before[1..] + fs;
      QuietDropped(s, f, p);
      DeliveredFits(before[1..] + fs, p);
      RunAppend(s, Chunks(f, p), Delivered(before[1..] + fs, p));
      QuietStart(Run(s, Chunks(f, p)), before[1..], fs, p);
    } else {
      assert before + fs == fs;
      KeyStarted(s, fs, p);
    }
  }

  lemma KeyStarted(s: State, fs: seq<Text>, p: nat)
    requires Fresh(s) && 5 <= p <= PACKET_LEN_MAX
    requires Frames(fs) && (fs == [] || IsKey(fs[0][4])) && Fit(Pieces(fs))
    ensures forall c <- Delivered(fs, p) :: |c| <= PACKET_LEN_MAX
    ensures Whole(Run(s, Delivered(fs, p)), Pieces(fs)) <==> Survives(fs, false, p)
  {
    hide Step, Run, Matches, Group, NoFalseStart, Mended, Chunks, Pieces, Glued, Survives, Whole, TornPiece, Fit, Expected;
    DeliveredFits(fs, p);
    if fs == [] {
      RunNothing(s);
      NoPieces();
      NothingWhole(s, p);
    } else {
      var v := View([], [], false, false);
      MatchesIs(s, v);
      NotPaired(v);
      FreshExpects(v, fs);
      AllFate(s, v, fs, p);
      FirstLonger(fs);
      assert [] + Pieces(fs) == Pieces(fs);
      var r := Run(s, Delivered(fs, p));
      WholeIs(r, Pieces(fs));
      if !Survives(fs, false, p) { TornNotWhole(r, Pieces(fs)); }
    }
  }

  lemma NothingWhole(s: State, p: nat)
    requires Fresh(s) && p >= 5
    ensures Whole(s, []) && Survives([], false, p)
  {
  }

  lemma NotPaired(v: View)
    requires !v.gop
    ensures !Paired(v)
  {
  }

  lemma FreshExpects(v: View, fs: seq<Text>)
    requires v == View([], [], false, false) && Frames(fs) && fs != [] && IsKey(fs[0][4])
    ensures Expects(v, fs) && Expected(v, fs) == Pieces(fs)
  {
  }

  lemma WholeIs(s: State, ps: seq<Text>)
    requires ps != []
    ensures Whole(s, ps) <==> s.offset <= |s.frag| && s.saved + [s.frag[..s.offset]] == ps
  {
  }

  /** With payloads of 1024 bytes and more, as the gateway's: exactly when no frame from the first
      parameter set on has a later packet that looks like a start, and none before it one that looks
      like the start of a key frame. */
  lemma GatewayExactly(s: State, before: seq<Text>, fs: seq<Text>, p: nat)
    requires Fresh(s) && Frames(before + fs) && 1024 <= p <= PACKET_LEN_MAX
    requires Frames(before) && FromKey(before) == []
    requires Frames(fs) && (fs == [] || IsKey(fs[0][4])) && Fit(Pieces(fs))
    requires AllQuiet(before, p) || Roomy(before + fs)
    ensures forall c <- Delivered(before + fs, p) :: |c| <= PACKET_LEN_MAX
    ensures Whole(Run(s, Delivered(before + fs, p)), Pieces(fs)) <==> AllQuiet(before, p) && Clean(fs, p)
  {
    hide *;
    EndToEndExactly(s, before, fs, p);
    SurvivesIfClean(fs, false, p);
  }

  // ---------- a packet too short to hide what the buffer held ----------

  /** A last packet of less than four bytes that completes a start code with bytes of the packet
      before it: the receiver saves the frame without it, and starts a frame with it. */
  lemma StaleStart(s: State, v: View, h: Text, c: Text, p: nat, k: nat)
    requires Arrives(s, v, h, p) && |h| == k * p && NoFalseStart(h, p) && !Glued(Group(v, h))
    requires 1 <= |c| <= 3 && Front(h[|h| - p..], c) == FRAG_HEAD
    ensures Frame(h + c) && !NoFalseStart(h + c, p)
    ensures forall d <- Chunks(h + c, p) :: |d| <= PACKET_LEN_MAX
    ensures var r, w := Run(s, Chunks(h + c, p)), Group(v, h);
            r.saved == w.saved + [w.pending] && r.offset == |c| && r.frag[..r.offset] == c
  {
    hide Step, Run, Group, Matches, Glued, Chunks, NoFalseStart, Overlaid;
    MatchesIs(s, v);
    WholeChunks(h, c, p, k);
    var cs := Chunks(h, p);
    var prev := cs[|cs| - 1];
    StillFrame(h, c);
    FrameReceived(s, v, h, p);
    Sizes(h + c, p);
    var t := Run(s, cs);
    assert cs == cs[..|cs| - 1] + [prev];
    LastShown(s, cs[..|cs| - 1], prev);
    GroupGop(v, h);
    FalseStep(t, Group(v, h), prev, c);
    LastShown(s, cs, c);
    StaleFalse(cs, c, h + c, p);
  }

  lemma StaleFalse(cs: seq<Text>, c: Text, f: Text, p: nat)
    requires p >= 5 && cs != [] && Chunks(f, p) == cs + [c]
    requires |cs[|cs| - 1]| >= 4 && Front(cs[|cs| - 1], c) == FRAG_HEAD
    ensures !NoFalseStart(f, p)
  {
    hide Chunks;
    assert FalseStart(Chunks(f, p), |cs|);
  }

  lemma {:induction false} WholeChunks(h: Text, c: Text, p: nat, k: nat)
    requires p > 0 && h != [] && |h| == k * p && 0 < |c| <= p
    ensures |h| >= p && Chunks(h, p) != [] && Chunks(h, p)[|Chunks(h, p)| - 1] == h[|h| - p..]
    ensures Chunks(h + c, p) == Chunks(h, p) + [c]
    decreases k
  {
    Multiple(k, p);
    assert (h + c)[..p] == h[..p] && (h + c)[p..] == h[p..] + c;
    if |h| == p {
      assert h[..p] == h && h[p..] + c == c && h[|h| - p..] == h;
    } else {
      assert |h[p..]| == (k - 1) * p;
      WholeChunks(h[p..], c, p, k - 1);
      assert h[p..][|h[p..]| - p..] == h[|h| - p..];
    }
  }

  /** So any frame one zero byte longer than the payload is torn, whatever else it holds. */
  lemma OneByteMore(s: State, v: View, h: Text, p: nat)
    requires Arrives(s, v, h, p) && |h| == p >= 1024
    ensures forall d <- Chunks(h + [0], p) :: |d| <= PACKET_LEN_MAX
    ensures Run(s, Chunks(h + [0], p)).saved == Group(v, h).saved + [Group(v, h).pending]
  {
    hide Step, Run, Group, Matches, Chunks;
    assert h[..4][1..] == FRAG_HEAD[1..];
    assert h[|h| - p..] == h && h[1..4] == h[..4][1..];
    assert Front(h, [0]) == FRAG_HEAD;
    OneChunk(h, p);
    LongNotGlued(v, h);
    StaleStart(s, v, h, [0], p, 1);
  }

  lemma OneChunk(h: Text, p: nat)
    requires |h| == p >= 5
    ensures NoFalseStart(h, p)
  {
    assert Chunks(h, p) == [h];
  }

  lemma LongNotGlued(v: View, h: Text)
    requires |h| >= 1024
    ensures v.gop || IsKey(h[4]) ==> !Glued(Group(v, h))
  {
  }
}
