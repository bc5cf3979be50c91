/** The ring of `video/video_data_recv.cc` between the receive loop and the encoder, with its flow
    control by key frames. */
module VideoRing {
  import opened CText
  import opened VideoReceiver

  const LIST_NUM := 30
  const TH_HIGH := 25
  const TH_LOW := 20

  /** Division as C has it: towards zero. */
  function Quotient(x: int, d: nat): int
    requires d > 0
  {
    if x >= 0 then x / d else -((-x) / d)
  }

  /** What remains between two calls besides the queue. */
  datatype Flow = Flow(on: bool, dist: nat)

  /** What one call of `encoded_data_save` returns and leaves. */
  datatype Saved = Saved(ret: int, queue: seq<Text>, flow: Flow)

  /** `flow_ctrl_flag` after the watermark was looked at, for an ordinary frame. */
  function Watched(n: nat, dist: nat, gop: int, fluency: bool): bool {
    if n >= TH_HIGH then dist > Quotient(gop + 1, 2) && fluency
    else if n >= TH_LOW then dist > Quotient((gop + 1) * 4, 5) && fluency
    else false
  }

  function Save(q: seq<Text>, f: Flow, data: Text, gop: int, fluency: bool): Saved
    requires |data| > 4
  {
    var ordinary := !IsKey(data[4]);
    var dist := if ordinary then f.dist + 1 else 0;
    if ordinary && f.on then Saved(0, q, Flow(true, dist))
    else
      var on := ordinary && Watched(|q|, dist, gop, fluency);
      if |q| == (if ordinary then LIST_NUM - 2 else LIST_NUM - 1) then
        Saved(-1, q, Flow(on || (dist > Quotient(gop + 1, 2) && fluency), dist))
      else
        Saved(1, if |q| == LIST_NUM - 1 then [] else q + [data], Flow(on, dist))
  }

  /** Where place i + 1 after place i is. */
  function Next(i: nat): nat {
    (i + 1) % LIST_NUM
  }

  /** n places of the ring from place `tail` on. */
  function Slots(s: seq<Text>, tail: nat, n: nat): (q: seq<Text>)
    requires |s| == LIST_NUM
    ensures |q| == n
  {
    seq(n, i requires 0 <= i < n => s[(tail + i) % LIST_NUM])
  }

  class Ring {
    const list: array<Text>
    var head: nat
    var tail: nat
    var flow_ctrl_flag: bool
    var key_frame_dist: nat
    var data_recv_init_flag: bool

    ghost predicate Valid()
      reads this
    {
      list.Length == LIST_NUM && head < LIST_NUM && tail < LIST_NUM
    }

    function Count(): nat
      requires Valid()
      reads this
    {
      (head + LIST_NUM - tail) % LIST_NUM
    }

    ghost function Queue(): (q: seq<Text>)
      requires Valid()
      reads this, list
      ensures |q| == Count() < LIST_NUM
    {
      Slots(list[..], tail, Count())
    }

    ghost function CurrentFlow(): Flow
      reads this
    {
      Flow(flow_ctrl_flag, key_frame_dist)
    }

    constructor ()
      ensures Valid() && fresh(list) && Queue() == [] && CurrentFlow() == Flow(false, 0) && data_recv_init_flag
    {
      list := new Text[LIST_NUM](_ => []);
      head, tail := 0, 0;
      flow_ctrl_flag, key_frame_dist, data_recv_init_flag := false, 0, true;
    }

    /** `encoded_data_save`; `fluency` says that `g_rcmode` is the fluency-first mode. */
    method Put(data: Text, gop: int, fluency: bool) returns (ret: int)
      requires Valid() && |data| > 4
      modifies this`head, this`flow_ctrl_flag, this`key_frame_dist, list
      ensures Valid()
      ensures Saved(ret, Queue(), CurrentFlow()) == Save(old(Queue()), old(CurrentFlow()), data, gop, fluency)
    {
      hide Watched, Slots, Quotient, Next;
      var ordinary := data[4] != SPS_FRAG && data[4] != PPS_FRAG;
      var n := (head + LIST_NUM - tail) % LIST_NUM;
      if ordinary {
        key_frame_dist := key_frame_dist + 1;
        if flow_ctrl_flag { return 0; }
        Watch(n, gop, fluency);
      } else {
        flow_ctrl_flag := false;
        key_frame_dist := 0;
      }
      var full := if ordinary then (head + 2) % LIST_NUM == tail else (head + 1) % LIST_NUM == tail;
      FullIs(head, tail, n);
      if full {
        if !flow_ctrl_flag && key_frame_dist > Quotient(gop + 1, 2) { flow_ctrl_flag := fluency; }
        return -1;
      }
      Store(data);
      ret := 1;
    }

    /** `watermark_of_data_queue` and what follows from it for an ordinary frame. */
    method Watch(n: nat, gop: int, fluency: bool)
      requires !flow_ctrl_flag
      modifies this`flow_ctrl_flag
      ensures flow_ctrl_flag == Watched(n, key_frame_dist, gop, fluency)
    {
      if n >= TH_HIGH {
        if key_frame_dist > Quotient(gop + 1, 2) { flow_ctrl_flag := fluency; }
      } else if n >= TH_LOW {
        if key_frame_dist > Quotient((gop + 1) * 4, 5) { flow_ctrl_flag := fluency; }
      }
    }

    method Store(data: Text)
      requires Valid()
      modifies this`head, list
      ensures Valid()
      ensures Queue() == if |old(Queue())| == LIST_NUM - 1 then [] else old(Queue()) + [data]
    {
      ghost var s, n := list[..], Count();
      HeadIs(head, tail, n);
      list[head] := data;
      StoredAt(s, tail, n, data);
      assert list[..] == s[head := data];
      head := Next(head);
    }

    /** `encoded_data_get`. */
    method Get() returns (ret: int, data: Text)
      requires Valid()
      modifies this`tail
      ensures Valid()
      ensures if data_recv_init_flag && old(Queue()) != [] then ret == 1 && old(Queue()) == [data] + Queue()
              else ret == 0 && data == [] && Queue() == old(Queue())
    {
      data := [];
      if !data_recv_init_flag { return 0, []; }
      if head == tail { return 0, []; }
      data := list[tail];
      TailIs(head, tail, Count());
      TakenAt(list[..], tail, Count());
      tail := Next(tail);
      ret := 1;
    }
  }

  lemma FullIs(head: nat, tail: nat, n: nat)
    requires head < LIST_NUM && tail < LIST_NUM && n == (head + LIST_NUM - tail) % LIST_NUM
    ensures (head + 2) % LIST_NUM == tail <==> n == LIST_NUM - 2
    ensures (head + 1) % LIST_NUM == tail <==> n == LIST_NUM - 1
  {
  }

  lemma HeadIs(head: nat, tail: nat, n: nat)
    requires head < LIST_NUM && tail < LIST_NUM && n == (head + LIST_NUM - tail) % LIST_NUM
    ensures (tail + n) % LIST_NUM == head
    ensures (Next(head) + LIST_NUM - tail) % LIST_NUM == if n == LIST_NUM - 1 then 0 else n + 1
  {
  }

  lemma TailIs(head: nat, tail: nat, n: nat)
    requires head < LIST_NUM && tail < LIST_NUM && n == (head + LIST_NUM - tail) % LIST_NUM && n > 0
    ensures (head + LIST_NUM - Next(tail)) % LIST_NUM == n - 1
  {
  }

  lemma StoredAt(s: seq<Text>, tail: nat, n: nat, data: Text)
    requires |s| == LIST_NUM && tail < LIST_NUM && n < LIST_NUM
    ensures Slots(s[(tail + n) % LIST_NUM := data], tail, n + 1) == Slots(s, tail, n) + [data]
  {
  }

  lemma TakenAt(s: seq<Text>, tail: nat, n: nat)
    requires |s| == LIST_NUM && tail < LIST_NUM && 0 < n < LIST_NUM
    ensures Slots(s, tail, n) == [s[tail]] + Slots(s, Next(tail), n - 1)
  {
    var q, r := Slots(s, tail, n), Slots(s, Next(tail), n - 1);
    forall i | 0 <= i < n - 1 ensures r[i] == q[i + 1] {
      assert (Next(tail) + i) % LIST_NUM == (tail + (i + 1)) % LIST_NUM;
    }
  }

  // ---------- runs ----------

  datatype Op = Put(data: Text, gop: int, fluency: bool) | Get

  /** The state of a run, with the frames accepted and handed out so far. */
  datatype Trace = Trace(queue: seq<Text>, flow: Flow, accepted: seq<Text>, delivered: seq<Text>)

  predicate Proper(op: Op) {
    op.Put? ==> |op.data| > 4
  }

  function Apply(t: Trace, op: Op): Trace
    requires Proper(op)
  {
    match op
    case Put(data, gop, fluency) =>
      var r := Save(t.queue, t.flow, data, gop, fluency);
      Trace(r.queue, r.flow, if r.ret == 1 then t.accepted + [data] else t.accepted, t.delivered)
    case Get =>
      if t.queue == [] then t
      else t.(queue := t.queue[1..], delivered := t.delivered + [t.queue[0]])
  }

  function Run(t: Trace, ops: seq<Op>): Trace
    requires forall op <- ops :: Proper(op)
    decreases |ops|
  {
    if ops == [] then t else Run(Apply(t, ops[0]), ops[1..])
  }

  /** An ordinary frame offered when 29 frames wait and no flow control is on: the test for room
      asks only whether 28 wait. */
  predicate Overruns(t: Trace, op: Op)
    requires Proper(op)
  {
    op.Put? && !IsKey(op.data[4]) && !t.flow.on && |t.queue| == LIST_NUM - 1
  }

  predicate NoOverrun(t: Trace, ops: seq<Op>)
    requires forall op <- ops :: Proper(op)
    decreases |ops|
  {
    ops == [] || (!Overruns(t, ops[0]) && NoOverrun(Apply(t, ops[0]), ops[1..]))
  }

  /** Nothing lost, nothing out of order. */
  predicate Fifo(t: Trace) {
    t.delivered + t.queue == t.accepted
  }

  /** How many accepted frames are neither handed out nor waiting. */
  function Lost(t: Trace): int {
    |t.accepted| - |t.delivered| - |t.queue|
  }

  lemma ApplyKeeps(t: Trace, op: Op)
    requires Proper(op) && |t.queue| < LIST_NUM
    ensures |Apply(t, op).queue| < LIST_NUM
    ensures !Overruns(t, op) ==> Lost(Apply(t, op)) == Lost(t) && (Fifo(t) ==> Fifo(Apply(t, op)))
    ensures Overruns(t, op) ==> Lost(Apply(t, op)) == Lost(t) + LIST_NUM
  {
    var r := Apply(t, op);
    if op.Put? {
      if r.accepted != t.accepted && !Overruns(t, op) {
        assert t.delivered + (t.queue + [op.data]) == t.delivered + t.queue + [op.data];
      }
    } else if t.queue != [] {
      assert t.delivered + [t.queue[0]] + t.queue[1..] == t.delivered + t.queue;
    }
  }

  /** A run keeps the order and loses nothing exactly when no offer overruns the ring. */
  lemma {:induction false} FifoExactly(t: Trace, ops: seq<Op>)
    requires (forall op <- ops :: Proper(op)) && |t.queue| < LIST_NUM && Fifo(t)
    ensures |Run(t, ops).queue| < LIST_NUM
    ensures Fifo(Run(t, ops)) <==> NoOverrun(t, ops)
    decreases |ops|
  {
    hide Apply, Fifo, Overruns;
    if ops != [] {
      ApplyKeeps(t, ops[0]);
      FifoLost(t);
      if Overruns(t, ops[0]) {
        NeverRecovered(Apply(t, ops[0]), ops[1..]);
        FifoLost(Run(t, ops));
      } else {
        FifoExactly(Apply(t, ops[0]), ops[1..]);
      }
    }
  }

  lemma FifoLost(t: Trace)
    ensures Fifo(t) ==> Lost(t) == 0
  {
  }

  /** What is lost stays lost. */
  lemma {:induction false} NeverRecovered(t: Trace, ops: seq<Op>)
    requires (forall op <- ops :: Proper(op)) && |t.queue| < LIST_NUM
    ensures |Run(t, ops).queue| < LIST_NUM && Lost(Run(t, ops)) >= Lost(t)
    decreases |ops|
  {
    hide Apply, Overruns;
    if ops != [] {
      ApplyKeeps(t, ops[0]);
      NeverRecovered(Apply(t, ops[0]), ops[1..]);
    }
  }

  /** When a frame is refused for want of room. */
  lemma Refusal(t: Trace, data: Text, gop: int, fluency: bool)
    requires |data| > 4
    ensures Save(t.queue, t.flow, data, gop, fluency).ret == -1
      <==> if IsKey(data[4]) then |t.queue| == LIST_NUM - 1 else !t.flow.on && |t.queue| == LIST_NUM - 2
    ensures IsKey(data[4]) && |t.queue| < LIST_NUM - 1 ==>
      Save(t.queue, t.flow, data, gop, fluency).queue == t.queue + [data]
  {
  }

  /** Once flow control is on, nothing is accepted before the next parameter set. */
  lemma {:induction false} NothingBeforeKey(t: Trace, ops: seq<Op>)
    requires (forall op <- ops :: Proper(op)) && t.flow.on
    requires forall op <- ops :: Proper(op) && (op.Put? ==> !IsKey(op.data[4]))
    ensures Run(t, ops).accepted == t.accepted && Run(t, ops).flow.on
    decreases |ops|
  {
    if ops != [] { NothingBeforeKey(Apply(t, ops[0]), ops[1..]); }
  }

  /** For an ordinary frame flow control starts exactly in fluency mode, with 25 frames waiting and more
      than half a group of pictures behind the last parameter set, or with 20 and more than four fifths
      of one. A parameter set ends it, unless the group has no sensible size. */
  lemma FlowStarts(t: Trace, data: Text, gop: int, fluency: bool)
    requires |data| > 4
    ensures var u, n, d := Apply(t, Put(data, gop, fluency)), |t.queue|, t.flow.dist + 1;
            if IsKey(data[4]) then u.flow.dist == 0 && (u.flow.on <==> fluency && n == 29 && gop < -2)
            else
              && u.flow.dist == d
              && (u.flow.on <==>
                    t.flow.on || (fluency && ((n >= 25 && 2 * d > gop + 1) || (20 <= n < 25 && 5 * d > 4 * (gop + 1)))))
  {
  }

  /** A frame is dropped exactly for flow control, and what is not accepted leaves the queue alone. */
  lemma DroppedExactly(t: Trace, data: Text, gop: int, fluency: bool)
    requires |data| > 4
    ensures var r := Save(t.queue, t.flow, data, gop, fluency);
            && r.ret in {-1, 0, 1} && (r.ret == 0 <==> t.flow.on && !IsKey(data[4])) && (r.ret != 1 ==> r.queue == t.queue)
  {
  }

  /** Ordinary frames in fluency mode with this group of pictures, and calls of the encoder. */
  predicate Ordinary(op: Op, gop: int) {
    op.Put? ==> |op.data| > 4 && !IsKey(op.data[4]) && op.gop == gop && op.fluency
  }

  /** At most 25 frames wait, or flow control is on and 26 do. */
  predicate Bounded(t: Trace, gop: int) {
    2 * (t.flow.dist + 1) > gop + 1 && (|t.queue| <= 25 || (t.flow.on && |t.queue| == 26))
  }

  lemma ApplyBounded(t: Trace, op: Op, gop: int)
    requires Ordinary(op, gop) && Bounded(t, gop)
    ensures Bounded(Apply(t, op), gop) && !Overruns(t, op)
  {
    if op.Put? { FlowStarts(t, op.data, op.gop, op.fluency); }
  }

  /** So in fluency mode, more than half a group behind a parameter set, ordinary frames never raise a
      queue of at most 25 above 26, and nothing is lost. */
  lemma {:induction false} FluencyHolds(t: Trace, ops: seq<Op>, gop: int)
    requires (forall op <- ops :: Ordinary(op, gop)) && Bounded(t, gop)
    ensures forall op <- ops :: Proper(op)
    ensures |Run(t, ops).queue| <= 26 && NoOverrun(t, ops)
    decreases |ops|
  {
    hide Apply, Overruns;
    if ops != [] {
      ApplyBounded(t, ops[0], gop);
      FluencyHolds(Apply(t, ops[0]), ops[1..], gop);
    }
  }

  /** The overrun is in reach: when 28 frames wait, a parameter set and an ordinary frame empty the
      ring, whatever the mode and the group of pictures. */
  lemma TwoOffersEmptyTheRing(t: Trace, key: Text, frame: Text, gop: nat, fluency: bool)
    requires |key| > 4 && IsKey(key[4]) && |frame| > 4 && !IsKey(frame[4])
    requires |t.queue| == LIST_NUM - 2 && Fifo(t)
    ensures var r := Run(t, [Put(key, gop, fluency), Put(frame, gop, fluency)]);
            r.queue == [] && Lost(r) == LIST_NUM
  {
    var a, b := Put(key, gop, fluency), Put(frame, gop, fluency);
    assert [a, b][1..] == [b];
    assert Run(t, [a, b]) == Run(Apply(t, a), [b]) == Run(Apply(Apply(t, a), b), []);
    FifoLost(t);
    ApplyKeeps(t, a);
    ApplyKeeps(Apply(t, a), b);
  }
}
