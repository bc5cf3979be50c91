/** Runs of the signalling session of `peer_connection_mesh.cc`: what brings it from one state to the next,
    what ends a connection, and what is left over of a reply cut off. */
module MeshRuns {
  import opened MeshSession
  import opened ConnAddress
  import opened MeshReplies

  // ---------- from state to state ----------

  /** A whole reply of a status other than 200, behind what was there. */
  predicate Rejects(before: string, text: string) {
    Complete(before + text) && Status(before + text) != 200
  }

  /** What shuts an open session at once. */
  predicate Shuts(s: Session, e: Event) {
    match e
    case Close => true
    case ServerConnFailed => true
    case Refused(control) => !control
    case Read(text, _, _) => Rejects(s.controlData, text)
    case HangingRead(text) => Rejects(s.notificationData, text)
    case Retry(ok) => s.running && !ok
    case SignOut(closed, _) => !closed
    case SendToPeer(peer, closed, ok) => s.state == CONNECTED && closed && peer != -1 && !ok
    case _ => false
  }

  /** What lets a session start to sign in. */
  predicate Starts(s: Session, e: Event) {
    match e
    case Connect(named, ok) => named && ok
    case Retry(ok) => s.running && ok
    case _ => false
  }

  /** A closed session leaves that state by a successful dial alone, and the dial is for a sign-in. */
  lemma FromClosed(s: Session, e: Event)
    requires Inv(s) && s.state == NOT_CONNECTED
    ensures Next(s, e).state == if Starts(s, e) then SIGNING_IN else NOT_CONNECTED
    ensures Next(s, e).myId == -1
    ensures Next(s, e).created <==> s.created || (e.Connect? && e.named) || (e.Retry? && s.running)
  {
    hide Complete, Status, ReplyId;
  }

  /** A session signing out is left by a new dial, or shut; replies on the control socket are not read. */
  lemma FromSigningOut(s: Session, e: Event)
    requires Inv(s) && s.state == SIGNING_OUT
    ensures Next(s, e).state ==
            if Starts(s, e) then SIGNING_IN
            else if (e.Connect? && e.named) || (e.Retry? && s.running) || e.Close? || e.ServerConnFailed?
                 || (e.Refused? && !e.control) || (e.HangingRead? && Rejects(s.notificationData, e.text))
            then NOT_CONNECTED
            else SIGNING_OUT
    ensures Next(s, e).myId == -1 && Next(s, e).controlData == s.controlData
  {
    hide Complete, Status, ReplyId;
  }

  /** Signing in without an id: a whole reply of status 200 connects, with the id it carries. */
  lemma FromSigningIn(s: Session, e: Event)
    requires Inv(s) && s.state == SIGNING_IN && s.myId == -1 && s.created
    ensures var t := Next(s, e);
            if Shuts(s, e) then t.state == NOT_CONNECTED && t.myId == -1
            else if e.Read? && Complete(s.controlData + e.text)
            then t.state == CONNECTED && t.myId == ReplyId(s.controlData + e.text) && t.controlData == ""
            else if e.SignOut? then t.state == SIGNING_OUT && t.myId == -1
            else t.state == SIGNING_IN && t.myId == -1
  {
    hide Complete, Status, ReplyId;
  }

  /** Connected: the session stays as it is, is shut, signs out, or dials again and keeps its id. */
  lemma FromConnected(s: Session, e: Event)
    requires Inv(s) && s.state == CONNECTED && s.created
    ensures var t := Next(s, e);
            if Shuts(s, e) then t.state == NOT_CONNECTED && t.myId == -1
            else if e.SignOut? then t.state == (if e.ok then SIGNING_OUT else NOT_CONNECTED) && t.myId == -1
            else if e.Retry? && s.running then t.state == SIGNING_IN && t.myId == s.myId
            else t.state == CONNECTED && t.myId == s.myId
  {
    hide Complete, Status, ReplyId;
  }

  /** Whether the session should run changes by these events alone; an attempt to connect counts only where
      it is made. */
  lemma RunningExactly(s: Session, e: Event)
    ensures Next(s, e).running <==>
            e.Start? || (e.Connect? && e.named && (s.state == NOT_CONNECTED || s.state == SIGNING_OUT))
            || (s.running && !e.Stop?)
  {
    hide Complete, Status, ReplyId;
  }

  // ---------- connections over runs ----------

  /** What ends a connection. */
  predicate Ends(s: Session, e: Event) {
    Shuts(s, e) || e.SignOut? || (e.Retry? && s.running)
  }

  predicate NoneEnds(s: Session, es: seq<Event>)
    decreases |es|
  {
    es == [] || (!Ends(s, es[0]) && NoneEnds(Next(s, es[0]), es[1..]))
  }

  predicate StaysConnected(s: Session, id: int, es: seq<Event>)
    decreases |es|
  {
    s.state == CONNECTED && s.myId == id && (es == [] || StaysConnected(Next(s, es[0]), id, es[1..]))
  }

  lemma CreatedStays(s: Session, e: Event)
    requires s.created
    ensures Next(s, e).created
  {
    hide Complete, Status, ReplyId;
  }

  lemma ConnectedStep(s: Session, e: Event)
    requires Inv(s) && s.state == CONNECTED && s.created
    ensures (Next(s, e).state == CONNECTED && Next(s, e).myId == s.myId) <==> !Ends(s, e)
  {
    hide Next, Shuts;
    FromConnected(s, e);
  }

  /** A connection stays, with its id, through a run exactly when none of its events ends one. */
  lemma {:induction false} StaysConnectedExactly(s: Session, es: seq<Event>)
    requires Inv(s) && s.state == CONNECTED && s.created
    ensures StaysConnected(s, s.myId, es) <==> NoneEnds(s, es)
    decreases |es|
  {
    hide Next, Ends;
    if es != [] {
      var t := Next(s, es[0]);
      ConnectedStep(s, es[0]);
      CreatedStays(s, es[0]);
      if t.state == CONNECTED && t.myId == s.myId { StaysConnectedExactly(t, es[1..]); }
    }
  }

  /** Somewhere in the run a dial succeeded, and later a whole reply of status 200 was read. */
  predicate SignedIn(s: Session, es: seq<Event>)
    decreases |es|
  {
    es != [] && ((Dials(s, es[0]) && Welcomed(Next(s, es[0]), es[1..])) || SignedIn(Next(s, es[0]), es[1..]))
  }

  predicate Dials(s: Session, e: Event) {
    (e.Connect? && e.named && e.ok) || (e.Retry? && s.running && e.ok)
  }

  predicate Welcomed(s: Session, es: seq<Event>)
    decreases |es|
  {
    es != [] && (Welcome(s, es[0]) || Welcomed(Next(s, es[0]), es[1..]))
  }

  predicate Welcome(s: Session, e: Event) {
    e.Read? && Complete(s.controlData + e.text) && Status(s.controlData + e.text) == 200
  }

  lemma OneStep(s: Session, e: Event)
    requires Inv(s)
    ensures s.state == NOT_CONNECTED || s.state == SIGNING_OUT ==>
              Next(s, e).state != CONNECTED && (Next(s, e).state == SIGNING_IN <==> Dials(s, e))
    ensures s.state != CONNECTED && !Welcome(s, e) ==> Next(s, e).state != CONNECTED
  {
    hide Complete, Status, ReplyId;
  }

  /** No one is connected without a reply that welcomed him. */
  lemma {:induction false} WelcomedFirst(s: Session, es: seq<Event>)
    requires Inv(s) && NoneAnonymous(s, es) && s.state != CONNECTED && After(s, es).state == CONNECTED
    ensures Welcomed(s, es)
    decreases |es|
  {
    hide Next, Anonymous, Inv, Welcome;
    var t := Next(s, es[0]);
    NextKeepsExactly(s, es[0]);
    OneStep(s, es[0]);
    if t.state != CONNECTED { WelcomedFirst(t, es[1..]); }
  }

  /** Nor without a dial in front of it. */
  lemma {:induction false} SignedInFirst(s: Session, es: seq<Event>)
    requires Inv(s) && NoneAnonymous(s, es) && (s.state == NOT_CONNECTED || s.state == SIGNING_OUT)
    requires After(s, es).state == CONNECTED
    ensures SignedIn(s, es)
    decreases |es|
  {
    hide Next, Anonymous, Welcome, Dials;
    var t := Next(s, es[0]);
    NextKeepsExactly(s, es[0]);
    OneStep(s, es[0]);
    if t.state == NOT_CONNECTED || t.state == SIGNING_OUT {
      SignedInFirst(t, es[1..]);
    } else {
      WelcomedFirst(t, es[1..]);
    }
  }

  // ---------- notifications in pieces ----------

  function HangingReads(ps: seq<string>): seq<Event> {
    seq(|ps|, i requires 0 <= i < |ps| => HangingRead(ps[i]))
  }

  lemma PartHeard(s: Session, part: string)
    requires !Complete(s.notificationData + part)
    ensures Next(s, HangingRead(part)) == s.(notificationData := s.notificationData + part)
  {
    hide Complete, Status;
  }

  lemma LastHeard(s: Session, part: string)
    requires Complete(s.notificationData + part)
    ensures Next(s, HangingRead(part)) ==
            if Status(s.notificationData + part) == 200 then s.(notificationData := "")
            else s.(notificationData := "", myId := -1, state := NOT_CONNECTED)
  {
    hide Complete, Status;
  }

  lemma {:induction false} PiecesHeard(s: Session, text: string, ps: seq<string>)
    requires ps != [] && (forall k :: 0 <= k < |ps| ==> ps[k] != "") && s.notificationData + Concatenated(ps) == text
    requires Complete(text) && forall m :: 0 <= m < |text| ==> !Complete(text[..m])
    ensures After(s, HangingReads(ps)) ==
            if Status(text) == 200 then s.(notificationData := "")
            else s.(notificationData := "", myId := -1, state := NOT_CONNECTED)
    decreases |ps|
  {
    hide Complete, Next, Status;
    var es := HangingReads(ps);
    assert es[0] == HangingRead(ps[0]) && es[1..] == HangingReads(ps[1..]);
    var data := s.notificationData + ps[0];
    if |ps| == 1 {
      assert ps[1..] == [];
      assert Concatenated(ps) == ps[0];
      LastHeard(s, ps[0]);
    } else {
      Together(s.notificationData, ps[0], Concatenated(ps[1..]));
      NotEmpty(ps[1..]);
      assert text[..|data|] == data;
      PartHeard(s, ps[0]);
      PiecesHeard(s.(notificationData := data), text, ps[1..]);
    }
  }

  /** A notification leaves the session as it is, unless its status is an error, in whatever pieces it
      arrives and whatever the state. */
  lemma NotificationHeard(s: Session, r: Reply, length: nat, n: nat, id: nat, who: nat, ps: seq<string>)
    requires s.notificationData == ""
    requires Says(r, length, n, id, who) && End(r) + 4 + n < 0x1_0000_0000_0000_0000 && |r.body| == n
    requires ps != [] && (forall k :: 0 <= k < |ps| ==> ps[k] != "") && Concatenated(ps) == TextOf(r)
    ensures After(s, HangingReads(ps)) == if r.status == 200 then s else s.(state := NOT_CONNECTED, myId := -1)
  {
    hide Complete, Status, ReplyId, TextOf, Says, End, HangingReads, Concatenated;
    ReplyRead(r, length, n, id, who);
    forall m | 0 <= m < |TextOf(r)| ensures !Complete(TextOf(r)[..m]) {
      NoneSooner(r, length, n, id, who, m);
    }
    assert "" + TextOf(r) == TextOf(r);
    PiecesHeard(s, TextOf(r), ps);
  }

  // ---------- what a reply cut off leaves behind ----------

  /** The first line of a reply cut off in front of its line end. */
  function CutOff(protocol: string, status: nat, reason: string): string {
    protocol + (" " + (Decimal(status) + reason))
  }

  predicate IsCutOff(protocol: string, status: nat, reason: string) {
    Line(protocol) && ' ' !in protocol && '\r' !in reason && (reason != "" ==> !IsDigit(reason[0]))
  }

  /** A reply behind such a rest is one reply with the status of the rest. */
  function Behind(protocol: string, status: nat, reason: string, r: Reply): Reply {
    Reply.Reply(protocol, status, reason + Heading(r), r.lines, r.body)
  }

  lemma BehindIs(protocol: string, status: nat, reason: string, r: Reply, length: nat, n: nat, id: nat, who: nat)
    requires IsCutOff(protocol, status, reason) && Says(r, length, n, id, who)
    requires reason != "" || !IsDigit(r.protocol[0])
    ensures Says(Behind(protocol, status, reason, r), length, n, id, who)
    ensures TextOf(Behind(protocol, status, reason, r)) == CutOff(protocol, status, reason) + TextOf(r)
  {
    hide First, Tail, Decimal;
    DecimalPlain(r.status);
    var b := Behind(protocol, status, reason, r);
    assert b.reason != "" && b.reason[0] == if reason != "" then reason[0] else r.protocol[0];
    var h, t := Heading(r), Tail(r.lines, r.body);
    Together(Decimal(status), reason, h);
    assert Heading(b) == CutOff(protocol, status, reason) + h;
    assert (CutOff(protocol, status, reason) + h) + t == CutOff(protocol, status, reason) + (h + t);
  }

  /** Closing does not clear what was read: signing in again behind a reply cut off, the session takes
      the status of the old reply and the id of the new one. */
  lemma StaleSignIn(s: Session, protocol: string, status: nat, reason: string, r: Reply, length: nat, n: nat,
                    id: nat, who: nat, closed: bool, ok: bool)
    requires Inv(s) && s.state == NOT_CONNECTED && s.controlData == CutOff(protocol, status, reason)
    requires IsCutOff(protocol, status, reason) && Says(r, length, n, id, who) && |r.body| == n
    requires reason != "" || !IsDigit(r.protocol[0])
    requires |s.controlData| + End(r) + 4 + n < 0x1_0000_0000_0000_0000
    ensures var t := After(s, [Connect(true, true), Read(TextOf(r), closed, ok)]);
            && t.state == (if status == 200 then CONNECTED else NOT_CONNECTED)
            && t.myId == (if status == 200 && id < |r.lines| then who else -1) && t.controlData == ""
  {
    hide *;
    var b := Behind(protocol, status, reason, r);
    BehindIs(protocol, status, reason, r, length, n, id, who);
    BehindSize(protocol, status, reason, r);
    ReplyRead(b, length, n, id, who);
    var e, f := Connect(true, true), Read(TextOf(r), closed, ok);
    TwoSteps(s, e, f);
    var u := Next(s, e);
    Dial(s);
    FromSigningIn(u, f);
    ReadRejects(u, f);
    BodyOf(protocol, status, reason, r);
  }

  lemma BodyOf(protocol: string, status: nat, reason: string, r: Reply)
    ensures var b := Behind(protocol, status, reason, r); b.status == status && b.lines == r.lines && b.body == r.body
  {
  }

  lemma BehindSize(protocol: string, status: nat, reason: string, r: Reply)
    ensures End(Behind(protocol, status, reason, r)) == |CutOff(protocol, status, reason)| + End(r)
  {
  }

  lemma TwoSteps(s: Session, e: Event, f: Event)
    ensures After(s, [e, f]) == Next(Next(s, e), f)
  {
    hide Next;
    assert [e, f][1..] == [f] && [f][1..] == [];
    assert After(Next(s, e), [f]) == After(Next(Next(s, e), f), []);
  }

  lemma Dial(s: Session)
    requires Inv(s) && s.state == NOT_CONNECTED
    ensures var u := Next(s, Connect(true, true));
            Inv(u) && u.state == SIGNING_IN && u.myId == -1 && u.created && u.controlData == s.controlData
  {
  }

  lemma ReadRejects(s: Session, e: Event)
    requires e.Read?
    ensures Shuts(s, e) <==> Complete(s.controlData + e.text) && Status(s.controlData + e.text) != 200
    ensures Shuts(s, e) ==> Next(s, e).controlData == "" || s.state == NOT_CONNECTED || s.state == SIGNING_OUT
  {
    hide Complete, Status, ReplyId;
  }

  /** From a new session: a reply of an error arrives in part, the session is closed and dials again, and
      the welcome that follows shuts it. */
  lemma CutOffShuts(protocol: string, status: nat, reason: string, r: Reply, length: nat, n: nat, id: nat, who: nat,
                    closed: bool, ok: bool)
    requires IsCutOff(protocol, status, reason) && Says(r, length, n, id, who) && |r.body| == n
    requires reason != "" || !IsDigit(r.protocol[0])
    requires |CutOff(protocol, status, reason)| + End(r) + 4 + n < 0x1_0000_0000_0000_0000
    requires status != 200 && r.status == 200 && id < |r.lines| && who > 0
    ensures var es := [Connect(true, true), Read(CutOff(protocol, status, reason), closed, ok), Close];
            && After(NEW_SESSION, [Connect(true, true), Read(TextOf(r), closed, ok)]).state == CONNECTED
            && After(After(NEW_SESSION, es), [Connect(true, true), Read(TextOf(r), closed, ok)]).state == NOT_CONNECTED
  {
    hide *;
    var rest := CutOff(protocol, status, reason);
    CutOffIncomplete(protocol, status, reason);
    var s := After(NEW_SESSION, [Connect(true, true), Read(rest, closed, ok), Close]);
    CutOffThenClosed(rest, closed, ok);
    StaleSignIn(s, protocol, status, reason, r, length, n, id, who, closed, ok);
    NewSession();
    var u := Next(NEW_SESSION, Connect(true, true));
    TwoSteps(NEW_SESSION, Connect(true, true), Read(TextOf(r), closed, ok));
    Dial(NEW_SESSION);
    EndShort(protocol, status, reason, r);
    ReplyRead(r, length, n, id, who);
    assert "" + TextOf(r) == TextOf(r);
    FromSigningIn(u, Read(TextOf(r), closed, ok));
    ReadRejects(u, Read(TextOf(r), closed, ok));
  }

  lemma EndShort(protocol: string, status: nat, reason: string, r: Reply)
    ensures End(r) <= |CutOff(protocol, status, reason)| + End(r)
  {
    hide *;
  }

  lemma NewSession()
    ensures Inv(NEW_SESSION) && NEW_SESSION.state == NOT_CONNECTED && NEW_SESSION.controlData == ""
  {
  }

  /** Without an empty line nothing is complete. */
  lemma CutOffIncomplete(protocol: string, status: nat, reason: string)
    requires IsCutOff(protocol, status, reason)
    ensures !Complete(CutOff(protocol, status, reason))
  {
    hide Decimal;
    DecimalPlain(status);
    var t := CutOff(protocol, status, reason);
    FindSkips(t, HEADER_END, 0, t);
  }

  lemma CutOffThenClosed(rest: string, closed: bool, ok: bool)
    requires !Complete(rest)
    ensures var s := After(NEW_SESSION, [Connect(true, true), Read(rest, closed, ok), Close]);
            Inv(s) && s.state == NOT_CONNECTED && s.controlData == rest
  {
    hide Complete, Status, ReplyId;
    var e, f, g := Connect(true, true), Read(rest, closed, ok), Event.Close;
    assert [e, f, g][1..] == [f, g];
    TwoSteps(Next(NEW_SESSION, e), f, g);
    assert "" + rest == rest;
    var u := Next(NEW_SESSION, e);
    assert u == Session(SIGNING_IN, -1, true, true, "", "");
    PartRead(u, rest, closed, ok);
  }

  // ---------- dialling again while connected ----------

  /** A connected session that dials again keeps its old id, whatever id the new reply carries. */
  lemma OldIdKept(s: Session, text: string, closed: bool, ok: bool)
    requires Inv(s) && s.state == CONNECTED && s.running && s.controlData == "" && Complete(text) && Status(text) == 200
    ensures After(s, [Retry(true), Read(text, closed, ok)]) == s.(created := true)
  {
    hide Complete, Status, ReplyId;
    TwoSteps(s, Retry(true), Read(text, closed, ok));
    assert "" + text == text;
  }
}
