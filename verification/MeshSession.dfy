/** The signalling session of `peer_connection_mesh.cc`: its state, the id the server assigned, and
    what the replies of the server do to them. Socket operations give their outcome as an input. */
module MeshSession {

  // ---------- replies ----------

  /** Where `p` first stands in `s` from offset i on, or -1. */
  function FindText(s: string, p: string, i: nat): (k: int)
    ensures k == -1 || (i <= k && k + |p| <= |s| && s[k..k + |p|] == p)
    decreases |s| - i
  {
    if i + |p| > |s| then -1
    else if s[i..i + |p|] == p then i
    else FindText(s, p, i + 1)
  }

  predicate IsDigit(c: char) {
    '0' <= c <= '9'
  }

  function Digits(s: string, i: nat, value: int): int
    decreases |s| - i
  {
    if i < |s| && IsDigit(s[i]) then Digits(s, i + 1, 10 * value + (s[i] as int - '0' as int)) else value
  }

  /** `atoi` at offset i: white space, a sign, digits. */
  function Atoi(s: string, i: nat): int
    decreases |s| - i
  {
    if i >= |s| then 0
    else if s[i] == ' ' || '\t' <= s[i] <= '\r' then Atoi(s, i + 1)
    else if s[i] == '-' then -Digits(s, i + 1, 0)
    else if s[i] == '+' then Digits(s, i + 1, 0)
    else Digits(s, i, 0)
  }

  const HEADER_END := "\r\n\r\n"
  const CONTENT_LENGTH := "\r\nContent-Length: "
  const PRAGMA := "\r\nPragma: "

  /** `GetHeaderValue`: the number behind the pattern, if that stands in front of `eoh`. */
  function HeaderValue(data: string, eoh: int, pattern: string): (bool, int) {
    var k := FindText(data, pattern, 0);
    if 0 <= k < eoh then (true, Atoi(data, k + |pattern|)) else (false, 0)
  }

  /** `ReadIntoBuffer` found a whole reply: the sizes are 64-bit numbers without sign. */
  predicate Complete(data: string) {
    var eoh := FindText(data, HEADER_END, 0);
    eoh >= 0 && HeaderValue(data, eoh, CONTENT_LENGTH).0
    && |data| >= (eoh + 4 + HeaderValue(data, eoh, CONTENT_LENGTH).1) % 0x1_0000_0000_0000_0000
  }

  /** `GetResponseStatus`. */
  function Status(data: string): int {
    var k := FindText(data, " ", 0);
    if k >= 0 then Atoi(data, k + 1) else -1
  }

  /** The id a reply carries; without one it is -1. */
  function ReplyId(data: string): int {
    var h := HeaderValue(data, FindText(data, HEADER_END, 0), PRAGMA);
    if h.0 then h.1 else -1
  }

  // ---------- the session ----------

  datatype State = NOT_CONNECTED | RESOLVING | SIGNING_IN | CONNECTED | SIGNING_OUT_WAITING | SIGNING_OUT

  datatype Session = Session(state: State, myId: int, running: bool, created: bool, controlData: string, notificationData: string)

  /** What happens to a session. `ok` is the outcome of connecting the control socket, `closed`
      whether that socket is closed. */
  datatype Event = Connect(named: bool, ok: bool) | Retry(ok: bool)
    | Read(text: string, closed: bool, ok: bool) | HangingRead(text: string)
    | SignOut(closed: bool, ok: bool) | Close | Refused(control: bool) | Closed | ServerConnFailed
    | SendToPeer(peer: int, closed: bool, ok: bool) | Start | Stop

  function Shut(s: Session): Session {
    s.(myId := -1, state := NOT_CONNECTED)
  }

  function Dialled(s: Session, ok: bool): Session {
    if ok then s else Shut(s)
  }

  /** `DoConnect`. */
  function SignIn(s: Session, ok: bool): Session {
    var t := (if s.state == SIGNING_IN then Shut(s) else s).(created := true);
    if ok then t.(state := SIGNING_IN) else Shut(t)
  }

  /** `SignOut`. */
  function Left(s: Session, closed: bool, ok: bool): Session {
    if s.state == NOT_CONNECTED || s.state == SIGNING_OUT || !s.created then s
    else if !closed then Shut(s)
    else if s.myId != -1 then Dialled(s.(state := SIGNING_OUT, myId := -1), ok)
    else s.(state := SIGNING_OUT)
  }

  /** `OnRead` with what the socket had. */
  function Answered(s: Session, text: string, closed: bool, ok: bool): Session {
    if s.state == NOT_CONNECTED || s.state == SIGNING_OUT then s else Taken(s, s.controlData + text, closed, ok)
  }

  /** What all the data read so far does. */
  function Taken(s: Session, data: string, closed: bool, ok: bool): Session {
    if !Complete(data) then s.(controlData := data)
    else if Status(data) != 200 then Shut(s).(controlData := "")
    else
      var t := if s.myId == -1 then s.(myId := ReplyId(data))
               else if s.state == SIGNING_OUT_WAITING then Left(s, closed, ok)
               else s;
      (if t.state == SIGNING_IN then t.(state := CONNECTED) else t).(controlData := "")
  }

  /** `OnHangingGetRead`. */
  function Notified(s: Session, text: string): Session {
    var data := s.notificationData + text;
    if !Complete(data) then s.(notificationData := data)
    else (if Status(data) != 200 then Shut(s) else s).(notificationData := "")
  }

  function Next(s: Session, e: Event): Session {
    match e
    case Connect(named, ok) =>
      if !named || (s.state != NOT_CONNECTED && s.state != SIGNING_OUT) then s else SignIn(s.(running := true), ok)
    case Retry(ok) => if s.running then SignIn(s, ok) else s
    case Read(text, closed, ok) => Answered(s, text, closed, ok)
    case HangingRead(text) => Notified(s, text)
    case SignOut(closed, ok) => Left(s, closed, ok)
    case Close => Shut(s)
    case Refused(control) => if control then s else Shut(s)
    case Closed => s
    case ServerConnFailed => Shut(s)
    case SendToPeer(peer, closed, ok) =>
      if s.state == CONNECTED && closed && s.myId != -1 && peer != -1 then Dialled(s, ok) else s
    case Start => s.(running := true)
    case Stop => s.(running := false)
  }

  // ---------- what every run keeps ----------

  /** Signed out means without an id, connected means with one, and two states are never the state
      between two events. */
  predicate Inv(s: Session) {
    && s.state != RESOLVING && s.state != SIGNING_OUT_WAITING
    && (s.state == NOT_CONNECTED || s.state == SIGNING_OUT ==> s.myId == -1)
    && (s.state == CONNECTED ==> s.myId != -1)
  }

  /** A reply that signs in without an id. */
  predicate Anonymous(s: Session, e: Event) {
    && e.Read? && s.state == SIGNING_IN && s.myId == -1
    && Complete(s.controlData + e.text) && Status(s.controlData + e.text) == 200 && ReplyId(s.controlData + e.text) == -1
  }

  lemma NextKeepsExactly(s: Session, e: Event)
    requires Inv(s)
    ensures Inv(Next(s, e)) <==> !Anonymous(s, e)
  {
    hide Complete, Status, ReplyId;
  }

  predicate NoneAnonymous(s: Session, es: seq<Event>)
    decreases |es|
  {
    es == [] || (!Anonymous(s, es[0]) && NoneAnonymous(Next(s, es[0]), es[1..]))
  }

  predicate Throughout(s: Session, es: seq<Event>)
    decreases |es|
  {
    Inv(s) && (es == [] || Throughout(Next(s, es[0]), es[1..]))
  }

  const NEW_SESSION := Session(NOT_CONNECTED, -1, false, false, "", "")

  /** A run keeps the invariant at every point exactly when no reply signs in without an id. */
  lemma {:induction false} EveryRunKeepsExactly(s: Session, es: seq<Event>)
    requires Inv(s)
    ensures Throughout(s, es) <==> NoneAnonymous(s, es)
    decreases |es|
  {
    hide Next, Anonymous, Inv;
    if es != [] {
      NextKeepsExactly(s, es[0]);
      if Inv(Next(s, es[0])) { EveryRunKeepsExactly(Next(s, es[0]), es[1..]); }
    }
  }

  /** The first reply is read only while signing in, as the program asserts. */
  lemma FirstReplyWhileSigningIn(s: Session)
    requires Inv(s) && s.myId == -1 && s.state != NOT_CONNECTED && s.state != SIGNING_OUT
    ensures s.state == SIGNING_IN
  {
  }

  /** One event never replaces an id by another one: the session gives it up first, and is not
      connected then. */
  lemma IdIsStable(s: Session, e: Event)
    requires Inv(s) && s.myId != -1
    ensures Next(s, e).myId == s.myId || Next(s, e).myId == -1
    ensures Next(s, e).myId == -1 ==> Next(s, e).state != CONNECTED
  {
    hide Complete, Status, ReplyId;
  }

  /** Signing out leaves the session, whatever the sockets do. */
  lemma SignOutLeaves(s: Session, closed: bool, ok: bool)
    requires Inv(s) && (s.created || s.state == NOT_CONNECTED || s.state == SIGNING_OUT)
    ensures var t := Next(s, SignOut(closed, ok));
            t.myId == -1 && (t.state == NOT_CONNECTED || t.state == SIGNING_OUT)
  {
  }

  // ---------- the client object ----------

  class PeerConnectionMesh {
    var state_: State
    var my_id_: int
    var sm_running: bool
    var sockets: bool
    var control_data_: string
    var notification_data_: string

    ghost function Abs(): Session
      reads this
    {
      Session(state_, my_id_, sm_running, sockets, control_data_, notification_data_)
    }

    constructor ()
      ensures Abs() == NEW_SESSION && Inv(Abs())
    {
      state_, my_id_, sm_running, sockets, control_data_, notification_data_ := NOT_CONNECTED, -1, false, false, "", "";
    }

    method Start()
      modifies this`sm_running
      ensures Abs() == Next(old(Abs()), Event.Start)
    {
      sm_running := true;
    }

    method Stop()
      modifies this`sm_running
      ensures Abs() == Next(old(Abs()), Event.Stop)
    {
      sm_running := false;
    }

    method Close()
      modifies this`my_id_, this`state_
      ensures Abs() == Next(old(Abs()), Event.Close)
    {
      my_id_ := -1;
      state_ := NOT_CONNECTED;
    }

    method ServerConnFailed()
      modifies this`my_id_, this`state_
      ensures Abs() == Next(old(Abs()), Event.ServerConnFailed)
    {
      my_id_ := -1;
      state_ := NOT_CONNECTED;
    }

    method ConnectControlSocket(ok: bool) returns (ret: bool)
      modifies this`my_id_, this`state_
      ensures Abs() == Dialled(old(Abs()), ok) && ret == ok
    {
      if !ok {
        Close();
        return false;
      }
      ret := true;
    }

    method DoConnect(ok: bool)
      modifies this`my_id_, this`state_, this`sockets
      ensures Abs() == SignIn(old(Abs()), ok)
    {
      if state_ == SIGNING_IN { Close(); }
      sockets := true;
      var ret := ConnectControlSocket(ok);
      if ret { state_ := SIGNING_IN; }
    }

    method Connect(server: string, client_name: string, ok: bool)
      modifies this`my_id_, this`state_, this`sockets, this`sm_running
      ensures Abs() == Next(old(Abs()), Event.Connect(server != "" && client_name != "", ok))
    {
      if state_ != NOT_CONNECTED && state_ != SIGNING_OUT { return; }
      if server == "" || client_name == "" { return; }
      sm_running := true;
      DoConnect(ok);
    }

    /** The delayed message to try again. */
    method OnMessage(ok: bool)
      modifies this`my_id_, this`state_, this`sockets
      ensures Abs() == Next(old(Abs()), Retry(ok))
    {
      if sm_running { DoConnect(ok); }
    }

    method SignOut(closed: bool, ok: bool) returns (ret: bool)
      modifies this`my_id_, this`state_
      ensures Abs() == Next(old(Abs()), Event.SignOut(closed, ok))
    {
      if state_ == NOT_CONNECTED || state_ == SIGNING_OUT { return true; }
      if !sockets { return true; }
      if closed {
        state_ := SIGNING_OUT;
        if my_id_ != -1 {
          my_id_ := -1;
          ret := ConnectControlSocket(ok);
        } else {
          ret := true;
        }
      } else {
        state_ := SIGNING_OUT_WAITING;
        Close();
        ret := true;
      }
    }

    method SendToPeer(peer_id: int, closed: bool, ok: bool) returns (ret: bool)
      modifies this`my_id_, this`state_
      ensures Abs() == Next(old(Abs()), Event.SendToPeer(peer_id, closed, ok))
    {
      if state_ != CONNECTED { return false; }
      if !closed { return true; }
      if my_id_ == -1 || peer_id == -1 { return false; }
      ret := ConnectControlSocket(ok);
    }

    /** `ParseServerResponse`: an error of the server closes the session. */
    method ParseServerResponse(response: string) returns (ok: bool, peer_id: int)
      modifies this`my_id_, this`state_
      ensures ok == (Status(response) == 200) && (ok ==> peer_id == ReplyId(response))
      ensures Abs() == if ok then old(Abs()) else Shut(old(Abs()))
    {
      peer_id := -1;
      if Status(response) != 200 {
        Close();
        return false, peer_id;
      }
      var h := HeaderValue(response, FindText(response, HEADER_END, 0), PRAGMA);
      if h.0 { peer_id := h.1; }
      ok := true;
    }

    method OnRead(text: string, closed: bool, dialled: bool)
      modifies this`my_id_, this`state_, this`control_data_
      ensures Abs() == Next(old(Abs()), Read(text, closed, dialled))
    {
      hide Complete, Status, ReplyId;
      if state_ == NOT_CONNECTED || state_ == SIGNING_OUT { return; }
      control_data_ := control_data_ + text;
      if !Complete(control_data_) { return; }
      var ok, peer_id := ParseServerResponse(control_data_);
      if ok {
        if my_id_ == -1 {
          my_id_ := peer_id;
        } else if state_ == SIGNING_OUT {
          Close();
        } else if state_ == SIGNING_OUT_WAITING {
          var r := SignOut(closed, dialled);
        }
      }
      control_data_ := "";
      if state_ == SIGNING_IN { state_ := CONNECTED; }
    }

    method OnHangingGetRead(text: string)
      modifies this`my_id_, this`state_, this`notification_data_
      ensures Abs() == Next(old(Abs()), HangingRead(text))
    {
      hide Complete, Status, ReplyId;
      notification_data_ := notification_data_ + text;
      if Complete(notification_data_) {
        var ok, peer_id := ParseServerResponse(notification_data_);
        notification_data_ := "";
      }
    }

    /** `refused` stands for the error that a connection was refused, `control` for the control
        socket. */
    method OnClose(control: bool, refused: bool)
      modifies this`my_id_, this`state_
      ensures Abs() == Next(old(Abs()), if refused then Refused(control) else Closed)
    {
      if refused && !control { Close(); }
    }
  }
}
