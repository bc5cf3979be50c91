/** Where the rounds of `ConnCtrl::Process` and the callbacks of the mesh client in `conn_ctrl.cc` lead, and
    the runs made of them. */
module ConnRuns {
  import opened ConnSteps

  // ---------- which command leads where ----------

  /** Each server status after a round, by the statuses and commands that lead to it. */
  lemma ServerExactly(s: Conn, now: nat)
    requires s.server != SERVER_CONNECTED && s.cfg == NO_CMD && s.pending == []
    ensures var t, c := Processed(s, now), s.web;
            && (t.server == SERVER_IDLE <==>
                  (s.server == SERVER_IDLE && c != RTC_LOGIN && c != RTC_HDMI_CALL) || (s.server != SERVER_IDLE && c == RTC_LOGOUT))
            && (t.server == SERVER_LOGINING <==>
                  || (s.server == SERVER_IDLE && c == RTC_LOGIN)
                  || (s.server == SERVER_LOGINED && c == RTC_LOGOUT_MSG)
                  || (s.server == SERVER_LOGINING && c != RTC_LOGIN_OK && c != RTC_LOGOUT && c != RTC_HDMI_CALL))
            && (t.server == SERVER_LOGINED <==>
                  || (s.server == SERVER_LOGINED && c != RTC_LOGOUT && c != RTC_LOGOUT_MSG)
                  || (s.server == SERVER_LOGINING && c == RTC_LOGIN_OK)
                  || (s.server != SERVER_LOGINED && c == RTC_HDMI_CALL))
            && t.web == NO_CMD
  {
    hide Find, IsIpv4;
  }

  /** A finished login stops the mesh client, leaving the rtc server starts it, and nothing else waits. */
  lemma MeshCommandExactly(s: Conn, now: nat)
    requires s.server != SERVER_CONNECTED && s.cfg == NO_CMD && s.pending == []
    ensures var t := Processed(s, now);
            && (t.upper == MESH_LOGOUT <==> s.server == SERVER_LOGINING && s.web == RTC_LOGIN_OK)
            && (t.upper == MESH_LOGIN <==> s.server != SERVER_IDLE && s.web == RTC_LOGOUT)
            && t.upper in {NO_CMD, MESH_LOGIN, MESH_LOGOUT}
  {
    hide Find, IsIpv4;
  }

  /** Each mesh status after a round. */
  lemma MeshExactly(s: Conn, now: nat)
    requires s.mesh != MESH_DISCONNECTING && s.cfg == NO_CMD && s.pending == []
    ensures var t, c := Processed(s, now), s.upper;
            && (t.mesh == MESH_IDLE <==> if s.mesh == MESH_IDLE then c != MESH_LOGIN else c == MESH_LOGOUT)
            && (t.mesh == MESH_LOGINING <==>
                  (s.mesh == MESH_IDLE && c == MESH_LOGIN) || (s.mesh == MESH_LOGINING && c != MESH_LOGOUT))
            && (t.mesh == MESH_CONNECTING <==>
                  || (s.mesh == MESH_LOGINED && c == MESH_CONN && s.peer != -1)
                  || (s.mesh == MESH_CONNECTING && c != MESH_DISCONN && c != MESH_LOGOUT))
            && (t.mesh == MESH_CONNECTED <==> s.mesh == MESH_CONNECTED && c != MESH_DISCONN && c != MESH_LOGOUT)
            && t.peer == s.peer
  {
    hide Find, IsIpv4;
  }

  /** A message of the rtc server becomes a command for the server automaton in the same round. */
  lemma MessageExactly(s: Conn, m: Message, now: nat)
    requires s.cfg == NO_CMD && s.pending == [m]
    ensures Processed(s, now) == Processed(s.(
              pending := [],
              web := if m == ServerLogined then RTC_LOGIN_OK else if m == ServerLogout then RTC_LOGOUT_MSG
                     else if m == ServerHangup then RTC_DISCONN else if m.MessageSend? then RTC_MEDIA_SDP_SEND else s.web,
              sdp := if m.MessageSend? then m.sdp else s.sdp), now)
  {
    hide Find, IsIpv4;
  }

  /** The mesh server is set only for an idle mesh client, and only to an address. */
  lemma ServerSetExactly(s: Conn, now: nat)
    requires s.cfg == MESH_SERVER_SET && s.pending == []
    ensures var t := Processed(s, now);
            && t.cfg == NO_CMD && t.rtcServer == s.rtcServer
            && t.meshServer == (if s.mesh == MESH_IDLE && IsIpv4(s.args) then s.args else s.meshServer)
  {
    hide Find, IsIpv4;
  }

  // ---------- the callbacks ----------

  /** Each mesh status after a callback. */
  lemma CallbackExactly(s: Conn, c: Callback)
    requires s.mesh != MESH_DISCONNECTING
    ensures var t := Called(s, c);
            && (t.mesh == MESH_IDLE <==>
                  || c.SignFailed? || (s.mesh == MESH_LOGINING && c.Disconnected?)
                  || (s.mesh == MESH_IDLE && c != SignedIn(true) && !c.PeerDisconnected?))
            && (t.mesh == MESH_LOGINING <==>
                  || (c.PeerDisconnected? && s.mesh != MESH_CONNECTED)
                  || (s.mesh == MESH_LOGINING && !c.SignFailed? && c != SignedIn(true) && !c.Disconnected?))
            && (t.mesh == MESH_LOGINED <==>
                  || c == SignedIn(true) || (s.mesh == MESH_CONNECTED && c.PeerDisconnected?)
                  || (s.mesh == MESH_CONNECTING && c == PeerResult(false))
                  || (s.mesh == MESH_LOGINED && !c.SignFailed? && !c.PeerDisconnected?))
            && (t.mesh == MESH_CONNECTED <==>
                  || (s.mesh == MESH_CONNECTING && c == PeerResult(true))
                  || (s.mesh == MESH_CONNECTED && !c.SignFailed? && c != SignedIn(true) && !c.PeerDisconnected?))
            && t.peer == (if c.PeerConnected? && !c.own then c.id
                          else if c.PeerDisconnected? && s.mesh != MESH_CONNECTED then -1 else s.peer)
            && t == s.(mesh := t.mesh, peer := t.peer)
  {
  }

  // ---------- runs ----------

  /** A mesh call: the client logs in, hears of its peer, dials, is answered, hangs up and logs out. */
  lemma MeshCall(s: Conn, addr: string, id: int, t: nat)
    requires Inv(s) && Drained(s) && s.mesh == MESH_IDLE && s.server == SERVER_IDLE && IsIpv4(addr) && id != -1
    ensures var a := After(s, [Command(MESH_SERVER_SET, addr), Tick(t), Command(MESH_LOGIN, ""), Tick(t)]);
            && a.mesh == MESH_LOGINING && a.meshServer == addr && Drained(a)
            && var b := After(a, [Back(SignedIn(true)), Back(PeerConnected(id, false)), Command(MESH_CONN, ""), Tick(t)]);
            && b.mesh == MESH_CONNECTING && b.peer == id && Drained(b)
            && var c := After(b, [Back(PeerResult(true))]);
            && c.mesh == MESH_CONNECTED
            && After(c, [Command(MESH_DISCONN, ""), Tick(t)]).mesh == MESH_LOGINED
            && After(c, [Back(PeerDisconnected)]).mesh == MESH_LOGINED
            && After(c, [Command(MESH_LOGOUT, ""), Tick(t)]).mesh == MESH_IDLE
            && After(b, [Back(PeerResult(false))]).mesh == MESH_LOGINED
  {
    hide After, Next, Drained, Inv, IsIpv4;
    MeshLogin(s, addr, t);
    var a := After(s, [Command(MESH_SERVER_SET, addr), Tick(t), Command(MESH_LOGIN, ""), Tick(t)]);
    MeshDial(a, id, t);
    var b := After(a, [Back(SignedIn(true)), Back(PeerConnected(id, false)), Command(MESH_CONN, ""), Tick(t)]);
    MeshAnswered(b);
    MeshHangUp(After(b, [Back(PeerResult(true))]), t);
  }

  lemma MeshLogin(s: Conn, addr: string, t: nat)
    requires Drained(s) && s.mesh == MESH_IDLE && s.server == SERVER_IDLE && IsIpv4(addr)
    ensures var a := After(s, [Command(MESH_SERVER_SET, addr), Tick(t), Command(MESH_LOGIN, ""), Tick(t)]);
            a.mesh == MESH_LOGINING && a.meshServer == addr && Drained(a) && a.server == SERVER_IDLE
  {
    hide Processed, Find, IsIpv4;
    Four(s, Command(MESH_SERVER_SET, addr), Tick(t), Command(MESH_LOGIN, ""), Tick(t));
    var s1 := Next(s, Command(MESH_SERVER_SET, addr));
    Addressed(addr);
    ServerSetRound(s1, t);
    MeshRound(Next(Processed(s1, t), Command(MESH_LOGIN, "")), t);
  }

  lemma MeshDial(a: Conn, id: int, t: nat)
    requires Drained(a) && a.mesh == MESH_LOGINING && a.server == SERVER_IDLE && id != -1
    ensures var b := After(a, [Back(SignedIn(true)), Back(PeerConnected(id, false)), Command(MESH_CONN, ""), Tick(t)]);
            b.mesh == MESH_CONNECTING && b.peer == id && Drained(b) && b.server == SERVER_IDLE
  {
    hide Processed, Find, IsIpv4;
    Four(a, Back(SignedIn(true)), Back(PeerConnected(id, false)), Command(MESH_CONN, ""), Tick(t));
    MeshRound(Next(Next(Next(a, Back(SignedIn(true))), Back(PeerConnected(id, false))), Command(MESH_CONN, "")), t);
  }

  lemma MeshAnswered(b: Conn)
    requires Drained(b) && b.mesh == MESH_CONNECTING && b.server == SERVER_IDLE
    ensures var c := After(b, [Back(PeerResult(true))]); c.mesh == MESH_CONNECTED && Drained(c) && c.server == SERVER_IDLE
    ensures After(b, [Back(PeerResult(false))]).mesh == MESH_LOGINED
  {
    One(b, Back(PeerResult(true)));
    One(b, Back(PeerResult(false)));
  }

  lemma MeshHangUp(c: Conn, t: nat)
    requires Drained(c) && c.mesh == MESH_CONNECTED && c.server == SERVER_IDLE
    ensures After(c, [Command(MESH_DISCONN, ""), Tick(t)]).mesh == MESH_LOGINED
    ensures After(c, [Back(PeerDisconnected)]).mesh == MESH_LOGINED
    ensures After(c, [Command(MESH_LOGOUT, ""), Tick(t)]).mesh == MESH_IDLE
  {
    hide Processed, Find, IsIpv4;
    One(c, Back(PeerDisconnected));
    Two(c, Command(MESH_DISCONN, ""), Tick(t));
    MeshRound(Next(c, Command(MESH_DISCONN, "")), t);
    Two(c, Command(MESH_LOGOUT, ""), Tick(t));
    MeshRound(Next(c, Command(MESH_LOGOUT, "")), t);
  }

  lemma Addressed(addr: string)
    requires IsIpv4(addr)
    ensures addr != ""
  {
  }

  lemma One(s: Conn, a: Event)
    ensures After(s, [a]) == Next(s, a)
  {
    assert [a][1..] == [];
  }

  lemma Two(s: Conn, a: Event, b: Event)
    ensures After(s, [a, b]) == Next(Next(s, a), b)
  {
    assert [a, b][1..] == [b];
    One(Next(s, a), b);
  }

  lemma Four(s: Conn, a: Event, b: Event, c: Event, d: Event)
    ensures After(s, [a, b, c, d]) == Next(Next(Next(Next(s, a), b), c), d)
  {
    hide Next;
    assert [a, b, c, d][1..] == [b, c, d] && [b, c, d][1..] == [c, d];
    Two(Next(Next(s, a), b), c, d);
  }

  lemma ServerSetRound(s: Conn, now: nat)
    requires s.cfg == MESH_SERVER_SET && s.upper == NO_CMD && s.web == NO_CMD && s.pending == []
    requires s.mesh == MESH_IDLE && s.server == SERVER_IDLE && IsIpv4(s.args)
    ensures Processed(s, now) == s.(cfg := NO_CMD, meshServer := s.args)
  {
    hide IsIpv4;
  }

  /** A round for a mesh command alone. */
  lemma MeshRound(s: Conn, now: nat)
    requires s.cfg == NO_CMD && s.web == NO_CMD && s.pending == [] && s.server == SERVER_IDLE
    ensures Processed(s, now) == s.(mesh := MeshNext(s.mesh, s.upper, s.peer), upper := NO_CMD)
  {
  }

  /** Rounds handle the waiting messages in the order they came, one each. */
  lemma {:induction false} MessagesInOrder(s: Conn, times: seq<nat>)
    requires |times| <= |s.pending|
    ensures After(s, Ticks(times)).pending == s.pending[|times|..]
    decreases |times|
  {
    hide Processed;
    if times != [] {
      var t := Processed(s, times[0]);
      OneMessage(s, times[0]);
      assert Ticks(times)[0] == Tick(times[0]) && Ticks(times)[1..] == Ticks(times[1..]);
      MessagesInOrder(t, times[1..]);
    }
  }

  function Ticks(times: seq<nat>): seq<Event> {
    seq(|times|, i requires 0 <= i < |times| => Tick(times[i]))
  }

  lemma OneMessage(s: Conn, now: nat)
    ensures Processed(s, now).pending == if s.pending == [] then [] else s.pending[1..]
  {
    hide Find, IsIpv4, MeshNext, ServerNext;
  }

  /** A message that comes in waits behind the others, and a command in the slot of its kind. */
  lemma EventsWait(s: Conn, m: Message, c: Cmd, args: string)
    ensures Next(s, Queued(m)) == s.(pending := s.pending + [m])
    ensures var t := Next(s, Command(c, args));
            && t.args == (if args == "" then s.args else args)
            && (c in {MESH_LOGIN, MESH_CONN, MESH_DISCONN, MESH_LOGOUT} ==> t == s.(upper := c, args := t.args))
            && (c in {MESH_SERVER_SET, RTC_SERVER_SET, RTC_MEDIA_SET, SWITCH_TO_RTC_SERVER, SWITCH_TO_MESH_SERVER} ==>
                  t == s.(cfg := c, args := t.args))
            && (c in {RTC_LOGIN, RTC_LOGOUT, RTC_DISCONN, RTC_HDMI_CALL, DJI_STREAM_NAME_SET, RTC_DJI_STREAM_STOP} ==>
                  t == s.(web := c, args := t.args))
  {
  }

  // ---------- trying to log in ----------

  /** While a login goes on, a round without a command counts down, from 2^32 - 1 on after zero, and tries
      again when more than eight seconds have passed since the last time, unless it came to zero. */
  lemma RetryExactly(s: Conn, now: nat)
    requires Drained(s) && s.server == SERVER_LOGINING
    ensures var t := Processed(s, now);
            var passed := (now - s.lastTime) % 18446744073709551616;
            && t == s.(retry := t.retry, lastTime := t.lastTime)
            && t.retry == (if s.retry == 0 then 4294967295 else s.retry - 1)
            && t.lastTime == if passed > 8000 && s.retry != 1 then now else s.lastTime
  {
  }

  /** Logging in sets both, anything else leaves them. */
  lemma LoginStarts(s: Conn, now: nat)
    requires s.cfg == NO_CMD && s.pending == [] && s.web != NO_CMD
    ensures var t := Processed(s, now);
            if s.server == SERVER_IDLE && s.web == RTC_LOGIN then t.retry == 4294967295 && t.lastTime == now
            else t.retry == s.retry && t.lastTime == s.lastTime
  {
    hide MeshNext;
  }

  /** The times at which a login was tried again. */
  function Retries(s: Conn, times: seq<nat>): seq<nat>
    decreases |times|
  {
    if times == [] then []
    else
      var t := Processed(s, times[0]);
      (if t.lastTime != s.lastTime then [times[0]] else []) + Retries(t, times[1..])
  }

  predicate Ascending(from: nat, times: seq<nat>) {
    && (forall i :: 0 <= i < |times| ==> from <= times[i] < 18446744073709551616)
    && (forall i, j :: 0 <= i < j < |times| ==> times[i] <= times[j])
  }

  /** As the clock runs, there are always more than eight seconds between two tries. */
  lemma {:induction false} RetriesApart(s: Conn, times: seq<nat>)
    requires Drained(s) && s.server == SERVER_LOGINING && Ascending(s.lastTime, times)
    ensures var r := Retries(s, times);
            && (r != [] ==> r[0] > s.lastTime + 8000)
            && (forall i :: 0 < i < |r| ==> r[i] > r[i - 1] + 8000)
    decreases |times|
  {
    hide Processed;
    if times != [] {
      RetryExactly(s, times[0]);
      var t, rest := Processed(s, times[0]), times[1..];
      forall i | 0 <= i < |rest| ensures t.lastTime <= rest[i] < 18446744073709551616 {
        assert rest[i] == times[i + 1];
      }
      RetriesApart(t, rest);
    }
  }
}
