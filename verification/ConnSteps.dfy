/** The two connection automata of `conn_ctrl.cc` and the command slots between them, as steps on
    values. */
module ConnSteps {

  datatype MeshStatus = MESH_IDLE | MESH_LOGINING | MESH_LOGINED | MESH_CONNECTING | MESH_CONNECTED | MESH_DISCONNECTING
  datatype ServerStatus = SERVER_IDLE | SERVER_LOGINING | SERVER_LOGINED | SERVER_CONNECTED

  /** The commands, with the empty slot. */
  datatype Cmd = NO_CMD
    | MESH_LOGIN | MESH_CONN | MESH_DISCONN | MESH_LOGOUT
    | RTC_MEDIA_SDP_SEND | RTC_DISCONN | RTC_LOGIN | RTC_LOGIN_OK | RTC_LOGOUT | RTC_LOGOUT_MSG | RTC_HDMI_CALL
    | DJI_STREAM_NAME_SET | RTC_DJI_STREAM_STOP
    | MESH_SERVER_SET | RTC_SERVER_SET | RTC_MEDIA_SET | SWITCH_TO_RTC_SERVER | SWITCH_TO_MESH_SERVER

  /** What the server connection queues for the control thread. */
  datatype Message = ServerLogined | ServerLogout | ServerCall | ServerHangup | MessageSend(sdp: string) | Other

  datatype Conn = Conn(
    mesh: MeshStatus, server: ServerStatus, cfg: Cmd, upper: Cmd, web: Cmd,
    args: string, meshServer: string, rtcServer: string, peer: int, sdp: string,
    pending: seq<Message>, retry: nat, lastTime: nat)

  const LOGIN_RETRY_INTERVAL := 8000
  const RETRY_MAX := 0xFFFF_FFFF

  // ---------- addresses ----------

  function Find(s: string, c: char): (k: nat)
    ensures k <= |s| && (k < |s| ==> s[k] == c) && forall i :: 0 <= i < k ==> s[i] != c
  {
    if s == "" || s[0] == c then 0
    else
      var k := 1 + Find(s[1..], c);
      assert forall i :: 0 < i < k ==> s[i] == s[1..][i - 1];
      k
  }

  /** The parts between the dots. */
  function Parts(s: string): (ps: seq<string>)
    ensures ps != []
    decreases |s|
  {
    var k := Find(s, '.');
    if k == |s| then [s] else [s[..k]] + Parts(s[k + 1..])
  }

  predicate Digits(s: string) {
    forall i :: 0 <= i < |s| ==> '0' <= s[i] <= '9'
  }

  function ValueOf(s: string): int {
    if s == "" then 0 else 10 * ValueOf(s[..|s| - 1]) + (s[|s| - 1] as int - '0' as int)
  }

  predicate Section(s: string) {
    s != "" && Digits(s) && ValueOf(s) <= 255
  }

  /** Four decimal sections; a leading zero in the first is refused. */
  predicate IsIpv4(s: string) {
    && |Parts(s)| == 4 && (forall p <- Parts(s) :: Section(p)) && s != "" && s[0] != '0'
  }

  // ---------- the steps of Process ----------

  /** `ThreadCallbackHandle`: one queued message. */
  function Handle(s: Conn): Conn {
    if s.pending == [] then s
    else
      var t := s.(pending := s.pending[1..]);
      match s.pending[0]
      case ServerLogined => t.(web := RTC_LOGIN_OK)
      case ServerLogout => t.(web := RTC_LOGOUT_MSG)
      case ServerHangup => t.(web := RTC_DISCONN)
      case MessageSend(sdp) => t.(sdp := sdp, web := RTC_MEDIA_SDP_SEND)
      case _ => t
  }

  function SwitchToRtc(s: Conn): Conn {
    var end := Find(s.args, ':');
    if end == |s.args| || !IsIpv4(s.args[..end]) then s
    else
      var t := s.(meshServer := "");
      if s.mesh != MESH_IDLE then t.(upper := MESH_LOGOUT)
      else if s.rtcServer != s.args then
        t.(rtcServer := s.args, web := if s.server != SERVER_IDLE then RTC_LOGOUT else s.web)
      else if s.server == SERVER_IDLE then t.(web := RTC_LOGIN)
      else t
  }

  function SwitchToMesh(s: Conn): Conn {
    if !IsIpv4(s.args) then s
    else
      var t := s.(rtcServer := "");
      if s.server != SERVER_IDLE then t.(meshServer := s.args, web := RTC_LOGOUT)
      else if s.meshServer != s.args then
        t.(meshServer := s.args, upper := if s.mesh != MESH_IDLE then MESH_LOGOUT else s.upper)
      else if s.mesh == MESH_IDLE then t.(upper := MESH_LOGIN)
      else t
  }

  /** `CfgCmdProc`. */
  function Configured(s: Conn): Conn {
    var t := s.(cfg := NO_CMD);
    match s.cfg
    case SWITCH_TO_RTC_SERVER => SwitchToRtc(t)
    case SWITCH_TO_MESH_SERVER => SwitchToMesh(t)
    case MESH_SERVER_SET => if IsIpv4(s.args) && s.mesh == MESH_IDLE then t.(meshServer := s.args) else t
    case _ => t
  }

  /** The status `MeshStatusProc` goes to. */
  function MeshNext(mesh: MeshStatus, cmd: Cmd, peer: int): MeshStatus {
    match mesh
    case MESH_IDLE => if cmd == MESH_LOGIN then MESH_LOGINING else mesh
    case MESH_LOGINING => if cmd == MESH_LOGOUT then MESH_IDLE else mesh
    case MESH_LOGINED =>
      if cmd == MESH_LOGOUT then MESH_IDLE else if cmd == MESH_CONN && peer != -1 then MESH_CONNECTING else mesh
    case MESH_CONNECTING =>
      if cmd == MESH_DISCONN then MESH_LOGINED else if cmd == MESH_LOGOUT then MESH_IDLE else mesh
    case MESH_CONNECTED =>
      if cmd == MESH_DISCONN then MESH_LOGINED else if cmd == MESH_LOGOUT then MESH_IDLE else mesh
    case MESH_DISCONNECTING => mesh
  }

  function MeshProcessed(s: Conn): Conn {
    if s.upper == NO_CMD then s else s.(mesh := MeshNext(s.mesh, s.upper, s.peer), upper := NO_CMD)
  }

  /** The server status and the command for the mesh automaton after a command. */
  function ServerNext(server: ServerStatus, cmd: Cmd, upper: Cmd): (ServerStatus, Cmd) {
    match server
    case SERVER_IDLE =>
      if cmd == RTC_LOGIN then (SERVER_LOGINING, upper)
      else if cmd == RTC_HDMI_CALL then (SERVER_LOGINED, upper)
      else (server, upper)
    case SERVER_LOGINING =>
      if cmd == RTC_LOGIN_OK then (SERVER_LOGINED, MESH_LOGOUT)
      else if cmd == RTC_LOGOUT then (SERVER_IDLE, MESH_LOGIN)
      else if cmd == RTC_HDMI_CALL then (SERVER_LOGINED, upper)
      else (server, upper)
    case SERVER_LOGINED =>
      if cmd == RTC_LOGOUT then (SERVER_IDLE, MESH_LOGIN)
      else if cmd == RTC_LOGOUT_MSG then (SERVER_LOGINING, upper)
      else (server, upper)
    case SERVER_CONNECTED => (server, upper)
  }

  /** `ServerStatusProc`: without a command, a login that goes on is tried again from time to time. */
  function ServerProcessed(s: Conn, now: nat): Conn {
    if s.web == NO_CMD then
      if s.server != SERVER_LOGINING then s
      else
        var retry := if s.retry == 0 then RETRY_MAX else s.retry - 1;
        if retry != 0 && (now - s.lastTime) % 0x1_0000_0000_0000_0000 > LOGIN_RETRY_INTERVAL
        then s.(retry := retry, lastTime := now) else s.(retry := retry)
    else
      var login := s.server == SERVER_IDLE && s.web == RTC_LOGIN;
      var next := ServerNext(s.server, s.web, s.upper);
      s.(server := next.0, upper := next.1, web := NO_CMD,
         retry := if login then RETRY_MAX else s.retry, lastTime := if login then now else s.lastTime)
  }

  function Processed(s: Conn, now: nat): Conn {
    ServerProcessed(MeshProcessed(Configured(Handle(s))), now)
  }

  // ---------- callbacks of the mesh client ----------

  datatype Callback = SignFailed | SignedIn(own: bool) | Disconnected | PeerConnected(id: int, own: bool) | PeerDisconnected
    | PeerResult(ok: bool)

  function Called(s: Conn, c: Callback): Conn {
    match c
    case SignFailed => s.(mesh := MESH_IDLE)
    case SignedIn(own) => if own then s.(mesh := MESH_LOGINED) else s
    case Disconnected => if s.mesh == MESH_LOGINING then s.(mesh := MESH_IDLE) else s
    case PeerConnected(id, own) => if own then s else s.(peer := id)
    case PeerDisconnected =>
      if s.mesh == MESH_CONNECTED then s.(mesh := MESH_LOGINED) else s.(mesh := MESH_LOGINING, peer := -1)
    case PeerResult(ok) =>
      if s.mesh == MESH_CONNECTING then s.(mesh := if ok then MESH_CONNECTED else MESH_LOGINED) else s
  }

  // ---------- every run ----------

  datatype Slot = NoSlot | CfgSlot | UpperSlot | WebSlot

  /** Which slot a command goes into. */
  function SlotOf(c: Cmd): Slot {
    match c
    case NO_CMD => NoSlot
    case MESH_LOGIN | MESH_CONN | MESH_DISCONN | MESH_LOGOUT => UpperSlot
    case MESH_SERVER_SET | RTC_SERVER_SET | RTC_MEDIA_SET | SWITCH_TO_RTC_SERVER | SWITCH_TO_MESH_SERVER => CfgSlot
    case _ => WebSlot
  }

  predicate Holds(c: Cmd, slot: Slot) {
    SlotOf(c) == NoSlot || SlotOf(c) == slot
  }

  /** Every slot holds commands of its kind, and two of the statuses are never entered. */
  predicate Inv(s: Conn) {
    && s.mesh != MESH_DISCONNECTING && s.server != SERVER_CONNECTED
    && Holds(s.cfg, CfgSlot) && Holds(s.upper, UpperSlot) && Holds(s.web, WebSlot)
  }

  lemma Slots()
    ensures SlotOf(NO_CMD) == NoSlot
    ensures SlotOf(MESH_LOGIN) == SlotOf(MESH_LOGOUT) == UpperSlot
    ensures SlotOf(RTC_LOGIN) == SlotOf(RTC_LOGOUT) == SlotOf(RTC_LOGIN_OK) == SlotOf(RTC_LOGOUT_MSG) == WebSlot
    ensures SlotOf(RTC_DISCONN) == SlotOf(RTC_MEDIA_SDP_SEND) == WebSlot
  {
  }

  /** A command of the application goes into the slot of its kind. */
  function Commanded(s: Conn, c: Cmd): Conn {
    match SlotOf(c)
    case NoSlot => s
    case CfgSlot => s.(cfg := c)
    case UpperSlot => s.(upper := c)
    case WebSlot => s.(web := c)
  }

  datatype Event = Command(cmd: Cmd, args: string) | Tick(now: nat) | Back(callback: Callback) | Queued(message: Message)

  function Next(s: Conn, e: Event): Conn {
    match e
    case Command(c, args) => Commanded(if args == "" then s else s.(args := args), c)
    case Tick(now) => Processed(s, now)
    case Back(c) => Called(s, c)
    case Queued(m) => s.(pending := s.pending + [m])
  }

  function After(s: Conn, es: seq<Event>): Conn
    decreases |es|
  {
    if es == [] then s else After(Next(s, es[0]), es[1..])
  }

  lemma HandleKeeps(s: Conn)
    requires Inv(s)
    ensures Inv(Handle(s))
  {
    hide SlotOf;
    Slots();
  }

  lemma ConfiguredKeeps(s: Conn)
    requires Inv(s)
    ensures Inv(Configured(s))
  {
    hide Find, IsIpv4, SlotOf;
    Slots();
  }

  lemma StatusesKeep(s: Conn, now: nat)
    requires Inv(s)
    ensures Inv(ServerProcessed(MeshProcessed(s), now))
  {
    hide SlotOf;
    Slots();
  }

  lemma CalledKeeps(s: Conn, c: Callback)
    requires Inv(s)
    ensures Inv(Called(s, c))
  {
    hide SlotOf;
  }

  lemma NextKeeps(s: Conn, e: Event)
    requires Inv(s)
    ensures Inv(Next(s, e))
  {
    hide Configured, MeshProcessed, ServerProcessed, Handle, SlotOf, Called;
    match e
    case Tick(now) =>
      HandleKeeps(s);
      ConfiguredKeeps(Handle(s));
      StatusesKeep(Configured(Handle(s)), now);
    case Back(c) => CalledKeeps(s, c);
    case _ =>
  }

  lemma {:induction false} EveryRunKeeps(s: Conn, es: seq<Event>)
    requires Inv(s)
    ensures Inv(After(s, es))
    decreases |es|
  {
    hide Next, Inv;
    if es != [] {
      NextKeeps(s, es[0]);
      EveryRunKeeps(Next(s, es[0]), es[1..]);
    }
  }

  // ---------- switching to the rtc server ----------

  /** Nothing waits. */
  predicate Drained(s: Conn) {
    s.cfg == NO_CMD && s.upper == NO_CMD && s.web == NO_CMD && s.pending == []
  }

  /** An address with a port. */
  predicate ValidAddress(addr: string) {
    Find(addr, ':') < |addr| && IsIpv4(addr[..Find(addr, ':')])
  }

  /** One command to switch and two rounds of processing. */
  function Switched(s: Conn, addr: string, now: nat, later: nat): Conn {
    Processed(Processed(s.(cfg := SWITCH_TO_RTC_SERVER, args := addr), now), later)
  }

  predicate Goal(s: Conn, addr: string) {
    s.mesh == MESH_IDLE && s.rtcServer == addr && (s.server == SERVER_LOGINING || s.server == SERVER_LOGINED)
  }

  /** How many commands it takes at most. */
  function Distance(s: Conn, addr: string): nat {
    var away := if s.mesh == MESH_IDLE then 0 else 1;
    if s.rtcServer == addr then (if s.server == SERVER_IDLE then away + 1 else away)
    else if s.server == SERVER_IDLE then away + 2
    else away + 3
  }

  ghost predicate Nearer(s: Conn, t: Conn, addr: string) {
    && Inv(t) && Drained(t)
    && (Distance(s, addr) > 0 ==> Distance(t, addr) == Distance(s, addr) - 1)
    && (Distance(s, addr) == 0 ==> Distance(t, addr) == 0 && t.server == s.server)
  }

  /** While the mesh is busy it is logged out first. */
  lemma SwitchBusy(s: Conn, addr: string, now: nat, later: nat)
    requires Inv(s) && Drained(s) && ValidAddress(addr) && s.mesh != MESH_IDLE
    ensures Nearer(s, Switched(s, addr, now, later), addr)
  {
    hide Find, IsIpv4, SlotOf;
    Slots();
  }

  lemma SwitchIdle(s: Conn, addr: string, now: nat, later: nat)
    requires Inv(s) && Drained(s) && ValidAddress(addr) && s.mesh == MESH_IDLE && s.server == SERVER_IDLE
    ensures Nearer(s, Switched(s, addr, now, later), addr)
  {
    hide Find, IsIpv4, SlotOf;
    Slots();
  }

  lemma SwitchOnServer(s: Conn, addr: string, now: nat, later: nat)
    requires Inv(s) && Drained(s) && ValidAddress(addr) && s.mesh == MESH_IDLE && s.server != SERVER_IDLE
    ensures Nearer(s, Switched(s, addr, now, later), addr)
  {
    hide Find, IsIpv4, SlotOf;
    Slots();
  }

  /** Each command leaves all slots empty and comes nearer to the goal, or keeps it. */
  lemma SwitchStep(s: Conn, addr: string, now: nat, later: nat)
    requires Inv(s) && Drained(s) && ValidAddress(addr)
    ensures var t := Switched(s, addr, now, later);
            && Inv(t) && Drained(t)
            && (Distance(s, addr) > 0 ==> Distance(t, addr) == Distance(s, addr) - 1)
            && (Distance(s, addr) == 0 ==> Distance(t, addr) == 0 && t.server == s.server)
  {
    hide Switched, Inv, Drained, Distance;
    if s.mesh != MESH_IDLE {
      SwitchBusy(s, addr, now, later);
    } else if s.server == SERVER_IDLE {
      SwitchIdle(s, addr, now, later);
    } else {
      SwitchOnServer(s, addr, now, later);
    }
  }

  lemma GoalIsReached(s: Conn, addr: string)
    requires Inv(s)
    ensures Goal(s, addr) <==> Distance(s, addr) == 0
    ensures Distance(s, addr) <= 4
  {
  }

  /** A series of commands to switch, each with the times of its two rounds. */
  function SwitchedBy(s: Conn, addr: string, times: seq<(nat, nat)>): Conn
    decreases |times|
  {
    if times == [] then s else SwitchedBy(Switched(s, addr, times[0].0, times[0].1), addr, times[1..])
  }

  lemma {:induction false} DistanceFalls(s: Conn, addr: string, times: seq<(nat, nat)>)
    requires Inv(s) && Drained(s) && ValidAddress(addr)
    ensures var t := SwitchedBy(s, addr, times);
            && Inv(t) && Drained(t)
            && Distance(t, addr) == if |times| >= Distance(s, addr) then 0 else Distance(s, addr) - |times|
    decreases |times|
  {
    hide Switched, Distance, Inv, Drained;
    if times != [] {
      SwitchStep(s, addr, times[0].0, times[0].1);
      DistanceFalls(Switched(s, addr, times[0].0, times[0].1), addr, times[1..]);
    }
  }

  /** Four commands reach the goal from every state, and further ones keep it. */
  lemma Converges(s: Conn, addr: string, times: seq<(nat, nat)>)
    requires Inv(s) && Drained(s) && ValidAddress(addr) && |times| >= 4
    ensures Goal(SwitchedBy(s, addr, times), addr) && Drained(SwitchedBy(s, addr, times))
  {
    DistanceFalls(s, addr, times);
    GoalIsReached(s, addr);
    GoalIsReached(SwitchedBy(s, addr, times), addr);
  }

  /** Three do not always: the mesh session and a session with another rtc server both have to end,
      and leaving the rtc server starts a mesh login that has to be stopped again. */
  lemma ThreeAreNotEnough(s: Conn, addr: string, times: seq<(nat, nat)>)
    requires Inv(s) && Drained(s) && ValidAddress(addr) && |times| <= 3
    requires s.mesh != MESH_IDLE && s.server != SERVER_IDLE && s.rtcServer != addr
    ensures !Goal(SwitchedBy(s, addr, times), addr)
  {
    DistanceFalls(s, addr, times);
    GoalIsReached(SwitchedBy(s, addr, times), addr);
  }

  /** Exactly so many commands are needed as the distance says. */
  lemma ReachedExactly(s: Conn, addr: string, times: seq<(nat, nat)>)
    requires Inv(s) && Drained(s) && ValidAddress(addr)
    ensures Goal(SwitchedBy(s, addr, times), addr) <==> |times| >= Distance(s, addr)
  {
    DistanceFalls(s, addr, times);
    GoalIsReached(SwitchedBy(s, addr, times), addr);
  }

  // ---------- switching to the mesh server ----------

  /** One command to switch and two rounds of processing. */
  function MeshSwitched(s: Conn, addr: string, now: nat, later: nat): Conn {
    Processed(Processed(s.(cfg := SWITCH_TO_MESH_SERVER, args := addr), now), later)
  }

  /** The rtc server is left and forgotten, and the mesh client is busy with this server set. */
  predicate MeshGoal(s: Conn, addr: string) {
    s.server == SERVER_IDLE && s.meshServer == addr && s.rtcServer == "" && s.mesh != MESH_IDLE
  }

  /** A session with the rtc server, or a mesh client that only has to log in, takes one command; another
      mesh server two. */
  function MeshDistance(s: Conn, addr: string): nat {
    if s.server != SERVER_IDLE then 1
    else if s.meshServer != addr then 2
    else if s.mesh == MESH_IDLE || s.rtcServer != "" then 1
    else 0
  }

  ghost predicate MeshNearer(s: Conn, t: Conn, addr: string) {
    && Inv(t) && Drained(t)
    && (MeshDistance(s, addr) > 0 ==> MeshDistance(t, addr) == MeshDistance(s, addr) - 1)
    && (MeshDistance(s, addr) == 0 ==> MeshDistance(t, addr) == 0 && t.mesh == s.mesh)
  }

  lemma MeshSwitchIdle(s: Conn, addr: string, now: nat, later: nat)
    requires Inv(s) && Drained(s) && IsIpv4(addr) && s.server == SERVER_IDLE
    ensures MeshNearer(s, MeshSwitched(s, addr, now, later), addr)
  {
    hide Find, IsIpv4, SlotOf;
    Slots();
  }

  lemma MeshSwitchBusy(s: Conn, addr: string, now: nat, later: nat)
    requires Inv(s) && Drained(s) && IsIpv4(addr) && s.server != SERVER_IDLE
    ensures MeshNearer(s, MeshSwitched(s, addr, now, later), addr)
    ensures s.mesh != MESH_IDLE ==> MeshSwitched(s, addr, now, later).mesh == s.mesh
  {
    hide Find, IsIpv4, SlotOf;
    Slots();
  }

  /** Each command leaves all slots empty and comes nearer to the goal, or keeps it. */
  lemma MeshSwitchStep(s: Conn, addr: string, now: nat, later: nat)
    requires Inv(s) && Drained(s) && IsIpv4(addr)
    ensures var t := MeshSwitched(s, addr, now, later);
            && Inv(t) && Drained(t)
            && (MeshDistance(s, addr) > 0 ==> MeshDistance(t, addr) == MeshDistance(s, addr) - 1)
            && (MeshDistance(s, addr) == 0 ==> MeshDistance(t, addr) == 0 && t.mesh == s.mesh)
  {
    hide MeshSwitched, Inv, Drained, MeshDistance;
    if s.server == SERVER_IDLE { MeshSwitchIdle(s, addr, now, later); } else { MeshSwitchBusy(s, addr, now, later); }
  }

  function MeshSwitchedBy(s: Conn, addr: string, times: seq<(nat, nat)>): Conn
    decreases |times|
  {
    if times == [] then s else MeshSwitchedBy(MeshSwitched(s, addr, times[0].0, times[0].1), addr, times[1..])
  }

  lemma {:induction false} MeshDistanceFalls(s: Conn, addr: string, times: seq<(nat, nat)>)
    requires Inv(s) && Drained(s) && IsIpv4(addr)
    ensures var t := MeshSwitchedBy(s, addr, times);
            && Inv(t) && Drained(t)
            && MeshDistance(t, addr) == if |times| >= MeshDistance(s, addr) then 0 else MeshDistance(s, addr) - |times|
    decreases |times|
  {
    hide MeshSwitched, MeshDistance, Inv, Drained;
    if times != [] {
      MeshSwitchStep(s, addr, times[0].0, times[0].1);
      MeshDistanceFalls(MeshSwitched(s, addr, times[0].0, times[0].1), addr, times[1..]);
    }
  }

  /** Exactly so many commands are needed as the distance says, which are two at most. */
  lemma MeshReachedExactly(s: Conn, addr: string, times: seq<(nat, nat)>)
    requires Inv(s) && Drained(s) && IsIpv4(addr)
    ensures MeshGoal(MeshSwitchedBy(s, addr, times), addr) <==> |times| >= MeshDistance(s, addr)
    ensures MeshDistance(s, addr) <= 2
  {
    MeshDistanceFalls(s, addr, times);
  }

  /** Two commands reach the goal from every state, and further ones keep it. */
  lemma MeshConverges(s: Conn, addr: string, times: seq<(nat, nat)>)
    requires Inv(s) && Drained(s) && IsIpv4(addr) && |times| >= 2
    ensures MeshGoal(MeshSwitchedBy(s, addr, times), addr) && Drained(MeshSwitchedBy(s, addr, times))
  {
    MeshDistanceFalls(s, addr, times);
    MeshReachedExactly(s, addr, times);
  }

  /** One does not when another mesh server was set: the first only sets the address and ends what runs. */
  lemma OneIsNotEnough(s: Conn, addr: string, times: seq<(nat, nat)>)
    requires Inv(s) && Drained(s) && IsIpv4(addr) && |times| <= 1
    requires s.server == SERVER_IDLE && s.meshServer != addr
    ensures !MeshGoal(MeshSwitchedBy(s, addr, times), addr)
  {
    MeshReachedExactly(s, addr, times);
  }

  /** With an rtc session the mesh client, if it is busy, is never logged out: it stays with the server
      it had, although the new one is set. */
  lemma {:induction false} MeshStaysBehind(s: Conn, addr: string, times: seq<(nat, nat)>)
    requires Inv(s) && Drained(s) && IsIpv4(addr) && s.mesh != MESH_IDLE
    requires s.server != SERVER_IDLE || MeshDistance(s, addr) == 0
    ensures MeshSwitchedBy(s, addr, times).mesh == s.mesh
    decreases |times|
  {
    hide MeshSwitched, IsIpv4;
    if times != [] {
      var t := MeshSwitched(s, addr, times[0].0, times[0].1);
      MeshSwitchStep(s, addr, times[0].0, times[0].1);
      if s.server != SERVER_IDLE { MeshSwitchBusy(s, addr, times[0].0, times[0].1); }
      MeshStaysBehind(t, addr, times[1..]);
    }
  }

  /** Without an address, or with a port where none belongs, a command to switch does nothing. */
  lemma BadAddressIgnored(s: Conn, addr: string, now: nat, later: nat)
    requires Inv(s) && Drained(s) && s.server != SERVER_LOGINING
    ensures !ValidAddress(addr) ==> Switched(s, addr, now, later) == s.(args := addr)
    ensures !IsIpv4(addr) ==> MeshSwitched(s, addr, now, later) == s.(args := addr)
  {
    hide Find, IsIpv4;
  }

  /** A finished rtc login ends the mesh session in the next round. */
  lemma LoginEndsMesh(s: Conn, now: nat, later: nat)
    requires Inv(s) && s.cfg == NO_CMD && s.upper == NO_CMD && s.server == SERVER_LOGINING && s.pending == [ServerLogined]
    ensures var t := Processed(Processed(s, now), later);
            t.server == SERVER_LOGINED && t.mesh == MESH_IDLE && Drained(t)
  {
    hide Find, IsIpv4;
  }

  /** Leaving the rtc server starts a mesh login, from every state without a mesh session. */
  lemma LogoutStartsMesh(s: Conn, now: nat, later: nat)
    requires Inv(s) && s.cfg == NO_CMD && s.upper == NO_CMD && s.pending == [] && s.web == RTC_LOGOUT
    requires s.server != SERVER_IDLE && s.mesh == MESH_IDLE
    ensures var t := Processed(Processed(s, now), later);
            t.server == SERVER_IDLE && t.mesh == MESH_LOGINING && Drained(t)
  {
    hide Find, IsIpv4;
  }
}
