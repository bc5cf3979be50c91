/** `ConnCtrl` of `conn_ctrl.cc`: the connection control object, its command slots and callbacks.
    What it asks of the connection objects behind it is not modelled. */
module ConnControl {
  import opened ConnSteps

  /** The commands of the application, as its messages name them. */
  const APP_CMD_LIST: seq<(Cmd, string)> := [
    (MESH_LOGIN, "mesh_login"), (MESH_DISCONN, "mesh_hungup"), (MESH_CONN, "mesh_call"), (MESH_LOGOUT, "mesh_logout"),
    (MESH_SERVER_SET, "mesh_server_set"), (RTC_SERVER_SET, "rtc_server_set"), (RTC_MEDIA_SET, "rtc_media_set"),
    (RTC_DISCONN, "rtc_disconn"), (RTC_LOGIN, "rtc_login"), (RTC_LOGOUT, "rtc_logout"), (RTC_HDMI_CALL, "rtc_hdmi_call"),
    (DJI_STREAM_NAME_SET, "rtc_dji_stream_name_set"), (RTC_DJI_STREAM_STOP, "rtc_dji_stream_stop"),
    (SWITCH_TO_RTC_SERVER, "switch_rtc_server"), (SWITCH_TO_MESH_SERVER, "switch_mesh_server")]

  /** The command with this name, from entry i of the list on. */
  function Named(word: string, i: nat): Cmd
    decreases |APP_CMD_LIST| - i
  {
    if i >= |APP_CMD_LIST| then NO_CMD
    else if APP_CMD_LIST[i].1 == word then APP_CMD_LIST[i].0
    else Named(word, i + 1)
  }

  function WithoutSpaces(s: string): string {
    if s == "" || s[0] != ' ' then s else WithoutSpaces(s[1..])
  }

  /** What a command message does: the first word goes into a slot, what follows becomes the
      argument unless it is empty. */
  function Told(s: Conn, text: string): Conn {
    var k := Find(text, ' ');
    var rest := WithoutSpaces(text[k..]);
    Commanded(if rest == "" then s else s.(args := rest), Named(text[..k], 0))
  }

  /** Which word names which command. */
  lemma NamesExactly(word: string)
    ensures Named(word, 0)
      == if word == "mesh_login" then MESH_LOGIN else if word == "mesh_hungup" then MESH_DISCONN
         else if word == "mesh_call" then MESH_CONN else if word == "mesh_logout" then MESH_LOGOUT
         else if word == "mesh_server_set" then MESH_SERVER_SET else if word == "rtc_server_set" then RTC_SERVER_SET
         else if word == "rtc_media_set" then RTC_MEDIA_SET else if word == "rtc_disconn" then RTC_DISCONN
         else if word == "rtc_login" then RTC_LOGIN else if word == "rtc_logout" then RTC_LOGOUT
         else if word == "rtc_hdmi_call" then RTC_HDMI_CALL
         else if word == "rtc_dji_stream_name_set" then DJI_STREAM_NAME_SET
         else if word == "rtc_dji_stream_stop" then RTC_DJI_STREAM_STOP
         else if word == "switch_rtc_server" then SWITCH_TO_RTC_SERVER
         else if word == "switch_mesh_server" then SWITCH_TO_MESH_SERVER else NO_CMD
  {
    NamedStep(word, 14);
    NamedStep(word, 13);
    NamedStep(word, 12);
    NamedStep(word, 11);
    NamedStep(word, 10);
    NamedStep(word, 9);
    NamedStep(word, 8);
    NamedStep(word, 7);
    NamedStep(word, 6);
    NamedStep(word, 5);
    NamedStep(word, 4);
    NamedStep(word, 3);
    NamedStep(word, 2);
    NamedStep(word, 1);
    NamedStep(word, 0);
    assert Named(word, 15) == NO_CMD;
  }

  lemma NamedStep(word: string, i: nat)
    requires i < |APP_CMD_LIST|
    ensures Named(word, i) == if APP_CMD_LIST[i].1 == word then APP_CMD_LIST[i].0 else Named(word, i + 1)
  {
  }

  function Spaces(n: nat): string {
    seq(n, _ => ' ')
  }

  /** A message is a command by its first word; what follows the spaces behind that is its argument, all
      further spaces included. */
  lemma MessageToldExactly(s: Conn, word: string, n: nat, arg: string)
    requires ' ' !in word && (arg != "" ==> n > 0 && arg[0] != ' ')
    ensures Told(s, word + (Spaces(n) + arg)) == Commanded(if arg == "" then s else s.(args := arg), Named(word, 0))
  {
    hide Commanded, Named, Find;
    var rest := Spaces(n) + arg;
    var text := word + rest;
    FindSpace(word, rest);
    assert text[..|word|] == word && text[|word|..] == rest;
    SpacesDropped(n, arg);
  }

  lemma FindSpace(word: string, rest: string)
    requires ' ' !in word && (rest == "" || rest[0] == ' ')
    ensures Find(word + rest, ' ') == |word|
  {
    var text := word + rest;
    var k := Find(text, ' ');
    assert forall i :: 0 <= i < |word| ==> text[i] == word[i] && word[i] in word;
    if rest != "" { assert text[|word|] == ' '; }
  }

  lemma {:induction false} SpacesDropped(n: nat, arg: string)
    requires arg == "" || arg[0] != ' '
    ensures WithoutSpaces(Spaces(n) + arg) == arg
  {
    if n > 0 {
      assert (Spaces(n) + arg)[1..] == Spaces(n - 1) + arg;
      SpacesDropped(n - 1, arg);
    } else {
      assert Spaces(0) + arg == arg;
    }
  }

  // ---------- addresses ----------

  /** What the first n characters, none of them a dot, tell about the parts. */
  lemma FirstPart(s: string, n: nat)
    requires n <= |s| && '.' !in s[..n]
    ensures n < |s| && s[n] == '.' ==> Parts(s) == [s[..n]] + Parts(s[n + 1..])
    ensures n == |s| ==> Parts(s) == [s]
    ensures n < |s| && s[n] != '.' ==> |Parts(s)[0]| > n && Parts(s)[0][n] == s[n]
  {
    forall i | 0 <= i < n ensures s[i] != '.' {
      assert s[..n][i] in s[..n];
    }
  }

  /** Read up to i: whole sections, and count digits of the next one. */
  ghost predicate Scanned(ip: string, i: nat, count: nat, sum: int, done: seq<string>) {
    && count <= i <= |ip| && sum == ValueOf(ip[i - count..i]) && Digits(ip[i - count..i])
    && (forall p <- done :: Section(p)) && Parts(ip) == done + Parts(ip[i - count..])
  }

  lemma ScanStart(ip: string)
    ensures Scanned(ip, 0, 0, 0, [])
  {
    hide Parts;
    assert ip[0..] == ip && ip[0..0] == "";
  }

  lemma ScanDot(ip: string, i: nat, count: nat, sum: int, done: seq<string>)
    requires Scanned(ip, i, count, sum, done) && i < |ip| && ip[i] == '.'
    ensures if sum <= 255 && count > 0 then Scanned(ip, i + 1, 0, 0, done + [ip[i - count..i]]) else !IsIpv4(ip)
  {
    hide Parts, ValueOf;
    var rest, part := ip[i - count..], ip[i - count..i];
    assert rest[..count] == part && rest[count] == ip[i] && rest[count + 1..] == ip[i + 1..];
    NoDot(part);
    FirstPart(rest, count);
    assert Parts(ip)[|done|] == part && part in Parts(ip);
    assert ip[i + 1..i + 1] == "";
    NoValue();
  }

  lemma NoDot(s: string)
    requires Digits(s)
    ensures '.' !in s
  {
  }

  lemma ScanDigit(ip: string, i: nat, count: nat, sum: int, done: seq<string>)
    requires Scanned(ip, i, count, sum, done) && i < |ip| && '0' <= ip[i] <= '9'
    ensures Scanned(ip, i + 1, count + 1, sum * 10 + (ip[i] as int - '0' as int), done)
  {
    hide Parts, ValueOf, Section;
    OneMoreDigit(ip[i - count..i], ip[i]);
    assert ip[i - count..i] + [ip[i]] == ip[i - count..i + 1];
  }

  lemma ScanOther(ip: string, i: nat, count: nat, sum: int, done: seq<string>)
    requires Scanned(ip, i, count, sum, done) && i < |ip| && ip[i] != '.' && !('0' <= ip[i] <= '9')
    ensures !IsIpv4(ip)
  {
    hide Parts, ValueOf;
    var rest := ip[i - count..];
    assert rest[..count] == ip[i - count..i] && rest[count] == ip[i];
    NoDot(rest[..count]);
    FirstPart(rest, count);
    assert Parts(ip)[|done|] == Parts(rest)[0] && Parts(rest)[0] in Parts(ip);
  }

  lemma ScanEnd(ip: string, count: nat, sum: int, done: seq<string>)
    requires Scanned(ip, |ip|, count, sum, done) && ip != "" && ip[0] != '0'
    ensures IsIpv4(ip) <==> sum <= 255 && count > 0 && |done| == 3
  {
    hide Parts, ValueOf;
    var rest := ip[|ip| - count..];
    assert rest == ip[|ip| - count..|ip|] == rest[..count];
    NoDot(rest);
    FirstPart(rest, count);
    assert Parts(ip) == done + [rest] && rest in Parts(ip);
    assert (forall p <- Parts(ip) :: Section(p)) <==> Section(rest);
  }

  /** `is_ipv4_addr`. */
  method IsIpv4Addr(ip: string) returns (ok: bool)
    ensures ok == IsIpv4(ip)
  {
    hide Parts, Scanned, Section;
    if ip == "" { return false; }
    if ip[0] == '0' { return false; }
    ScanStart(ip);
    if ip[0] == '.' {
      ScanDot(ip, 0, 0, 0, []);
      return false;
    }
    var dots_num, section_sum, count := 0, 0, 0;
    ghost var done: seq<string> := [];
    for i := 0 to |ip|
      invariant count <= i && dots_num == |done| && Scanned(ip, i, count, section_sum, done)
    {
      if ip[i] == '.' {
        ScanDot(ip, i, count, section_sum, done);
        dots_num := dots_num + 1;
        if section_sum <= 255 && count > 0 {
          done := done + [ip[i - count..i]];
          section_sum := 0;
          count := 0;
        } else {
          return false;
        }
      } else if '0' <= ip[i] <= '9' {
        ScanDigit(ip, i, count, section_sum, done);
        section_sum := section_sum * 10 + (ip[i] as int - '0' as int);
        count := count + 1;
      } else {
        ScanOther(ip, i, count, section_sum, done);
        return false;
      }
    }
    ScanEnd(ip, count, section_sum, done);
    ok := section_sum <= 255 && count > 0 && dots_num == 3;
  }

  lemma NoValue()
    ensures ValueOf("") == 0
  {
  }

  lemma OneMoreDigit(s: string, c: char)
    ensures ValueOf(s + [c]) == 10 * ValueOf(s) + (c as int - '0' as int)
  {
    assert (s + [c])[..|s|] == s;
  }

  // ---------- the control object ----------

  class ConnCtrl {
    var mesh_status: MeshStatus
    var webrtc_server_status: ServerStatus
    var cfg_cmd_: Cmd
    var upper_layer_cmd_: Cmd
    var webrtc_server_cmd_: Cmd
    var args: string
    var mesh_server_: string
    var rtc_server_: string
    var mesh_peer_id_: int
    var mesh_local_id_: int
    var local_sdp_desc_: string
    var pending_callback_data_: seq<Message>
    var webrtc_login_retry: nat
    var webrtc_conn_last_time: nat
    var check_num: nat
    const mesh_name_: string

    ghost function Abs(): Conn
      reads this
    {
      Conn(mesh_status, webrtc_server_status, cfg_cmd_, upper_layer_cmd_, webrtc_server_cmd_, args, mesh_server_,
           rtc_server_, mesh_peer_id_, local_sdp_desc_, pending_callback_data_, webrtc_login_retry, webrtc_conn_last_time)
    }

    constructor (server: string, name: string)
      ensures Inv(Abs()) && Drained(Abs()) && mesh_status == MESH_IDLE && webrtc_server_status == SERVER_IDLE
      ensures mesh_server_ == server && rtc_server_ == "0.0.0.0" && mesh_peer_id_ == -1 && mesh_name_ == name
    {
      mesh_status, webrtc_server_status := MESH_IDLE, SERVER_IDLE;
      cfg_cmd_, upper_layer_cmd_, webrtc_server_cmd_ := NO_CMD, NO_CMD, NO_CMD;
      args, mesh_server_, rtc_server_, local_sdp_desc_ := "", server, "0.0.0.0", "";
      mesh_peer_id_, mesh_local_id_ := -1, -1;
      pending_callback_data_ := [];
      webrtc_login_retry, webrtc_conn_last_time, check_num := 0, 0, 0;
      mesh_name_ := name;
    }

    /** Commands that wait are counted over all checks; at every 300th of them the process ends. */
    method AppCmdWaiting() returns (waiting: bool, exits: bool)
      modifies this`check_num
      ensures Abs() == old(Abs())
      ensures waiting <==> !(Abs().cfg == NO_CMD && Abs().upper == NO_CMD && Abs().web == NO_CMD)
      ensures check_num == if waiting then old(check_num) + 1 else old(check_num)
      ensures exits <==> waiting && check_num % 300 == 0
    {
      if cfg_cmd_ == NO_CMD && upper_layer_cmd_ == NO_CMD && webrtc_server_cmd_ == NO_CMD { return false, false; }
      check_num := check_num + 1;
      waiting, exits := true, check_num % 300 == 0;
    }

    /** A command message without terminator. */
    method AppCmdSet(cmd_str: string)
      modifies this`args, this`cfg_cmd_, this`upper_layer_cmd_, this`webrtc_server_cmd_
      ensures Abs() == Told(old(Abs()), cmd_str)
    {
      hide Named;
      var cmd_desc, rest := SplitCommand(cmd_str);
      if rest != "" { args := rest; }
      var cmd := LookUp(cmd_desc);
      match SlotOf(cmd)
      case NoSlot =>
      case CfgSlot => cfg_cmd_ := cmd;
      case UpperSlot => upper_layer_cmd_ := cmd;
      case WebSlot => webrtc_server_cmd_ := cmd;
    }

    /** `ThreadCallbackHandle`. */
    method ThreadCallbackHandle()
      modifies this`pending_callback_data_, this`webrtc_server_cmd_, this`local_sdp_desc_
      ensures Abs() == Handle(old(Abs()))
    {
      if pending_callback_data_ == [] { return; }
      var msg := pending_callback_data_[0];
      pending_callback_data_ := pending_callback_data_[1..];
      match msg
      case ServerLogined => webrtc_server_cmd_ := RTC_LOGIN_OK;
      case ServerLogout => webrtc_server_cmd_ := RTC_LOGOUT_MSG;
      case ServerHangup => webrtc_server_cmd_ := RTC_DISCONN;
      case MessageSend(sdp) =>
        local_sdp_desc_ := sdp;
        webrtc_server_cmd_ := RTC_MEDIA_SDP_SEND;
      case _ =>
    }

    method CfgCmdProc()
      modifies this`cfg_cmd_, this`upper_layer_cmd_, this`webrtc_server_cmd_, this`mesh_server_, this`rtc_server_
      ensures Abs() == Configured(old(Abs()))
    {
      hide IsIpv4, Find;
      if cfg_cmd_ == NO_CMD { return; }
      var cmd := cfg_cmd_;
      cfg_cmd_ := NO_CMD;
      match cmd
      case SWITCH_TO_RTC_SERVER => SwitchRtc();
      case SWITCH_TO_MESH_SERVER => SwitchMesh();
      case MESH_SERVER_SET =>
        var ok := IsIpv4Addr(args);
        if ok && mesh_status == MESH_IDLE { mesh_server_ := args; }
      case _ =>
    }

    method SwitchRtc()
      modifies this`upper_layer_cmd_, this`webrtc_server_cmd_, this`mesh_server_, this`rtc_server_
      ensures Abs() == SwitchToRtc(old(Abs()))
    {
      hide IsIpv4;
      var end := Find(args, ':');
      if end == |args| { return; }
      var ip_str := args[..end];
      var ok := IsIpv4Addr(ip_str);
      if !ok { return; }
      mesh_server_ := "";
      if mesh_status != MESH_IDLE {
        upper_layer_cmd_ := MESH_LOGOUT;
        return;
      }
      if rtc_server_ != args {
        rtc_server_ := args;
        if webrtc_server_status != SERVER_IDLE { webrtc_server_cmd_ := RTC_LOGOUT; }
        return;
      }
      if webrtc_server_status == SERVER_IDLE { webrtc_server_cmd_ := RTC_LOGIN; }
    }

    method SwitchMesh()
      modifies this`upper_layer_cmd_, this`webrtc_server_cmd_, this`mesh_server_, this`rtc_server_
      ensures Abs() == SwitchToMesh(old(Abs()))
    {
      hide IsIpv4;
      var ok := IsIpv4Addr(args);
      if !ok { return; }
      rtc_server_ := "";
      if webrtc_server_status != SERVER_IDLE {
        mesh_server_ := args;
        webrtc_server_cmd_ := RTC_LOGOUT;
        return;
      }
      if mesh_server_ != args {
        mesh_server_ := args;
        if mesh_status != MESH_IDLE { upper_layer_cmd_ := MESH_LOGOUT; }
        return;
      }
      if mesh_status == MESH_IDLE { upper_layer_cmd_ := MESH_LOGIN; }
    }

    /** The switch over the status. */
    method MeshCommand()
      modifies this`mesh_status
      ensures mesh_status == MeshNext(old(mesh_status), upper_layer_cmd_, mesh_peer_id_)
    {
      match mesh_status {
      case MESH_IDLE =>
        if upper_layer_cmd_ == MESH_LOGIN { mesh_status := MESH_LOGINING; }
      case MESH_LOGINING =>
        if upper_layer_cmd_ == MESH_LOGOUT { mesh_status := MESH_IDLE; }
      case MESH_LOGINED =>
        if upper_layer_cmd_ == MESH_LOGOUT {
          mesh_status := MESH_IDLE;
        } else if upper_layer_cmd_ == MESH_CONN {
          if mesh_peer_id_ != -1 { mesh_status := MESH_CONNECTING; }
        }
      case MESH_CONNECTING =>
        if upper_layer_cmd_ == MESH_DISCONN {
          mesh_status := MESH_LOGINED;
        } else if upper_layer_cmd_ == MESH_LOGOUT {
          mesh_status := MESH_IDLE;
        }
      case MESH_CONNECTED =>
        if upper_layer_cmd_ == MESH_DISCONN {
          mesh_status := MESH_LOGINED;
        } else if upper_layer_cmd_ == MESH_LOGOUT {
          mesh_status := MESH_IDLE;
        }
      case MESH_DISCONNECTING =>
      }
    }

    method MeshStatusProc()
      modifies this`mesh_status, this`upper_layer_cmd_
      ensures Abs() == MeshProcessed(old(Abs()))
    {
      hide MeshNext;
      if upper_layer_cmd_ == NO_CMD { return; }
      MeshCommand();
      upper_layer_cmd_ := NO_CMD;
    }

    /** The branch without a command. */
    method RetryLogin(now: nat)
      requires webrtc_server_cmd_ == NO_CMD
      modifies this`webrtc_login_retry, this`webrtc_conn_last_time
      ensures Abs() == ServerProcessed(old(Abs()), now)
    {
      if webrtc_server_status != SERVER_LOGINING { return; }
      webrtc_login_retry := if webrtc_login_retry == 0 then RETRY_MAX else webrtc_login_retry - 1;
      if webrtc_login_retry == 0 { return; }
      if (now - webrtc_conn_last_time) % 0x1_0000_0000_0000_0000 > LOGIN_RETRY_INTERVAL {
        webrtc_conn_last_time := now;
      }
    }

    method ServerCommand(now: nat)
      modifies this`webrtc_server_status, this`upper_layer_cmd_
      modifies this`webrtc_login_retry, this`webrtc_conn_last_time
      ensures (webrtc_server_status, upper_layer_cmd_)
        == ServerNext(old(webrtc_server_status), webrtc_server_cmd_, old(upper_layer_cmd_))
      ensures var login := old(webrtc_server_status) == SERVER_IDLE && webrtc_server_cmd_ == RTC_LOGIN;
              && webrtc_login_retry == (if login then RETRY_MAX else old(webrtc_login_retry))
              && webrtc_conn_last_time == (if login then now else old(webrtc_conn_last_time))
    {
      match webrtc_server_status {
      case SERVER_IDLE =>
        if webrtc_server_cmd_ == RTC_LOGIN {
          webrtc_login_retry := RETRY_MAX;
          webrtc_server_status := SERVER_LOGINING;
          webrtc_conn_last_time := now;
        } else if webrtc_server_cmd_ == RTC_HDMI_CALL {
          webrtc_server_status := SERVER_LOGINED;
        }
      case SERVER_LOGINING =>
        if webrtc_server_cmd_ == RTC_LOGIN_OK {
          upper_layer_cmd_ := MESH_LOGOUT;
          webrtc_server_status := SERVER_LOGINED;
        } else if webrtc_server_cmd_ == RTC_LOGOUT {
          upper_layer_cmd_ := MESH_LOGIN;
          webrtc_server_status := SERVER_IDLE;
        } else if webrtc_server_cmd_ == RTC_HDMI_CALL {
          webrtc_server_status := SERVER_LOGINED;
        }
      case SERVER_LOGINED =>
        if webrtc_server_cmd_ == RTC_LOGOUT {
          upper_layer_cmd_ := MESH_LOGIN;
          webrtc_server_status := SERVER_IDLE;
        } else if webrtc_server_cmd_ == RTC_LOGOUT_MSG {
          webrtc_server_status := SERVER_LOGINING;
        }
      case SERVER_CONNECTED =>
      }
    }

    method ServerStatusProc(now: nat)
      modifies this`webrtc_server_status, this`webrtc_server_cmd_, this`upper_layer_cmd_
      modifies this`webrtc_login_retry, this`webrtc_conn_last_time
      ensures Abs() == ServerProcessed(old(Abs()), now)
    {
      hide ServerNext;
      if webrtc_server_cmd_ == NO_CMD {
        RetryLogin(now);
        return;
      }
      ServerCommand(now);
      webrtc_server_cmd_ := NO_CMD;
    }

    method Process(now: nat)
      modifies this
      ensures Abs() == Processed(old(Abs()), now) && (Inv(old(Abs())) ==> Inv(Abs()))
      ensures mesh_local_id_ == old(mesh_local_id_)
    {
      hide Handle, Configured, MeshProcessed, ServerProcessed, Inv;
      ghost var s := Abs();
      ThreadCallbackHandle();
      CfgCmdProc();
      MeshStatusProc();
      ServerStatusProc(now);
      if Inv(s) { NextKeeps(s, Tick(now)); }
    }

    // ---------- callbacks ----------

    method QueueUIThreadCallback(msg: Message)
      modifies this`pending_callback_data_
      ensures Abs() == Next(old(Abs()), Queued(msg))
    {
      pending_callback_data_ := pending_callback_data_ + [msg];
    }

    method OnMeshSignFailed()
      modifies this`mesh_status
      ensures Abs() == Called(old(Abs()), SignFailed)
    {
      mesh_status := MESH_IDLE;
    }

    method OnMeshSignedIn(id: int, name: string)
      modifies this`mesh_status, this`mesh_local_id_
      ensures Abs() == Called(old(Abs()), SignedIn(name == mesh_name_))
      ensures mesh_local_id_ == if name == mesh_name_ then id else old(mesh_local_id_)
    {
      if name == mesh_name_ {
        mesh_status := MESH_LOGINED;
        mesh_local_id_ := id;
      }
    }

    method OnMeshDisconnected()
      modifies this`mesh_status
      ensures Abs() == Called(old(Abs()), Disconnected)
    {
      if mesh_status == MESH_LOGINING { mesh_status := MESH_IDLE; }
    }

    method OnMeshPeerConnected(id: int, name: string)
      modifies this`mesh_peer_id_
      ensures Abs() == Called(old(Abs()), PeerConnected(id, name == mesh_name_))
    {
      if name == mesh_name_ { return; }
      mesh_peer_id_ := id;
    }

    method OnMeshPeerDisconnected()
      modifies this`mesh_status, this`mesh_peer_id_
      ensures Abs() == Called(old(Abs()), PeerDisconnected)
    {
      if mesh_status == MESH_CONNECTED {
        mesh_status := MESH_LOGINED;
      } else {
        mesh_peer_id_ := -1;
        mesh_status := MESH_LOGINING;
      }
    }

    method ConnectedPeerResult(result: bool)
      modifies this`mesh_status
      ensures Abs() == Called(old(Abs()), PeerResult(result))
    {
      if result {
        if mesh_status == MESH_CONNECTED { return; }
        if mesh_status == MESH_CONNECTING { mesh_status := MESH_CONNECTED; }
      } else {
        if mesh_status == MESH_CONNECTING { mesh_status := MESH_LOGINED; }
      }
    }
  }

  /** The first word of a message and what follows it. */
  method SplitCommand(cmd_str: string) returns (cmd_desc: string, rest: string)
    ensures var k := Find(cmd_str, ' '); cmd_desc == cmd_str[..k] && rest == WithoutSpaces(cmd_str[k..])
  {
    var i := 0;
    while i < |cmd_str| && cmd_str[i] != ' '
      invariant i <= |cmd_str| && forall k :: 0 <= k < i ==> cmd_str[k] != ' '
    {
      i := i + 1;
    }
    cmd_desc := cmd_str[..i];
    rest := cmd_str[i..];
    while rest != "" && rest[0] == ' '
      invariant WithoutSpaces(rest) == WithoutSpaces(cmd_str[i..])
      decreases |rest|
    {
      rest := rest[1..];
    }
  }

  method LookUp(word: string) returns (cmd: Cmd)
    ensures cmd == Named(word, 0)
  {
    for loop := 0 to |APP_CMD_LIST|
      invariant Named(word, 0) == Named(word, loop)
    {
      if APP_CMD_LIST[loop].1 == word { return APP_CMD_LIST[loop].0; }
    }
    cmd := NO_CMD;
  }
}
