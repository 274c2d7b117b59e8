/** What the bridge answers to a request, on the transport it came from, with every send going out whole. */
module BridgeAnswers {
  import opened Options
  import opened Bytes
  import opened Frames
  import opened KeepaliveText
  import opened Bridge
  import opened BridgeRuns
  import opened BridgeResponses
  import opened BridgeTraffic
  import HostText
  import Metadata
  import Text

  /** A frame other than keepalive and data: the requests, and everything the bridge does not know. */
  predicate Asked(f: Frame) {
    Parsed(f) && f.kind != KEEPALIVE && f.kind != DATA
  }

  datatype Saying = Saying(kind: byte, text: string)

  /** The answer to a request, as the bridge stands when it comes. */
  function AnswerOf(b: Bridge, f: Frame): Saying
    requires Asked(f)
  {
    if f.kind == RESET then Saying(ACK, "reset_ack")
    else if f.kind == INITIALIZE then
      if DataVersion(f) == Some(INTERFACE_VERSION) then Saying(ACK, "initialize_ack")
      else Saying(ERROR, "data_interface_version_mismatch")
    else if f.kind == CONNECT then
      if VersionAgreed(b.s) then Saying(ACK, ConnectedText(b.s.nextSession))
      else Saying(ERROR, "data_interface_version_mismatch")
    else if f.kind == DISCONNECT then Saying(ACK, "disconnect_ack")
    else if f.kind == ERROR then Saying(ACK, "error_ack")
    else Saying(ERROR, "unsupported")
  }

  /** One frame more on the open connection, with the session's counters; nothing else on any connection. */
  ghost predicate ToldClient(b: Bridge, r: Bridge, said: Saying, number: u16) {
    var n := |b.tcp.wires| - 1;
    && n >= 0
    && var q := Frame(said.kind, r.s.server, r.s.client, number, Ascii(said.text));
    r.tcp.wires == b.tcp.wires[n := b.tcp.wires[n].(frames := b.tcp.wires[n].frames + [q])]
  }

  /** Among the frames written to the host is the answer, with the number of the request; the client gets nothing. */
  ghost predicate ToldHost(b: Bridge, r: Bridge, said: Saying, number: u16) {
    && r.tcp.wires == b.tcp.wires
    && Wrote(b, r, UsbFrame(said.kind, r.s.server, r.s.client, number, UsbPayload.Text(said.text)))
  }

  ghost predicate Wrote(b: Bridge, r: Bridge, u: UsbFrame) {
    exists k :: |b.usb.frames| <= k < |r.usb.frames| && r.usb.frames[k] == u
  }

  ghost predicate Told(b: Bridge, transport: Transport, r: Bridge, said: Saying, request: Frame, number: u16)
    requires FieldsFit(request)
  {
    match transport
    case Tcp => ToldClient(b, r, said, number)
    case Usb => ToldHost(b, r, said, request.sequence)
  }

  /** The client is there to be answered. */
  predicate Answerable(b: Bridge, transport: Transport) {
    Wired(b) && (transport.Tcp? ==> b.s.attached)
  }

  lemma ReplyTells(b: Bridge, transport: Transport, f: Frame, said: Saying)
    requires FieldsFit(f) && Answerable(b, transport)
    ensures Told(b, transport, Reply(b, transport, said.kind, f, said.text, Sent), said, f, b.tcp.sequence)
  {
    if transport.Tcp? {
      hide SendTcp, Ascii;
      SendDelivers(b, said.kind, Ascii(said.text));
    } else {
      var u := UsbFrame(said.kind, b.s.server, b.s.client, f.sequence, UsbPayload.Text(said.text));
      var r := Reply(b, transport, said.kind, f, said.text, Sent);
      assert r.usb.frames[|b.usb.frames|] == u;
    }
  }

  /** What comes before and after the reply: other frames to the host, but none to the client. */
  lemma ToldAround(b: Bridge, b1: Bridge, r1: Bridge, r: Bridge, transport: Transport, f: Frame, said: Saying, number: u16)
    requires FieldsFit(f) && Told(b1, transport, r1, said, f, number)
    requires b1.tcp.wires == b.tcp.wires && r.tcp.wires == r1.tcp.wires
    requires b.usb.frames <= b1.usb.frames && r1.usb.frames <= r.usb.frames
    requires r.s.server == r1.s.server && r.s.client == r1.s.client
    ensures Told(b, transport, r, said, f, number)
  {
    if transport.Usb? {
      var u := UsbFrame(said.kind, r1.s.server, r1.s.client, f.sequence, UsbPayload.Text(said.text));
      var k :| |b1.usb.frames| <= k < |r1.usb.frames| && r1.usb.frames[k] == u;
      assert r.usb.frames[k] == u;
    }
  }

  lemma ResetTold(b: Bridge, transport: Transport, f: Frame)
    requires FieldsFit(f) && Answerable(b, transport)
    ensures Told(b, transport, HandleReset(b, transport, f, Sent), Saying(ACK, "reset_ack"), f, 0)
    ensures !HandleReset(b, transport, f, Sent).s.attached
  {
    hide EnterState, CloseClient, Reply, Told;
    var b1 := EnterState(b, Reset);
    var b2 := b1.(
      s := b1.s.(server := 0, client := 0, retries := 0, lastTx := 0, pending := false, windowStarted := 0,
                 session := 0, pendingRequest := 0, lastCompleted := 0, nextRequest := 1,
                 peerVersion := 0, peerVersionValid := false),
      tcp := b1.tcp.(sequence := 0),
      rt := Realtime(0, false));
    ReplyTells(b2, transport, f, Saying(ACK, "reset_ack"));
    var r1 := Reply(b2, transport, ACK, f, "reset_ack", Sent);
    ToldAround(b, b2, r1, CloseClient(r1), transport, f, Saying(ACK, "reset_ack"), 0);
  }

  lemma FaultTold(b: Bridge, transport: Transport, f: Frame)
    requires FieldsFit(f) && Answerable(b, transport)
    ensures var r := VersionFault(b, transport, f, Sent);
            && Told(b, transport, r, Saying(ERROR, "data_interface_version_mismatch"), f, b.tcp.sequence)
            && exists number: u16 ::
                 Wrote(b, r, UsbFrame(ERROR, r.s.server, r.s.client, number,
                                      UsbPayload.Text("critical_error_data_interface_version_mismatch")))
  {
    hide EnterState, Reply, Told;
    var b1 := EnterState(RecordError(b), Error);
    ReplyTells(b1, transport, f, Saying(ERROR, "data_interface_version_mismatch"));
    var r1 := Reply(b1, transport, ERROR, f, "data_interface_version_mismatch", Sent);
    var r := VersionFault(b, transport, f, Sent);
    ToldAround(b, b1, r1, r, transport, f, Saying(ERROR, "data_interface_version_mismatch"), b.tcp.sequence);
    var u := r.usb.frames[|r1.usb.frames|];
    assert u == UsbFrame(ERROR, r.s.server, r.s.client, r1.usb.sequence,
                         UsbPayload.Text("critical_error_data_interface_version_mismatch"));
    assert Wrote(b, r, u);
  }

  lemma InitializeTold(b: Bridge, transport: Transport, f: Frame)
    requires Parsed(f) && f.kind == INITIALIZE && Answerable(b, transport)
    ensures Told(b, transport, HandleInitialize(b, transport, f, Sent), AnswerOf(b, f), f, b.tcp.sequence)
  {
    hide EnterState, Reply, Told, VersionFault, DataVersion;
    var b1 := EnterState(b, Initialize);
    var b2 := b1.(s := Idle(b1.s), rt := Realtime(0, false));
    var r := HandleInitialize(b, transport, f, Sent);
    if DataVersion(f) != Some(INTERFACE_VERSION) {
      FaultTold(b2, transport, f);
      ToldAround(b, b2, r, r, transport, f, AnswerOf(b, f), b.tcp.sequence);
    } else {
      var b3 := b2.(s := b2.s.(peerVersion := INTERFACE_VERSION, peerVersionValid := true));
      ReplyTells(b3, transport, f, Saying(ACK, "initialize_ack"));
      ToldAround(b, b3, r, r, transport, f, AnswerOf(b, f), b.tcp.sequence);
    }
  }

  lemma ConnectTold(b: Bridge, transport: Transport, f: Frame)
    requires Parsed(f) && f.kind == CONNECT && Answerable(b, transport)
    ensures Told(b, transport, HandleConnect(b, transport, f, Sent), AnswerOf(b, f), f, b.tcp.sequence)
  {
    hide EnterState, Reply, Told, VersionFault, Notify, ConnectedText;
    var b1 := EnterState(b, Connect);
    var b2 := b1.(s := Opened(b1.s));
    var r := HandleConnect(b, transport, f, Sent);
    if !VersionAgreed(b2.s) {
      FaultTold(b2, transport, f);
      ToldAround(b, b2, r, r, transport, f, AnswerOf(b, f), b.tcp.sequence);
    } else {
      var said := Saying(ACK, ConnectedText(b2.s.session));
      ReplyTells(b2, transport, f, said);
      ToldAround(b, b2, Reply(b2, transport, ACK, f, said.text, Sent), r, transport, f, said, b.tcp.sequence);
    }
  }

  lemma DisconnectTold(b: Bridge, transport: Transport, f: Frame)
    requires FieldsFit(f) && Answerable(b, transport)
    ensures var r := HandleDisconnect(b, transport, f, Sent);
            && Told(b, transport, r, Saying(ACK, "disconnect_ack"), f, b.tcp.sequence)
            && (transport.Tcp? ==> !r.s.attached)
  {
    hide EnterState, CloseClient, Reply, Told;
    var b1 := EnterState(b, Disconnect);
    ReplyTells(b1, transport, f, Saying(ACK, "disconnect_ack"));
    var r1 := Reply(b1, transport, ACK, f, "disconnect_ack", Sent);
    ToldAround(b, b1, r1, HandleDisconnect(b, transport, f, Sent), transport, f, Saying(ACK, "disconnect_ack"),
               b.tcp.sequence);
  }

  lemma OtherTold(b: Bridge, transport: Transport, f: Frame, env: Env)
    requires Asked(f) && f.kind !in {RESET, INITIALIZE, CONNECT, DISCONNECT} && Answerable(b, transport) && env.fate.Sent?
    ensures Told(b, transport, HandleFrame(b, transport, f, env), AnswerOf(b, f), f, b.tcp.sequence)
  {
    hide EnterState, Reply, Told;
    var b1 := if f.kind == ERROR then EnterState(RecordError(b), Error) else RecordError(b);
    var said := AnswerOf(b, f);
    ReplyTells(b1, transport, f, said);
    var r := HandleFrame(b, transport, f, env);
    ToldAround(b, b1, r, r, transport, f, said, b.tcp.sequence);
  }

  lemma FrameTold(b: Bridge, transport: Transport, f: Frame, env: Env)
    requires Asked(f) && Answerable(b, transport) && env.fate.Sent?
    ensures Told(b, transport, HandleFrame(b, transport, f, env), AnswerOf(b, f), f,
                 if f.kind == RESET then 0 else b.tcp.sequence)
  {
    hide HandleReset, HandleInitialize, HandleConnect, HandleDisconnect, Told, DataVersion, ConnectedText, Reply,
         EnterState;
    if f.kind == RESET {
      ResetTold(b, transport, f);
    } else if f.kind == INITIALIZE {
      InitializeTold(b, transport, f);
    } else if f.kind == CONNECT {
      ConnectTold(b, transport, f);
    } else if f.kind == DISCONNECT {
      DisconnectTold(b, transport, f);
    } else {
      OtherTold(b, transport, f, env);
    }
  }

  /**
   Every request of a client gets exactly one frame on its connection: the answer due, with the counters
   the session then has and the next number, a reset's being 0.
   */
  lemma ClientAnswered(b: Bridge, f: Frame, env: Env)
    requires Asked(f) && b.wifiEnabled && b.s.attached && Wired(b) && env.fate.Sent?
    ensures ToldClient(b, Step(b, TcpFrame(f), env), AnswerOf(b, f), if f.kind == RESET then 0 else b.tcp.sequence)
  {
    hide HandleFrame, AnswerOf, ToldClient, Accept, CloseClient, EngineTick, WatchdogTick, Notify;
    FrameTold(b, Tcp, f, env);
  }

  /** Every request of the host gets the answer due, with its own number, and the client nothing. */
  lemma HostAnswered(b: Bridge, f: Frame, env: Env)
    requires Asked(f) && Wired(b) && env.fate.Sent?
    ensures ToldHost(b, Step(b, UsbFrameIn(f), env), AnswerOf(b, f), f.sequence)
  {
    hide HandleFrame, AnswerOf, ToldHost, Accept, CloseClient, EngineTick, WatchdogTick, Notify;
    FrameTold(b, Usb, f, env);
  }

  // ----- the commands of the host -----

  /** The answer to one of the commands in the host's data. */
  function CommandAnswer(b: Bridge, text: string, wifi: WifiOutcome): Option<Saying> {
    match CommandOf(text)
    case DisableCommand => Some(Saying(ACK, "wifi_disabled"))
    case EnableCommand =>
      if EnableFails(b, wifi) then Some(Saying(ERROR, "wifi_enable_failed")) else Some(Saying(ACK, "wifi_enabled"))
    case ResetTelemetry => Some(Saying(ACK, "telemetry_reset_ack"))
    case ResetMaxDelay => Some(Saying(ACK, "telemetry_reset_max_delay_ack"))
    case NoCommand => None
  }

  lemma EmitTells(b: Bridge, f: Frame, said: Saying)
    requires FieldsFit(f)
    ensures ToldHost(b, EmitUsb(b, said.kind, f.sequence, UsbPayload.Text(said.text)), said, f.sequence)
  {
    var u := UsbFrame(said.kind, b.s.server, b.s.client, f.sequence, UsbPayload.Text(said.text));
    assert EmitUsb(b, said.kind, f.sequence, UsbPayload.Text(said.text)).usb.frames[|b.usb.frames|] == u;
  }

  /** Telemetry cleared is acknowledged and then shown. */
  lemma TelemetryTold(b: Bridge, f: Frame, text: string)
    requires FieldsFit(f)
    ensures var r := TelemetryReply(b, f, text);
            && ToldHost(b, r, Saying(ACK, text), f.sequence)
            && Wrote(b, r, UsbFrame(DATA, b.s.server, b.s.client, b.usb.sequence, UsbPayload.Text(TelemetryText(b.tele))))
  {
    hide TelemetryText;
    EmitTells(b, f, Saying(ACK, text));
    var b1 := EmitUsb(b, ACK, f.sequence, UsbPayload.Text(text));
    var r := TelemetryReply(b, f, text);
    ToldAround(b, b, b1, r, Usb, f, Saying(ACK, text), 0);
    assert r.usb.frames[|b1.usb.frames|]
           == UsbFrame(DATA, b.s.server, b.s.client, b.usb.sequence, UsbPayload.Text(TelemetryText(b.tele)));
  }

  lemma DataTold(b: Bridge, f: Frame, env: Env)
    requires FieldsFit(f) && CommandAnswer(b, PayloadText(f.payload), env.wifi).Some?
    ensures ToldHost(b, HandleUsbData(b, f, env), CommandAnswer(b, PayloadText(f.payload), env.wifi).value, f.sequence)
  {
    hide EmitUsb, DisableWifi, EnableFails, TelemetryReply, SendTcp, PayloadText, CommandOf, ToldHost;
    var said := CommandAnswer(b, PayloadText(f.payload), env.wifi).value;
    var r := HandleUsbData(b, f, env);
    match CommandOf(PayloadText(f.payload))
    case DisableCommand =>
      EmitTells(DisableWifi(b), f, said);
      ToldAround(b, DisableWifi(b), r, r, Usb, f, said, 0);
    case EnableCommand =>
      var b1 := EnableWifi(b, env.wifi);
      var b2 := if EnableFails(b, env.wifi) then RecordError(b1) else b1;
      EmitTells(b2, f, said);
      ToldAround(b, b2, r, r, Usb, f, said, 0);
    case ResetTelemetry =>
      var b1 := b.(tele := Telemetry(if b.s.state.Keepalive() then b.tele.lastDelay else -1, 0, 0));
      TelemetryTold(b1, f, said.text);
      ToldAround(b, b1, r, r, Usb, f, said, 0);
    case ResetMaxDelay =>
      var b1 := b.(tele := b.tele.(maxDelay := 0));
      TelemetryTold(b1, f, said.text);
      ToldAround(b, b1, r, r, Usb, f, said, 0);
  }

  /** A command of the host for the bridge itself is answered with the command's number, and the client gets nothing. */
  lemma CommandAnswered(b: Bridge, f: Frame, env: Env)
    requires Parsed(f) && f.kind == DATA && CommandAnswer(b, PayloadText(f.payload), env.wifi).Some?
    ensures ToldHost(b, Step(b, UsbFrameIn(f), env), CommandAnswer(b, PayloadText(f.payload), env.wifi).value, f.sequence)
  {
    hide Step, HandleUsbData, CommandAnswer, PayloadText, ToldHost;
    UsbDataStep(b, f, env);
    DataTold(b, f, env);
  }

  /** Text for a client that is not there, though a session is. */
  predicate ForNobody(b: Bridge, f: Frame)
    requires FieldsFit(f)
  {
    && |f.payload| > 0 && CommandOf(PayloadText(f.payload)).NoCommand? && !Downlink(f.payload)
    && SessionActive(b.s) && !b.s.attached
  }

  /** And the plain refusals: empty data is acknowledged, text for nobody is said to be, and keepalive is not taken. */
  lemma PlainlyAnswered(b: Bridge, f: Frame, env: Env)
    requires Parsed(f) && (f.kind == DATA || f.kind == KEEPALIVE)
    ensures var r := Step(b, UsbFrameIn(f), env);
            if f.kind == KEEPALIVE then ToldHost(b, r, Saying(ACK, "usb_keepalive_not_supported"), f.sequence)
            else
              && (f.payload == [] ==> ToldHost(b, r, Saying(ACK, "data_ack"), f.sequence))
              && (ForNobody(b, f) ==> ToldHost(b, r, Saying(ACK, "data_tcp_not_connected"), f.sequence))
  {
    EmitTells(b, f, Saying(ACK, "usb_keepalive_not_supported"));
    EmitTells(b, f, Saying(ACK, "data_ack"));
    EmitTells(b, f, Saying(ACK, "data_tcp_not_connected"));
    hide Step, EmitUsb, SendTcp, ToldHost, PayloadText, CommandOf, DisableWifi, EnableWifi, EnableFails, TelemetryReply;
    if f.kind == KEEPALIVE {
      UsbKeepaliveStep(b, f, env);
    } else {
      UsbDataStep(b, f, env);
      if f.payload == [] {
        EmptyCommand(f.payload);
      }
    }
  }

  /** Empty data of the client is acknowledged too. */
  lemma EmptyAnswered(b: Bridge, f: Frame, env: Env)
    requires Parsed(f) && f.kind == DATA && f.payload == []
    requires b.wifiEnabled && b.s.attached && Wired(b) && env.fate.Sent?
    ensures ToldClient(b, Step(b, TcpFrame(f), env), Saying(ACK, "data_ack"), b.tcp.sequence)
  {
    hide Step, SendTcp, ToldClient, Ascii;
    TcpDataStep(b, f, env);
    ReplyTells(b, Tcp, f, Saying(ACK, "data_ack"));
  }

  lemma EmptyCommand(payload: seq<byte>)
    requires payload == []
    ensures CommandOf(PayloadText(payload)).NoCommand?
  {
    assert PayloadText(payload) == "";
  }

  lemma UsbKeepaliveStep(b: Bridge, f: Frame, env: Env)
    requires Parsed(f) && f.kind == KEEPALIVE
    ensures Step(b, UsbFrameIn(f), env)
            == EmitUsb(b, ACK, f.sequence, UsbPayload.Text("usb_keepalive_not_supported"))
  {
    hide HandleReset, HandleInitialize, HandleConnect, HandleDisconnect, HandleTcpData, HandleUsbData, Judge, EmitUsb,
         EnterState, Accept, CloseClient, EngineTick, WatchdogTick, Notify;
  }

  /** A client that is taken on is greeted on a connection of its own, with the counters of a session's start. */
  lemma Greeted(b: Bridge, env: Env)
    requires b.wifiEnabled && b.listening && env.fate.Sent?
    ensures var r := Step(b, Accepts, env);
            && r.tcp.wires == b.tcp.wires + [Wire([Frame(ACK, 0, DEVICE_LIVE_START, 0, Ascii("tcp_connected"))], [])]
            && r.tcp.sequence == 1 && r.s.attached && r.s.state.Connect?
  {
    hide CloseClient, EnterState, Notify, Ascii;
    var b1 := if b.s.attached then CloseClient(b) else b;
    var joined := b1.(s := b1.s.(attached := true, lastTx := 0),
                      tcp := b1.tcp.(wires := b1.tcp.wires + [Wire([], [])]));
    var b2 := EnterState(joined, Connect);
    var b3 := b2.(s := Attached(b2.s), tcp := b2.tcp.(sequence := 0));
    SendDelivers(b3, ACK, Ascii("tcp_connected"));
    assert [] + [ToClient(b3, ACK, Ascii("tcp_connected"))] == [ToClient(b3, ACK, Ascii("tcp_connected"))];
  }

  /** The announcement of a session states it, to the bridge's kind of parser and to the host's. */
  lemma AnnouncedSession(session: u32)
    ensures Metadata.BridgeParse(ConnectedText(session), "sid") == Some(session)
    ensures HostText.FieldU32(ConnectedText(session), "sid") == HostText.Found(session)
  {
    hide Text.Decimal, Text.Tokens, HostText.FieldU32, Metadata.BridgeParse;
    assert Text.OneToken("client_connected") && Text.OneToken("sid") && Trim("client_connected") && Trim("sid");
    assert NoEquals("client_connected") && NoEquals("sid");
    assert ConnectedText(session) == Numbered("client_connected", "sid", session);
    NumberedReads("client_connected", "sid", session, "sid");
    NumberedParses("client_connected", "sid", session);
  }
}
