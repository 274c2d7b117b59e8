/** From the bridge's USB frames to bytes and, through the host's decoder, to the mirror. */
module BridgeUsb {
  import opened Options
  import opened Bytes
  import opened Frames
  import opened KeepaliveText
  import opened B = Bridge
  import opened BridgeRuns
  import opened BridgeInvariant
  import opened BridgeWires
  import opened Simulation
  import opened HostText
  import M = Mirror
  import Text
  import UsbStream
  import PythonCodec
  import PythonStream

  /** Payloads of clients. */
  type Payloads = iset<seq<byte>>

  /** Text the bridge composes: it fits, and the host sees it as it is. */
  predicate Sayable(text: string) {
    0 < |text| <= TEXT_MAX && AllSmall(text)
  }

  /** Text of the bridge's own in frames of a known type; bytes of the client in DATA frames. */
  ghost predicate Writable(sent: Payloads, u: UsbFrame) {
    match u.payload
    case Text(t) => KnownKind(u.kind) && Sayable(t)
    case Forwarded(b) => u.kind == DATA && |b| <= UsbStream.MAX_PAYLOAD && b in sent
  }

  /** What the step forwards is among the payloads. */
  ghost predicate Knows(sent: Payloads, e: Event) {
    e.TcpFrame? && e.frame.kind == DATA ==> e.frame.payload in sent
  }

  ghost predicate AllWritable(sent: Payloads, b: B.Bridge) {
    forall i :: 0 <= i < |b.usb.frames| ==> Writable(sent, b.usb.frames[i])
  }

  lemma EmitWritable(sent: Payloads, b: B.Bridge, kind: byte, sequence: u16, payload: UsbPayload)
    requires AllWritable(sent, b) && Writable(sent, UsbFrame(kind, b.s.server, b.s.client, sequence, payload))
    ensures AllWritable(sent, EmitUsb(b, kind, sequence, payload))
  {
    hide Writable;
  }

  lemma EmitTextWritable(sent: Payloads, b: B.Bridge, kind: byte, sequence: u16, text: string)
    requires AllWritable(sent, b) && KnownKind(kind) && Sayable(text)
    ensures AllWritable(sent, EmitUsb(b, kind, sequence, UsbPayload.Text(text)))
  {
    hide EmitUsb, Sayable;
    EmitWritable(sent, b, kind, sequence, UsbPayload.Text(text));
  }

  lemma NotifyWritable(sent: Payloads, b: B.Bridge, kind: byte, text: string)
    requires AllWritable(sent, b) && KnownKind(kind) && Sayable(text)
    ensures AllWritable(sent, Notify(b, kind, text))
  {
    hide EmitUsb, Sayable;
    EmitTextWritable(sent, b, kind, b.usb.sequence, text);
  }

  lemma SmallConcat(s: string, t: string)
    requires AllSmall(s) && AllSmall(t)
    ensures AllSmall(s + t)
  {
  }

  lemma SmallSigned(n: int)
    ensures AllSmall(Text.SignedDecimal(n))
  {
    hide Text.Decimal;
    SmallDecimal(if n < 0 then -n else n);
  }

  lemma TelemetrySayable(t: Telemetry)
    ensures Sayable(TelemetryText(t))
  {
    hide Text.Decimal, Text.SignedDecimal, AllSmall;
    Text.WordLength(t.maxDelay);
    Text.WordLength(t.errors);
    SignedLength(t.lastDelay);
    SmallParts();
    SmallSigned(t.lastDelay);
    SmallDecimal(t.maxDelay);
    SmallDecimal(t.errors);
    var s1 := "telemetry;td_last_ms=" + Text.SignedDecimal(t.lastDelay);
    var s2 := s1 + ";td_max_ms=" + Text.Decimal(t.maxDelay);
    SmallConcat("telemetry;td_last_ms=", Text.SignedDecimal(t.lastDelay));
    SmallConcat(s1, ";td_max_ms=");
    SmallConcat(s1 + ";td_max_ms=", Text.Decimal(t.maxDelay));
    SmallConcat(s2, ";terr=");
    SmallConcat(s2 + ";terr=", Text.Decimal(t.errors));
  }

  lemma SignedLength(n: i32)
    ensures |Text.SignedDecimal(n)| <= 11
  {
    hide Text.Decimal;
    Text.WordLength(if n < 0 then 0 - n as int else n as int);
  }

  lemma SmallParts()
    ensures AllSmall("telemetry;td_last_ms=") && AllSmall(";td_max_ms=") && AllSmall(";terr=")
  {
  }

  lemma HaltedSayable(reason: string, session: u32)
    requires AllSmall(reason) && |reason| <= 32
    ensures Sayable(HaltedText(reason, session))
  {
    hide Text.Decimal, AllSmall;
    Text.WordLength(session);
    HaltedParts();
    SmallDecimal(session);
    var s1 := "realtime_data_halted;reason=" + reason;
    SmallConcat("realtime_data_halted;reason=", reason);
    SmallConcat(s1, ";sid=");
    SmallConcat(s1 + ";sid=", Text.Decimal(session));
  }

  lemma HaltedParts()
    ensures AllSmall("realtime_data_halted;reason=") && AllSmall(";sid=")
  {
  }

  lemma Reasons()
    ensures AllSmall("tcp_client_closed") && AllSmall("not_in_keepalive_state")
  {
  }

  lemma ConnectedSayable(session: u32)
    ensures Sayable(ConnectedText(session))
  {
    hide Text.Decimal, AllSmall;
    Text.WordLength(session);
    ConnectedPart();
    SmallDecimal(session);
    SmallConcat("client_connected;sid=", Text.Decimal(session));
  }

  lemma ConnectedPart()
    ensures AllSmall("client_connected;sid=")
  {
  }

  lemma PayloadSayable(tag: string, m: Meta)
    requires Tag(tag)
    ensures Sayable(Payload(tag, m))
  {
    PayloadFits(tag, m);
    SmallPayload(tag, m);
    hide AllSmall, MetaFields;
  }

  lemma HandshakeTexts()
    ensures Sayable("reset_ack") && Sayable("initialize_ack") && Sayable("disconnect_ack") && Sayable("error_ack")
    ensures Sayable("tcp_connected") && Sayable("unsupported")
  {
  }

  lemma FaultTexts()
    ensures Sayable("data_interface_version_mismatch") && Sayable("critical_error_data_interface_version_mismatch")
  {
    hide AllSmall;
    FaultParts();
    SmallConcat("critical_error_", "data_interface_version_mismatch");
    FaultJoined();
  }

  lemma FaultJoined()
    ensures "critical_error_data_interface_version_mismatch" == "critical_error_" + "data_interface_version_mismatch"
  {
  }

  lemma FaultParts()
    ensures AllSmall("critical_error_") && AllSmall("data_interface_version_mismatch")
  {
  }

  lemma LossTexts()
    ensures Sayable("keepalive_retry_exhausted") && Sayable("tcp_frame_parse_failed")
  {
  }

  lemma RefusalText()
    ensures Sayable("usb_keepalive_not_supported")
  {
  }

  lemma WifiTexts()
    ensures Sayable("wifi_disabled") && Sayable("wifi_enabled") && Sayable("wifi_enable_failed")
  {
  }

  lemma TelemetryTexts()
    ensures Sayable("telemetry_reset_ack") && Sayable("telemetry_reset_max_delay_ack")
  {
  }

  lemma DataTexts()
    ensures Sayable("data_ack") && Sayable("data_tcp_not_connected") && Sayable("data_forwarded_tcp")
  {
  }

  lemma IgnoredText()
    ensures Sayable("data_ignored_not_in_keepalive_session")
  {
  }

  lemma HaltWritable(sent: Payloads, b: B.Bridge, reason: string)
    requires AllWritable(sent, b) && Sayable(HaltedText(reason, b.s.session))
    ensures AllWritable(sent, HaltRealtime(b, reason))
  {
    hide Notify, HaltedText, Sayable;
    NotifyWritable(sent, b, ERROR, HaltedText(reason, b.s.session));
  }

  lemma CloseWritable(sent: Payloads, b: B.Bridge)
    requires AllWritable(sent, b)
    ensures AllWritable(sent, CloseClient(b))
  {
    hide HaltRealtime, HaltedText, Sayable, AllSmall;
    Reasons();
    HaltedSayable("tcp_client_closed", 0);
    HaltWritable(sent, b.(s := Closed(b.s), tcp := b.tcp.(sequence := 0)), "tcp_client_closed");
  }

  lemma EnterWritable(sent: Payloads, b: B.Bridge, next: State)
    requires AllWritable(sent, b)
    ensures AllWritable(sent, EnterState(b, next))
  {
    hide HaltRealtime, HaltedText, Notify, TelemetryText, Sayable, AllSmall;
    Reasons();
    HaltedSayable("not_in_keepalive_state", b.s.session);
    HaltWritable(sent, b, "not_in_keepalive_state");
    var b1 := LeaveKeepalive(b, next);
    var delay := if next.Keepalive() then b1.tele.lastDelay else -1;
    var shown := b1.(s := b1.s.(state := next), tele := b1.tele.(lastDelay := delay));
    TelemetrySayable(shown.tele);
    NotifyWritable(sent, shown, DATA, TelemetryText(shown.tele));
  }

  lemma SendWritable(sent: Payloads, b: B.Bridge, kind: int, payload: seq<byte>, fate: Fate)
    requires AllWritable(sent, b) && 0 <= kind < 0x100
    ensures AllWritable(sent, SendTcp(b, kind, payload, fate))
  {
    hide CloseClient;
    CloseWritable(sent, RecordError(b.(tcp := Transmit(b, kind, payload, fate))));
  }

  lemma ReplyWritable(sent: Payloads, b: B.Bridge, transport: Transport, kind: int, f: Frame, text: string, fate: Fate)
    requires AllWritable(sent, b) && FieldsFit(f) && KnownKind(kind) && Sayable(text)
    ensures AllWritable(sent, Reply(b, transport, kind, f, text, fate))
  {
    hide SendTcp, EmitUsb, Sayable;
    EmitTextWritable(sent, b, kind, f.sequence, text);
    SendWritable(sent, b, kind, Ascii(text), fate);
  }

  lemma FaultWritable(sent: Payloads, b: B.Bridge, transport: Transport, f: Frame, fate: Fate)
    requires AllWritable(sent, b) && FieldsFit(f)
    ensures AllWritable(sent, VersionFault(b, transport, f, fate))
  {
    FaultTexts();
    hide Reply, EnterState, Notify, Sayable;
    EnterWritable(sent, RecordError(b), Error);
    var b1 := EnterState(RecordError(b), Error);
    ReplyWritable(sent, b1, transport, ERROR, f, "data_interface_version_mismatch", fate);
    NotifyWritable(sent, Reply(b1, transport, ERROR, f, "data_interface_version_mismatch", fate),
                   ERROR, "critical_error_data_interface_version_mismatch");
  }

  lemma ResetWritable(sent: Payloads, b: B.Bridge, transport: Transport, f: Frame, fate: Fate)
    requires AllWritable(sent, b) && FieldsFit(f)
    ensures AllWritable(sent, HandleReset(b, transport, f, fate))
  {
    HandshakeTexts();
    hide Reply, EnterState, CloseClient, Sayable;
    var b1 := EnterState(b, Reset);
    EnterWritable(sent, b, Reset);
    var b2 := b1.(
      s := b1.s.(server := 0, client := 0, retries := 0, lastTx := 0, pending := false, windowStarted := 0,
                 session := 0, pendingRequest := 0, lastCompleted := 0, nextRequest := 1,
                 peerVersion := 0, peerVersionValid := false),
      tcp := b1.tcp.(sequence := 0),
      rt := Realtime(0, false));
    ReplyWritable(sent, b2, transport, ACK, f, "reset_ack", fate);
    CloseWritable(sent, Reply(b2, transport, ACK, f, "reset_ack", fate));
  }

  lemma InitializeWritable(sent: Payloads, b: B.Bridge, transport: Transport, f: Frame, fate: Fate)
    requires AllWritable(sent, b) && FieldsFit(f)
    ensures AllWritable(sent, HandleInitialize(b, transport, f, fate))
  {
    HandshakeTexts();
    hide Reply, EnterState, VersionFault, DataVersion, Sayable;
    EnterWritable(sent, b, Initialize);
    var b1 := EnterState(b, Initialize);
    var b2 := b1.(s := Idle(b1.s), rt := Realtime(0, false));
    FaultWritable(sent, b2, transport, f, fate);
    ReplyWritable(sent, b2.(s := b2.s.(peerVersion := INTERFACE_VERSION, peerVersionValid := true)),
                  transport, ACK, f, "initialize_ack", fate);
  }

  lemma ConnectWritable(sent: Payloads, b: B.Bridge, transport: Transport, f: Frame, fate: Fate)
    requires AllWritable(sent, b) && FieldsFit(f)
    ensures AllWritable(sent, HandleConnect(b, transport, f, fate))
  {
    hide Reply, EnterState, VersionFault, Notify, ConnectedText, Sayable;
    EnterWritable(sent, b, Connect);
    var b1 := EnterState(b, Connect);
    var b2 := b1.(s := Opened(b1.s));
    FaultWritable(sent, b2, transport, f, fate);
    var text := ConnectedText(b2.s.session);
    ConnectedSayable(b2.s.session);
    ReplyWritable(sent, b2, transport, ACK, f, text, fate);
    var b3 := Reply(b2, transport, ACK, f, text, fate);
    NotifyWritable(sent, b3, ACK, text);
    EnterWritable(sent, Notify(b3, ACK, text), ServerSend);
  }

  lemma DisconnectWritable(sent: Payloads, b: B.Bridge, transport: Transport, f: Frame, fate: Fate)
    requires AllWritable(sent, b) && FieldsFit(f)
    ensures AllWritable(sent, HandleDisconnect(b, transport, f, fate))
  {
    HandshakeTexts();
    hide Reply, EnterState, CloseClient, Sayable;
    EnterWritable(sent, b, Disconnect);
    var b1 := EnterState(b, Disconnect);
    ReplyWritable(sent, b1, transport, ACK, f, "disconnect_ack", fate);
    CloseWritable(sent, Reply(b1, transport, ACK, f, "disconnect_ack", fate));
  }

  lemma KeepaliveWritable(sent: Payloads, b: B.Bridge, transport: Transport, f: Frame, env: Env)
    requires AllWritable(sent, b) && FieldsFit(f)
    ensures AllWritable(sent, HandleKeepalive(b, transport, f, env))
  {
    RefusalText();
    hide Reply, Complete, VersionFault, Judge, Sayable;
    ReplyWritable(sent, b, transport, ACK, f, "usb_keepalive_not_supported", env.fate);
    FaultWritable(sent, b, transport, f, env.fate);
    CompleteWritable(sent, b, f, env);
  }

  lemma CompleteWritable(sent: Payloads, b: B.Bridge, f: Frame, env: Env)
    requires AllWritable(sent, b) && FieldsFit(f)
    ensures AllWritable(sent, Complete(b, f, env))
  {
    hide EnterState, SendTcp, HaltRealtime, Notify, Payload, DelayMs, ToI32, Answered, RealtimePayload, HaltedText, Sayable;
    var delay := DelayMs(b.s, env.clock.enter);
    var longest := if delay > b.tele.maxDelay then delay else b.tele.maxDelay;
    var b1 := b.(s := Answered(b.s, f.device), tele := b.tele.(lastDelay := ToI32(delay), maxDelay := longest));
    EnterWritable(sent, b1, ServerSend);
    var b2 := EnterState(b1, ServerSend);
    var m := MetaOf(b2, b2.s.lastCompleted);
    PayloadSayable("ka_resp", m);
    NotifyWritable(sent, b2, KEEPALIVE, Payload("ka_resp", m));
    RealtimeWritable(sent, Notify(b2, KEEPALIVE, Payload("ka_resp", m)), env);
  }

  lemma RealtimeWritable(sent: Payloads, b: B.Bridge, env: Env)
    requires AllWritable(sent, b)
    ensures AllWritable(sent, SendRealtime(b, env))
  {
    hide SendTcp, HaltRealtime, HaltedText, RealtimePayload, Sayable, AllSmall;
    Reasons();
    HaltedSayable("not_in_keepalive_state", b.s.session);
    HaltWritable(sent, b, "not_in_keepalive_state");
    var payload := RealtimePayload(b.rt.sequence, env.samples);
    SendWritable(sent, b.(rt := b.rt.(sequence := Inc32(b.rt.sequence))), DATA, payload, env.fate);
  }

  lemma UsbDataWritable(sent: Payloads, b: B.Bridge, f: Frame, env: Env)
    requires AllWritable(sent, b) && Parsed(f)
    ensures AllWritable(sent, HandleUsbData(b, f, env))
  {
    WifiTexts();
    TelemetryTexts();
    hide EmitUsb, DisableWifi, EnableWifi, EnableFails, SendTcp, CommandOf, PayloadText, TelemetryReply, AllWritable,
         Sayable;
    match CommandOf(PayloadText(f.payload))
    case DisableCommand =>
      DisableWritable(sent, b);
      EmitTextWritable(sent, DisableWifi(b), ACK, f.sequence, "wifi_disabled");
    case EnableCommand =>
      var b1 := EnableWifi(b, env.wifi);
      SameFrames(sent, b, b1);
      SameFrames(sent, b, RecordError(b1));
      EmitTextWritable(sent, b1, ACK, f.sequence, "wifi_enabled");
      EmitTextWritable(sent, RecordError(b1), ERROR, f.sequence, "wifi_enable_failed");
    case ResetTelemetry =>
      var delay := if b.s.state.Keepalive() then b.tele.lastDelay else -1;
      SameFrames(sent, b, b.(tele := Telemetry(delay, 0, 0)));
      TelemetryWritable(sent, b.(tele := Telemetry(delay, 0, 0)), f, "telemetry_reset_ack");
    case ResetMaxDelay =>
      SameFrames(sent, b, b.(tele := b.tele.(maxDelay := 0)));
      TelemetryWritable(sent, b.(tele := b.tele.(maxDelay := 0)), f, "telemetry_reset_max_delay_ack");
    case NoCommand => ForwardWritable(sent, b, f, env);
  }

  lemma SameFrames(sent: Payloads, b: B.Bridge, r: B.Bridge)
    requires AllWritable(sent, b) && r.usb == b.usb
    ensures AllWritable(sent, r)
  {
  }

  lemma DisableWritable(sent: Payloads, b: B.Bridge)
    requires AllWritable(sent, b)
    ensures AllWritable(sent, DisableWifi(b))
  {
    hide EnterState, CloseClient;
    CloseWritable(sent, b);
    EnterWritable(sent, CloseClient(b).(listening := false, wifiEnabled := false), Reset);
  }

  lemma TelemetryWritable(sent: Payloads, b: B.Bridge, f: Frame, text: string)
    requires AllWritable(sent, b) && FieldsFit(f) && Sayable(text)
    ensures AllWritable(sent, TelemetryReply(b, f, text))
  {
    hide EmitUsb, Notify, TelemetryText, Sayable;
    EmitTextWritable(sent, b, ACK, f.sequence, text);
    var b1 := EmitUsb(b, ACK, f.sequence, UsbPayload.Text(text));
    TelemetrySayable(b1.tele);
    NotifyWritable(sent, b1, DATA, TelemetryText(b1.tele));
  }

  lemma ForwardWritable(sent: Payloads, b: B.Bridge, f: Frame, env: Env)
    requires AllWritable(sent, b) && Parsed(f) && CommandOf(PayloadText(f.payload)).NoCommand?
    ensures AllWritable(sent, HandleUsbData(b, f, env))
  {
    DataTexts();
    IgnoredText();
    hide EmitUsb, DisableWifi, EnableWifi, EnableFails, SendTcp, CommandOf, PayloadText, TelemetryReply, AllWritable,
         Sayable;
    SendWritable(sent, b, DATA, f.payload, env.fate);
    SameFrames(sent, b, RecordError(b));
    EmitTextWritable(sent, b, ACK, f.sequence, "data_ack");
    EmitTextWritable(sent, b, ACK, f.sequence, "data_tcp_not_connected");
    EmitTextWritable(sent, RecordError(b), ACK, f.sequence, "data_ignored_not_in_keepalive_session");
    EmitTextWritable(sent, SendTcp(b, DATA, f.payload, env.fate), ACK, f.sequence, "data_forwarded_tcp");
  }

  lemma TcpDataWritable(sent: Payloads, b: B.Bridge, f: Frame, env: Env)
    requires AllWritable(sent, b) && Parsed(f) && f.payload in sent
    ensures AllWritable(sent, HandleTcpData(b, f, env))
  {
    hide EmitUsb, SendTcp, AllWritable, Ascii;
    SameFrames(sent, b, RecordError(b));
    EmitWritable(sent, b, DATA, f.sequence, Forwarded(f.payload));
    SendWritable(sent, b, ACK, Ascii("data_ack"), env.fate);
    SendWritable(sent, RecordError(b), ACK, Ascii("data_ignored_not_in_keepalive_session"), env.fate);
    SendWritable(sent, EmitUsb(b, DATA, f.sequence, Forwarded(f.payload)), ACK, Ascii("data_forwarded_usb"), env.fate);
  }

  lemma OtherWritable(sent: Payloads, b: B.Bridge, transport: Transport, f: Frame, env: Env)
    requires AllWritable(sent, b) && FieldsFit(f) && f.kind !in {RESET, INITIALIZE, CONNECT, DISCONNECT, KEEPALIVE, DATA}
    ensures AllWritable(sent, HandleFrame(b, transport, f, env))
  {
    HandshakeTexts();
    hide Reply, EnterState, AllWritable, Sayable;
    SameFrames(sent, b, RecordError(b));
    EnterWritable(sent, RecordError(b), Error);
    ReplyWritable(sent, EnterState(RecordError(b), Error), transport, ACK, f, "error_ack", env.fate);
    ReplyWritable(sent, RecordError(b), transport, ERROR, f, "unsupported", env.fate);
  }

  lemma FrameWritable(sent: Payloads, b: B.Bridge, transport: Transport, f: Frame, env: Env)
    requires AllWritable(sent, b) && Parsed(f)
    requires transport.Tcp? && f.kind == DATA ==> f.payload in sent
    ensures AllWritable(sent, HandleFrame(b, transport, f, env))
  {
    hide AllWritable, HandleReset, HandleInitialize, HandleConnect, HandleDisconnect, HandleKeepalive, HandleUsbData,
         HandleTcpData;
    ResetWritable(sent, b, transport, f, env.fate);
    InitializeWritable(sent, b, transport, f, env.fate);
    ConnectWritable(sent, b, transport, f, env.fate);
    DisconnectWritable(sent, b, transport, f, env.fate);
    KeepaliveWritable(sent, b, transport, f, env);
    UsbDataWritable(sent, b, f, env);
    if transport.Tcp? && f.kind == DATA {
      TcpDataWritable(sent, b, f, env);
    }
    if f.kind !in {RESET, INITIALIZE, CONNECT, DISCONNECT, KEEPALIVE, DATA} {
      OtherWritable(sent, b, transport, f, env);
    }
  }

  lemma RequestWritable(sent: Payloads, b: B.Bridge, reuse: bool, env: Env)
    requires AllWritable(sent, b)
    ensures AllWritable(sent, SendKeepalive(b, reuse, env.fate, env.clock))
  {
    hide EnterState, SendTcp, Notify, Payload, Ascii, Requested, Sayable;
    var b1 := b.(s := Requested(b.s, reuse, env.clock));
    var m := MetaOf(b1, b1.s.pendingRequest);
    var text := Payload("ka_req", m);
    PayloadSayable("ka_req", m);
    SendWritable(sent, b1, KEEPALIVE, Ascii(text), env.fate);
    var b2 := SendTcp(b1, KEEPALIVE, Ascii(text), env.fate);
    NotifyWritable(sent, b2, KEEPALIVE, text);
    var b3 := Notify(b2, KEEPALIVE, text);
    var b4 := b3.(s := b3.s.(lastTx := env.clock.sent, pending := true, windowStarted := env.clock.armed));
    EnterWritable(sent, b4, ClientReturn);
  }

  lemma TeardownWritable(sent: Payloads, b: B.Bridge)
    requires AllWritable(sent, b)
    ensures AllWritable(sent, Teardown(b))
  {
    LossTexts();
    hide EnterState, CloseClient, Notify, Sayable;
    NotifyWritable(sent, RecordError(b), ERROR, "keepalive_retry_exhausted");
    var b1 := Notify(RecordError(b), ERROR, "keepalive_retry_exhausted");
    CloseWritable(sent, b1);
    EnterWritable(sent, CloseClient(b1), Initialize);
  }

  lemma ClockWorkWritable(sent: Payloads, b: B.Bridge, env: Env)
    requires AllWritable(sent, b)
    ensures AllWritable(sent, EngineTick(b, env))
    ensures AllWritable(sent, WatchdogTick(b, env))
  {
    hide EnterState, SendKeepalive, Teardown, WindowExpired, RequestDue;
    RequestWritable(sent, b, false, env);
    var b1 := RecordError(b.(s := b.s.(retries := Inc32(b.s.retries))));
    TeardownWritable(sent, b1);
    EnterWritable(sent, b1, ServerSend);
    RequestWritable(sent, EnterState(b1, ServerSend), true, env);
  }

  lemma AcceptWritable(sent: Payloads, b: B.Bridge, fate: Fate)
    requires AllWritable(sent, b)
    ensures AllWritable(sent, Accept(b, fate))
  {
    HandshakeTexts();
    hide EnterState, CloseClient, SendTcp, Notify, Ascii, Attached, Sayable;
    CloseWritable(sent, b);
    var b1 := if b.s.attached then CloseClient(b) else b;
    var joined := b1.(s := b1.s.(attached := true, lastTx := 0),
                      tcp := b1.tcp.(wires := b1.tcp.wires + [Wire([], [])]));
    EnterWritable(sent, joined, Connect);
    var b2 := EnterState(joined, Connect);
    var b3 := b2.(s := Attached(b2.s), tcp := b2.tcp.(sequence := 0));
    SendWritable(sent, b3, ACK, Ascii("tcp_connected"), fate);
    NotifyWritable(sent, SendTcp(b3, ACK, Ascii("tcp_connected"), fate), ACK, "tcp_connected");
  }

  lemma StepWritable(sent: Payloads, b: B.Bridge, e: Event, env: Env)
    requires AllWritable(sent, b) && GoodEvent(e) && Knows(sent, e)
    ensures AllWritable(sent, Step(b, e, env))
  {
    LossTexts();
    hide HandleFrame, Accept, CloseClient, EngineTick, WatchdogTick, Notify, Sayable;
    match e
    case UsbFrameIn(f) => FrameWritable(sent, b, Usb, f, env);
    case TcpFrame(f) => FrameWritable(sent, b, Tcp, f, env);
    case Accepts => AcceptWritable(sent, b, env.fate);
    case PeerCloses => CloseWritable(sent, b);
    case BadStream(parseFailed) =>
      var b1 := RecordError(b);
      NotifyWritable(sent, b1, ERROR, "tcp_frame_parse_failed");
      CloseWritable(sent, if parseFailed then Notify(b1, ERROR, "tcp_frame_parse_failed") else b1);
    case Engine => ClockWorkWritable(sent, b, env);
    case Watchdog => ClockWorkWritable(sent, b, env);
  }

  ghost function ClientData(script: seq<Tick>): Payloads {
    iset i | 0 <= i < |script| && script[i].event.TcpFrame? :: script[i].event.frame.payload
  }

  /** All client data of a run is among the payloads. */
  ghost predicate KnowsAll(sent: Payloads, script: seq<Tick>) {
    forall i :: 0 <= i < |script| ==> Knows(sent, script[i].event)
  }

  /**
   Every frame written to USB in a run from power-on has a known type and a payload that fits: text
   of the bridge's own that the host sees as it is, or what a client sent, in a DATA frame.
   */
  lemma {:induction false} RunWritable(sent: Payloads, script: seq<Tick>, states: seq<B.Bridge>, k: nat)
    requires Trace(Boot(), script, states) && k <= |script| && KnowsAll(sent, script)
    ensures AllWritable(sent, states[k])
  {
    if k == 0 {
      BootWritable(sent);
    } else {
      hide AllWritable, Step, Boot, Knows;
      RunWritable(sent, script, states, k - 1);
      StepWritable(sent, states[k - 1], script[k - 1].event, script[k - 1].env);
    }
  }

  lemma BootWritable(sent: Payloads)
    ensures AllWritable(sent, Boot())
  {
  }

  // ----- what the host can read -----

  /** A client's payload that makes the host raise: a number of digits that are no decimals, where it looks for one. */
  predicate Poisonous(payload: seq<byte>) {
    || M.TelemetryFails(Normal(payload))
    || (!Uplink(payload) && M.OrderOf(CommandText(payload)).Malformed?)
  }

  lemma AsciiOrder(command: string)
    requires AsciiText(command)
    ensures !M.OrderOf(command).Malformed?
  {
    hide FieldU32, AsciiText, Text.StartsWith;
    AsciiNeverRaises(command, "profile");
    AsciiNeverRaises(command, "id");
    AsciiNeverRaises(command, "offline");
    AsciiNeverRaises(command, "packet_interval_ms");
    AsciiNeverRaises(command, "int_ms");
  }

  lemma AsciiTexts(b: seq<byte>)
    requires AsciiBytes(b)
    ensures AsciiText(Normal(b)) && AsciiText(CommandText(b))
  {
    AsciiDecoded(b, "");
    AsciiDecoded(b, REPLACEMENT);
    hide AsciiBytes, Utf8, Strip, Lower;
    AsciiStripped(Utf8(b, ""));
    AsciiLowered(Strip(Utf8(b, "")));
    AsciiStripped(Utf8(b, REPLACEMENT));
    AsciiStripped(Strip(Utf8(b, REPLACEMENT)));
    AsciiLowered(Strip(Strip(Utf8(b, REPLACEMENT))));
  }

  lemma SmallBytes(text: string)
    requires AllSmall(text)
    ensures AsciiBytes(Ascii(text))
  {
    hide AllSmall;
    AsciiSpells(text);
  }

  lemma EmptyOrder()
    ensures M.OrderOf("").NoOrder?
  {
  }

  /** Of the frames the bridge writes the host fails to read exactly those that pass on a poisonous payload. */
  lemma FailsExactly(sent: Payloads, u: UsbFrame)
    requires Writable(sent, u)
    ensures M.Fails(Arrived(u)) <==> u.payload.Forwarded? && Poisonous(u.payload.bytes)
  {
    var f := Arrived(u);
    hide Normal, CommandText, FieldU32, M.OrderOf, AsciiText, AllSmall;
    EmptyOrder();
    if u.payload.Text? {
      SmallBytes(u.payload.text);
      AsciiTexts(PayloadBytes(u.payload));
      AsciiNeverRaises(f.text, "td_max_ms");
      AsciiNeverRaises(f.text, "terr");
      AsciiNeverRaises(f.text, "sid");
      AsciiNeverRaises(f.text, "req");
      AsciiOrder(CommandText(PayloadBytes(u.payload)));
    }
  }

  ghost predicate Poisoned(us: seq<UsbFrame>) {
    exists i :: 0 <= i < |us| && us[i].payload.Forwarded? && Poisonous(us[i].payload.bytes)
  }

  lemma ReadsExactly(sent: Payloads, us: seq<UsbFrame>)
    requires forall i :: 0 <= i < |us| ==> Writable(sent, us[i])
    ensures AllRead(Arrivals(us)) <==> !Poisoned(us)
  {
    hide Writable, M.Fails, Poisonous, Arrived;
    forall i | 0 <= i < |us|
      ensures M.Fails(Arrived(us[i])) <==> us[i].payload.Forwarded? && Poisonous(us[i].payload.bytes)
    {
      FailsExactly(sent, us[i]);
    }
    if Poisoned(us) {
      var i :| 0 <= i < |us| && us[i].payload.Forwarded? && Poisonous(us[i].payload.bytes);
      assert M.Fails(Arrivals(us)[i]);
    }
  }

  /** A keepalive text of the bridge tells the host the bridge's delays and error count, signs and all. */
  lemma KeepaliveTeaches(t: M.Timing, tag: string, m: Meta)
    requires Tag(tag)
    ensures var r := M.Learned(t, Normal(Ascii(Payload(tag, m))));
            && r.last == m.lastDelay && r.longest == m.maxDelay && r.errors == m.errors && r.reported
            && (if m.lastDelay < 0 then r.timed == t.timed && r.shortest == t.shortest
                else r.timed && r.shortest == if t.timed && t.shortest < m.lastDelay then t.shortest else m.lastDelay)
  {
    PayloadSayable(tag, m);
    var s := Payload(tag, m);
    hide Payload, AllSmall, Normal, FieldU32, FieldI32;
    AsciiSpells(s);
    NormalSmall(Ascii(s), s);
    HostReadsBack(tag, m);
  }

  function TelemetryFields(t: Telemetry): (fields: seq<Field>)
    ensures |fields| == 3
  {
    [Field("td_last_ms", Text.SignedDecimal(t.lastDelay)),
     Field("td_max_ms", Text.Decimal(t.maxDelay)),
     Field("terr", Text.Decimal(t.errors))]
  }

  lemma TelemetryParts(t: Telemetry)
    ensures var fs := TelemetryFields(t);
            TelemetryText(t) == "telemetry" + ";" + (fs[0].Text() + ";" + (fs[1].Text() + ";" + fs[2].Text()))
  {
    hide Text.Decimal, Text.SignedDecimal;
  }

  lemma FieldTokens(t: Telemetry)
    ensures forall f :: f in TelemetryFields(t) ==> Text.OneToken(f.Text())
  {
    assert Text.OneToken("td_last_ms") && Text.OneToken("td_max_ms") && Text.OneToken("terr");
    hide Text.Decimal, Text.SignedDecimal, Field.Text, Text.OneToken;
    NumberToken("td_last_ms", if t.lastDelay < 0 then 0 - t.lastDelay as int else t.lastDelay);
    NumberToken("td_max_ms", t.maxDelay);
    NumberToken("terr", t.errors);
  }

  lemma FourTokens(tag: string, a: string, b: string, c: string)
    requires Text.OneToken(tag) && Text.OneToken(a) && Text.OneToken(b) && Text.OneToken(c)
    ensures Text.Tokens(tag + ";" + (a + ";" + (b + ";" + c))) == [tag, a, b, c]
  {
    hide Text.Tokens, Text.OneToken;
    Text.TokenThenMore(tag, a + ";" + (b + ";" + c));
    Text.TokenThenMore(a, b + ";" + c);
    Text.TokenThenMore(b, c);
    Text.OneTokenAlone(c);
  }

  lemma ThreeTexts(fields: seq<Field>)
    requires |fields| == 3
    ensures Texts(fields) == [fields[0].Text(), fields[1].Text(), fields[2].Text()]
  {
    hide Field.Text;
  }

  lemma TelemetryTokens(t: Telemetry)
    ensures Text.Tokens(TelemetryText(t)) == ["telemetry"] + Texts(TelemetryFields(t))
  {
    assert Text.OneToken("telemetry");
    hide Field.Text, Text.Tokens, Text.OneToken, TelemetryText, TelemetryFields, Texts;
    var fs := TelemetryFields(t);
    TelemetryParts(t);
    FieldTokens(t);
    ThreeTexts(fs);
    FourTokens("telemetry", fs[0].Text(), fs[1].Text(), fs[2].Text());
  }

  lemma TelemetryFieldsGood(t: Telemetry)
    ensures GoodFields(TelemetryFields(t))
    ensures forall k: nat :: k < 3 ==> FirstWithKey(TelemetryFields(t), k)
  {
    hide Text.Decimal, Text.SignedDecimal;
    SignedFieldGood("td_last_ms", t.lastDelay);
    NumberFieldGood("td_max_ms", t.maxDelay);
    NumberFieldGood("terr", t.errors);
  }

  /** And so does a telemetry text. */
  lemma TelemetryTeaches(m: M.Timing, t: Telemetry)
    ensures var r := M.Learned(m, Normal(Ascii(TelemetryText(t))));
            r.last == t.lastDelay && r.longest == t.maxDelay && r.errors == t.errors && r.reported
  {
    var s := TelemetryText(t);
    TelemetrySayable(t);
    hide TelemetryText, AllSmall, Normal, Text.Tokens, ReadU32, ReadI32, Texts, Text.Decimal;
    AsciiSpells(s);
    NormalSmall(Ascii(s), s);
    TelemetryTokens(t);
    TelemetryFieldsGood(t);
    var fields := TelemetryFields(t);
    hide GoodFields, FirstWithKey;
    HostLookUp(fields, 0);
    HostLookUp(fields, 1);
    HostLookUp(fields, 2);
    TelemetrySkipped(fields, "td_last_ms");
    TelemetrySkipped(fields, "td_max_ms");
    TelemetrySkipped(fields, "terr");
    Text.NumberOfDecimal(t.maxDelay);
    Text.NumberOfDecimal(t.errors);
    SignedReads(t.lastDelay);
  }

  lemma TelemetrySkipped(fields: seq<Field>, key: string)
    ensures var ts := ["telemetry"] + Texts(fields);
            ReadU32(ts, key) == ReadU32(Texts(fields), key) && ReadI32(ts, key) == ReadI32(Texts(fields), key)
  {
    hide ReadU32, ReadI32, Texts;
    NotThisField("telemetry", key);
    var ts := ["telemetry"] + Texts(fields);
    HostFieldSkipped(ts, key);
    assert ts[1..] == Texts(fields);
  }

  lemma SignedReads(n: i32)
    ensures SignedOf(Text.SignedDecimal(n)) == Some(n as int)
  {
    hide Text.Decimal;
    var size := if n < 0 then 0 - n as int else n as int;
    var digits := Text.Decimal(size);
    Text.NumberOfDecimal(size);
    if n < 0 {
      assert Text.SignedDecimal(n)[1..] == digits && Text.SignedDecimal(n)[0] == '-';
    }
  }

  // ----- bytes on the USB line -----

  function AsFrames(us: seq<UsbFrame>): (fs: seq<Frame>)
    ensures |fs| == |us| && forall k :: 0 <= k < |us| ==> fs[k] == OnUsb(us[k])
  {
    seq(|us|, k requires 0 <= k < |us| => OnUsb(us[k]))
  }

  /** What the host's poll makes of decoded frames. */
  function HostViews(fs: seq<Frame>): (hs: seq<M.HostFrame>)
    ensures |hs| == |fs| && forall k :: 0 <= k < |fs| ==> hs[k] == Seen(fs[k])
  {
    seq(|fs|, k requires 0 <= k < |fs| => Seen(fs[k]))
  }

  /** The bytes of writable frames, delivered in any chunks that keep the pairs together, decode to those frames. */
  lemma UsbBytesDecode(sent: Payloads, us: seq<UsbFrame>, chunks: seq<seq<byte>>)
    requires forall i :: 0 <= i < |us| ==> Writable(sent, us[i])
    requires chunks != [] && PythonStream.KeepsPairs(chunks) && PythonStream.Join(chunks) == BytesOf(AsFrames(us))
    ensures PythonStream.Feed([], chunks) == PythonCodec.Run(AsFrames(us), [], [])
  {
    hide Encode, PythonCodec.Decode, PythonStream.Wire, PythonStream.FramesOf, BytesOf, PythonStream.Feed, NoSof;
    var fs := AsFrames(us);
    PlainWire(fs);
    EmptyNoise();
    var items := Plainly(fs);
    assert forall i :: 0 <= i < |us| ==> KnownKind(us[i].kind) && |PayloadBytes(us[i].payload)| <= UsbStream.MAX_PAYLOAD;
    hide Writable;
    assert PythonStream.GoodItems(items);
    PythonStream.StreamRoundTrip(items, [], Frame(ACK, 0, 0, 0, []));
    assert PythonStream.Wire(items) + [] == [] + PythonStream.Join(chunks);
    PythonStream.ChunkingIrrelevant([], chunks);
  }

  lemma EmptyNoise()
    ensures NoSof([])
  {
  }

  lemma ViewsArrive(us: seq<UsbFrame>)
    ensures HostViews(AsFrames(us)) == Arrivals(us)
  {
    hide Seen;
  }

  function WrittenSince(states: seq<B.Bridge>, j: nat, k: nat): seq<UsbFrame>
    requires j < |states| && k < |states|
  {
    Since(View(Still(Reset), |states[j].usb.frames|), states[k].usb.frames)
  }

  /**
   From protocol to bytes to display: take any run, and in it any state j without a live session,
   or before the step that opens one. The bytes the bridge puts on USB from there on, read in any
   chunks that keep the pairs together, decode without error. A host in any condition that polls
   the decoded frames raises if and only if one of them passes on a poisonous payload; if it does
   not, it shows what agrees with the bridge.
   */
  lemma MirrorAgreesThroughBytes(m: M.Mirror, script: seq<Tick>, states: seq<B.Bridge>, j: nat, chunks: seq<seq<byte>>,
                                 given: seq<seq<M.Answer>>)
    requires FromPowerOn(script, states) && j <= |script| && Begins(states, j)
    requires chunks != [] && PythonStream.KeepsPairs(chunks)
    requires PythonStream.Join(chunks) == BytesOf(AsFrames(WrittenSince(states, j, |script|)))
    ensures var read := PythonStream.Feed([], chunks);
            var polled := M.Poll(m, HostViews(read.frames), given);
            && read.raised == [] && read.rest == []
            && (polled.raised <==> Poisoned(WrittenSince(states, j, |script|)))
            && (!polled.raised ==> Agrees(states[|script|].s, Shows(polled.mirror)))
  {
    hide PythonStream.Feed, PythonStream.Join, PythonStream.KeepsPairs, Agrees, Boot, AsFrames, HostViews, Poisoned,
         Arrivals, Writable, Step, M.Poll, Shows, After, AllRead;
    var us, v := WrittenSince(states, j, |script|), View(Shows(m), |states[j].usb.frames|);
    var sent := ClientData(script);
    RunWritable(sent, script, states, |script|);
    UsbBytesDecode(sent, us, chunks);
    ReadsExactly(sent, us);
    ViewsArrive(us);
    PollMoves(m, Arrivals(us), given);
    TraceSim(script, states, j, |script|, v);
  }
}
