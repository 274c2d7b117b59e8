/**
 The bridge's session protocol as functions on its state: one function per firmware
 routine, and the steps of its main loop.
 */
module Bridge {
  import opened Options
  import opened Bytes
  import opened Frames
  import Text
  import Metadata
  import UsbStream
  import opened KeepaliveText

  const KEEPALIVE_PERIOD_US := 300_000
  const WAIT_WINDOW_MS := 500
  const RETRY_LIMIT := 3
  const DEVICE_LIVE_START: u32 := 1

  const RESET := 1
  const INITIALIZE := 2
  const CONNECT := 3
  const DISCONNECT := 4
  const KEEPALIVE := 5
  const ERROR := 6
  const ACK := 7
  const DATA := 8

  type u16 = n: int | 0 <= n < 0x1_0000

  datatype State = Reset | Initialize | Connect | ServerSend | ClientReturn | Disconnect | Error {
    predicate Keepalive() {
      ServerSend? || ClientReturn?
    }
  }

  datatype Transport = Usb | Tcp

  /** A frame written to the host: text the bridge composed, or bytes it passes on. */
  datatype UsbPayload = Text(text: string) | Forwarded(bytes: seq<byte>)
  datatype UsbFrame = UsbFrame(kind: byte, host: u32, device: u32, sequence: u16, payload: UsbPayload)

  /** What was sent on one client connection: whole frames, then perhaps part of one more. */
  datatype Wire = Wire(frames: seq<Frame>, tail: seq<byte>)

  /** One keepalive request put on the wire, between two clock readings. */
  datatype Transmission = Transmission(session: u32, request: u32, attempt: u32, begin: int, end: int)

  /** One request answered by the client. */
  datatype Exchange = Exchange(session: u32, request: u32)

  /** The session protocol proper. */
  datatype Session = Session(
    state: State,
    attached: bool,
    server: u32,
    client: u32,
    session: u32,
    nextSession: u32,
    nextRequest: u32,
    pendingRequest: u32,
    lastCompleted: u32,
    pending: bool,
    retries: u32,
    lastTx: int,
    windowStarted: int,
    peerVersion: u32,
    peerVersionValid: bool,
    sent: seq<Transmission>,
    completed: seq<Exchange>)

  datatype Telemetry = Telemetry(lastDelay: i32, maxDelay: u32, errors: u32)
  datatype Realtime = Realtime(sequence: u32, active: bool)
  datatype TcpSide = TcpSide(sequence: u16, wires: seq<Wire>)
  datatype UsbSide = UsbSide(sequence: u16, frames: seq<UsbFrame>)

  datatype Bridge = Bridge(
    s: Session,
    tele: Telemetry,
    rt: Realtime,
    tcp: TcpSide,
    usb: UsbSide,
    listening: bool,
    wifiEnabled: bool)

  /** What becomes of a frame handed to the socket: all of it is sent, or it breaks off after `cut` bytes. */
  datatype Fate = Sent | Broken(cut: nat)

  /** Clock readings of one step: on entry, after a send, and after that. */
  datatype Clock = Clock(enter: int, sent: int, armed: int) {
    predicate Ordered() {
      0 < enter <= sent <= armed
    }
  }

  datatype WifiOutcome = WifiOk | SoftApFailed | ListenerFailed

  /** Everything a step takes from outside: the fate of its one TCP send, clock, Wi-Fi driver, packed samples. */
  datatype Env = Env(fate: Fate, clock: Clock, wifi: WifiOutcome, samples: seq<byte>)

  function Inc32(n: u32): u32 {
    (n + 1) % 0x1_0000_0000
  }

  function Inc16(n: u16): u16 {
    (n + 1) % 0x1_0000
  }

  /** A number stored in a signed 32-bit variable. */
  function ToI32(n: int): i32 {
    var low := n % 0x1_0000_0000;
    if low >= 0x8000_0000 then low - 0x1_0000_0000 else low
  }

  function Ascii(s: string): (b: seq<byte>)
    ensures |b| == |s|
  {
    seq(|s|, i requires 0 <= i < |s| => s[i] as int % 0x100)
  }

  /** The NUL-terminated copy of a payload that handlers look at. */
  function PayloadText(payload: seq<byte>): (s: string)
    ensures |s| <= TEXT_MAX
  {
    var n := if |payload| < TEXT_MAX then |payload| else TEXT_MAX;
    var s: string := seq(n, i requires 0 <= i < n => payload[i] as char);
    s[..Text.Span(s, c => c != '\0')]
  }

  function RecordError(b: Bridge): Bridge {
    b.(tele := b.tele.(errors := Inc32(b.tele.errors)))
  }

  // ----- output to the host -----

  function EmitUsb(b: Bridge, kind: byte, sequence: u16, payload: UsbPayload): (r: Bridge)
    ensures b.usb.frames <= r.usb.frames
    ensures r == b.(usb := r.usb)
  {
    b.(usb := b.usb.(frames := b.usb.frames + [UsbFrame(kind, b.s.server, b.s.client, sequence, payload)]))
  }

  /** bridge_send_unsolicited_usb_frame */
  function Notify(b: Bridge, kind: byte, text: string): (r: Bridge)
    ensures b.usb.frames <= r.usb.frames
    ensures r == b.(usb := r.usb)
  {
    var b1 := EmitUsb(b, kind, b.usb.sequence, Text(text));
    b1.(usb := b1.usb.(sequence := Inc16(b.usb.sequence)))
  }

  function HaltedText(reason: string, session: u32): string {
    "realtime_data_halted;reason=" + reason + ";sid=" + Text.Decimal(session)
  }

  function TelemetryText(t: Telemetry): string {
    "telemetry;td_last_ms=" + Text.SignedDecimal(t.lastDelay) + ";td_max_ms=" + Text.Decimal(t.maxDelay)
    + ";terr=" + Text.Decimal(t.errors)
  }

  function ConnectedText(session: u32): string {
    "client_connected;sid=" + Text.Decimal(session)
  }

  /** bridge_notify_realtime_data_halted while streaming, and streaming off */
  function HaltRealtime(b: Bridge, reason: string): (r: Bridge)
    ensures b.usb.frames <= r.usb.frames
    ensures r == b.(usb := r.usb, rt := b.rt.(active := false))
  {
    if b.rt.active then
      var b1 := Notify(b, ERROR, HaltedText(reason, b.s.session));
      b1.(rt := b.rt.(active := false))
    else b
  }

  // ----- output to the client -----

  /** The session part of bridge_close_tcp_client. */
  function Closed(s: Session): Session {
    s.(attached := false, lastTx := 0, pending := false, windowStarted := 0, retries := 0, session := 0,
       pendingRequest := 0, lastCompleted := 0, nextRequest := 1, peerVersion := 0, peerVersionValid := false)
  }

  /** bridge_close_tcp_client */
  function CloseClient(b: Bridge): (r: Bridge)
    ensures b.usb.frames <= r.usb.frames
    ensures r.s == Closed(b.s) && r.tcp == b.tcp.(sequence := 0) && r.tele == b.tele
    ensures r.listening == b.listening && r.wifiEnabled == b.wifiEnabled
  {
    HaltRealtime(b.(s := Closed(b.s), tcp := b.tcp.(sequence := 0)), "tcp_client_closed")
  }

  /** The current connection's record with one more frame, or with part of one. */
  function OnWire(wires: seq<Wire>, f: Frame, fate: Fate): (r: seq<Wire>)
    requires |wires| > 0 && FieldsFit(f)
    ensures |r| == |wires|
  {
    var n := |wires| - 1;
    var w := wires[n];
    match fate
    case Sent => wires[n := w.(frames := w.frames + [f])]
    case Broken(cut) =>
      wires[n := w.(tail := w.tail + Encode(f)[..if cut < |Encode(f)| then cut else |Encode(f)| - 1])]
  }

  /** The TCP side after the frame is handed to the socket; without a client only the number is used up. */
  function Transmit(b: Bridge, kind: int, payload: seq<byte>, fate: Fate): (t: TcpSide)
    requires 0 <= kind < 0x100
    ensures |t.wires| == |b.tcp.wires|
  {
    var f := Frame(kind, b.s.server, b.s.client, b.tcp.sequence, payload);
    var wires := if b.s.attached && |b.tcp.wires| > 0 then OnWire(b.tcp.wires, f, fate) else b.tcp.wires;
    TcpSide(Inc16(b.tcp.sequence), wires)
  }

  predicate Breaks(b: Bridge, fate: Fate) {
    b.s.attached && fate.Broken?
  }

  /** bridge_send_frame_binary to TCP: a send that breaks off closes the client. */
  function SendTcp(b: Bridge, kind: int, payload: seq<byte>, fate: Fate): (r: Bridge)
    requires 0 <= kind < 0x100
    ensures b.usb.frames <= r.usb.frames
    ensures r.s == if Breaks(b, fate) then Closed(b.s) else b.s
    ensures r.tcp == var t := Transmit(b, kind, payload, fate); if Breaks(b, fate) then t.(sequence := 0) else t
    ensures r.listening == b.listening && r.wifiEnabled == b.wifiEnabled
    ensures |r.tcp.wires| == |b.tcp.wires|
    ensures !Breaks(b, fate) ==> r == b.(tcp := r.tcp)
  {
    var logged := b.(tcp := Transmit(b, kind, payload, fate));
    if Breaks(b, fate) then CloseClient(RecordError(logged)) else logged
  }

  /** bridge_send_frame: a reply on the transport a request came from */
  function Reply(b: Bridge, transport: Transport, kind: int, request: Frame, text: string, fate: Fate): (r: Bridge)
    requires 0 <= kind < 0x100 && FieldsFit(request)
    ensures b.usb.frames <= r.usb.frames
    ensures r.s == if transport.Tcp? && Breaks(b, fate) then Closed(b.s) else b.s
    ensures |r.tcp.wires| == |b.tcp.wires|
    ensures r.listening == b.listening && r.wifiEnabled == b.wifiEnabled
  {
    match transport
    case Usb => EmitUsb(b, kind, request.sequence, Text(text))
    case Tcp => SendTcp(b, kind, Ascii(text), fate)
  }

  // ----- state changes -----

  /** The session part of bridge_enter_state. */
  function Entered(s: Session, next: State): Session {
    if next.Reset? then
      s.(state := next, retries := 0, windowStarted := 0, session := 0, pendingRequest := 0, lastCompleted := 0,
         nextRequest := 1)
    else s.(state := next)
  }

  /** Leaving the keepalive states ends the realtime stream. */
  function LeaveKeepalive(b: Bridge, next: State): (r: Bridge)
    ensures b.usb.frames <= r.usb.frames
    ensures r == b.(usb := r.usb, rt := r.rt)
  {
    if b.s.state.Keepalive() && !next.Keepalive() then HaltRealtime(b, "not_in_keepalive_state") else b
  }

  /** The state itself, and the telemetry the host is sent on a change. */
  function ShowState(b: Bridge, next: State): (r: Bridge)
    ensures b.usb.frames <= r.usb.frames
    ensures r == b.(s := b.s.(state := next), tele := r.tele, usb := r.usb)
  {
    hide Notify;
    var delay := if next.Keepalive() then b.tele.lastDelay else -1;
    var shown := b.(s := b.s.(state := next), tele := b.tele.(lastDelay := delay));
    if b.s.state != next then Notify(shown, DATA, TelemetryText(shown.tele)) else shown
  }

  /** bridge_enter_state */
  function EnterState(b: Bridge, next: State): (r: Bridge)
    ensures b.usb.frames <= r.usb.frames
    ensures r.s == Entered(b.s, next) && r.tcp == b.tcp
    ensures r.listening == b.listening && r.wifiEnabled == b.wifiEnabled
  {
    hide LeaveKeepalive, ShowState;
    var shown := ShowState(LeaveKeepalive(b, next), next);
    if next.Reset? then shown.(s := Entered(shown.s, next), rt := Realtime(0, false)) else shown
  }

  function EvenUp(n: u32): u32 {
    if n % 2 == 1 then Inc32(n) else n
  }

  function OddUp(n: u32): u32 {
    if n % 2 == 0 then Inc32(n) else n
  }

  function MetaOf(b: Bridge, request: u32): Meta {
    Meta(b.s.session, request, b.tele.lastDelay, b.tele.maxDelay, b.tele.errors)
  }

  /** The request that goes out: the pending one again, or a new one. */
  function Requested(s: Session, reuse: bool, clock: Clock): Session {
    var again := reuse && s.pendingRequest != 0;
    var request := if again then s.pendingRequest else s.nextRequest;
    s.(nextRequest := if again then s.nextRequest else Inc32(s.nextRequest),
       pendingRequest := request,
       server := EvenUp(s.server),
       client := OddUp(s.client),
       sent := s.sent + [Transmission(s.session, request, s.retries, clock.enter, clock.sent)])
  }

  /** bridge_send_server_keepalive */
  function SendKeepalive(b: Bridge, reuse: bool, fate: Fate, clock: Clock): (r: Bridge)
    ensures b.usb.frames <= r.usb.frames
    ensures |r.tcp.wires| == |b.tcp.wires|
    ensures r.listening == b.listening && r.wifiEnabled == b.wifiEnabled
    ensures r.s == if !b.s.attached || b.s.session == 0 then b.s
                   else
                     var s1 := Requested(b.s, reuse, clock);
                     var s2 := if Breaks(b, fate) then Closed(s1) else s1;
                     s2.(lastTx := clock.sent, pending := true, windowStarted := clock.armed, state := ClientReturn)
  {
    if !b.s.attached || b.s.session == 0 then b
    else
      var b1 := b.(s := Requested(b.s, reuse, clock));
      var text := Payload("ka_req", MetaOf(b1, b1.s.pendingRequest));
      var b2 := SendTcp(b1, KEEPALIVE, Ascii(text), fate);
      var b3 := Notify(b2, KEEPALIVE, text);
      EnterState(b3.(s := b3.s.(lastTx := clock.sent, pending := true, windowStarted := clock.armed)), ClientReturn)
  }

  /** bridge_handle_running_integer_failure */
  function Teardown(b: Bridge): (r: Bridge)
    ensures b.usb.frames <= r.usb.frames
    ensures r.s == Closed(b.s).(state := Initialize, server := 0, client := DEVICE_LIVE_START)
    ensures r.tcp == b.tcp.(sequence := 0)
    ensures r.listening == b.listening && r.wifiEnabled == b.wifiEnabled
  {
    var b1 := CloseClient(Notify(RecordError(b), ERROR, "keepalive_retry_exhausted"));
    var b2 := EnterState(b1, Initialize);
    b2.(s := b2.s.(server := 0, client := DEVICE_LIVE_START, retries := 0), tcp := b2.tcp.(sequence := 0))
  }

  /** The keepalive engine has a request to send. */
  predicate RequestDue(s: Session, now: int) {
    && s.attached && !s.pending && s.state.ServerSend?
    && (s.lastTx == 0 || now - s.lastTx >= KEEPALIVE_PERIOD_US)
  }

  /** bridge_service_keepalive_engine */
  function EngineTick(b: Bridge, env: Env): (r: Bridge)
    ensures b.usb.frames <= r.usb.frames
  {
    if RequestDue(b.s, env.clock.enter) then SendKeepalive(b, false, env.fate, env.clock) else b
  }

  predicate WindowExpired(s: Session, now: int) {
    (now - s.windowStarted) / 1000 % 0x1_0000_0000 >= WAIT_WINDOW_MS
  }

  /** bridge_service_transport_watchdog */
  function WatchdogTick(b: Bridge, env: Env): (r: Bridge)
    ensures b.usb.frames <= r.usb.frames
  {
    if !b.s.attached || !b.s.pending || b.s.lastTx <= 0 || b.s.state != ClientReturn then b
    else if b.s.windowStarted <= 0 then b.(s := b.s.(windowStarted := env.clock.enter))
    else if !WindowExpired(b.s, env.clock.enter) then b
    else
      var b1 := RecordError(b.(s := b.s.(retries := Inc32(b.s.retries))));
      if b1.s.retries >= RETRY_LIMIT then Teardown(b1)
      else SendKeepalive(EnterState(b1, ServerSend), true, env.fate, env.clock)
  }

  // ----- requests -----

  function VersionFault(b: Bridge, transport: Transport, f: Frame, fate: Fate): (r: Bridge)
    requires FieldsFit(f)
    ensures b.usb.frames <= r.usb.frames
    ensures r.s == var s1 := b.s.(state := Error); if transport.Tcp? && Breaks(b, fate) then Closed(s1) else s1
    ensures |r.tcp.wires| == |b.tcp.wires|
    ensures r.listening == b.listening && r.wifiEnabled == b.wifiEnabled
  {
    var b1 := EnterState(RecordError(b), Error);
    Notify(Reply(b1, transport, ERROR, f, "data_interface_version_mismatch", fate),
           ERROR, "critical_error_data_interface_version_mismatch")
  }

  function HandleReset(b: Bridge, transport: Transport, f: Frame, fate: Fate): (r: Bridge)
    requires FieldsFit(f)
    ensures b.usb.frames <= r.usb.frames
    ensures r.s == Closed(b.s).(state := Reset, server := 0, client := 0)
    ensures |r.tcp.wires| == |b.tcp.wires| && r.tcp.sequence == 0
  {
    var b1 := EnterState(b, Reset);
    var b2 := b1.(
      s := b1.s.(server := 0, client := 0, retries := 0, lastTx := 0, pending := false, windowStarted := 0,
                 session := 0, pendingRequest := 0, lastCompleted := 0, nextRequest := 1,
                 peerVersion := 0, peerVersionValid := false),
      tcp := b1.tcp.(sequence := 0),
      rt := Realtime(0, false));
    CloseClient(Reply(b2, transport, ACK, f, "reset_ack", fate))
  }

  /** No session, nothing pending. */
  function Idle(s: Session): Session {
    s.(retries := 0, windowStarted := 0, session := 0, pendingRequest := 0, lastCompleted := 0, nextRequest := 1)
  }

  /** The interface version an INITIALIZE request states. */
  function DataVersion(f: Frame): Option<nat> {
    Metadata.BridgeParse(PayloadText(f.payload), "data_ver")
  }

  /** The session part of an INITIALIZE request. */
  function Initialized(s: Session, version: Option<nat>): Session {
    if version != Some(INTERFACE_VERSION) then Idle(s).(state := Error)
    else Idle(s).(state := Initialize, peerVersion := INTERFACE_VERSION, peerVersionValid := true)
  }

  function HandleInitialize(b: Bridge, transport: Transport, f: Frame, fate: Fate): (r: Bridge)
    requires FieldsFit(f)
    ensures b.usb.frames <= r.usb.frames
    ensures r.s == var s1 := Initialized(b.s, DataVersion(f)); if transport.Tcp? && Breaks(b, fate) then Closed(s1) else s1
    ensures |r.tcp.wires| == |b.tcp.wires|
  {
    hide Reply, EnterState, VersionFault, DataVersion;
    var version := DataVersion(f);
    var b1 := EnterState(b, Initialize);
    var b2 := b1.(s := Idle(b1.s), rt := Realtime(0, false));
    if version != Some(INTERFACE_VERSION) then VersionFault(b2, transport, f, fate)
    else
      Reply(b2.(s := b2.s.(peerVersion := INTERFACE_VERSION, peerVersionValid := true)),
            transport, ACK, f, "initialize_ack", fate)
  }

  /** A new session, nothing sent yet. */
  function Opened(s: Session): Session {
    s.(server := 0, client := DEVICE_LIVE_START, retries := 0, lastTx := 0, pending := false, windowStarted := 0,
       session := s.nextSession, nextSession := Inc32(s.nextSession),
       pendingRequest := 0, lastCompleted := 0, nextRequest := 1)
  }

  /** The client stated the interface version this bridge speaks. */
  predicate VersionAgreed(s: Session) {
    s.peerVersionValid && s.peerVersion == INTERFACE_VERSION
  }

  function HandleConnect(b: Bridge, transport: Transport, f: Frame, fate: Fate): (r: Bridge)
    requires FieldsFit(f)
    ensures b.usb.frames <= r.usb.frames
    ensures |r.tcp.wires| == |b.tcp.wires|
    ensures var s1 := Opened(b.s);
            var broken := transport.Tcp? && Breaks(b, fate);
            var s2 := if broken then Closed(s1) else s1;
            r.s == s2.(state := if !VersionAgreed(b.s) then Error
                                else if transport.Tcp? || b.s.attached then ServerSend
                                else Connect)
  {
    hide Reply, EnterState, VersionFault, ConnectedText, Notify;
    var b1 := EnterState(b, Connect);
    var b2 := b1.(s := Opened(b1.s));
    if !VersionAgreed(b2.s) then VersionFault(b2, transport, f, fate)
    else
      var text := ConnectedText(b2.s.session);
      var b3 := Reply(b2, transport, ACK, f, text, fate);
      if transport.Tcp? || b3.s.attached then EnterState(Notify(b3, ACK, text), ServerSend) else b3
  }

  function HandleDisconnect(b: Bridge, transport: Transport, f: Frame, fate: Fate): (r: Bridge)
    requires FieldsFit(f)
    ensures b.usb.frames <= r.usb.frames
    ensures r.s == var s1 := b.s.(state := Disconnect); if transport.Tcp? then Closed(s1) else s1
    ensures |r.tcp.wires| == |b.tcp.wires|
  {
    var b1 := Reply(EnterState(b, Disconnect), transport, ACK, f, "disconnect_ack", fate);
    if transport.Tcp? then CloseClient(b1) else b1
  }

  /** What the bridge makes of a client's keepalive response. */
  datatype Verdict = Ignored(counted: bool) | WrongVersion | Accepted

  function Judge(s: Session, f: Frame): Verdict
    requires FieldsFit(f)
  {
    var text := PayloadText(f.payload);
    var session := Metadata.BridgeParse(text, "sid");
    var request := Metadata.BridgeParse(text, "req");
    var version := Metadata.BridgeParse(text, "rver");
    if session.None? || request.None? then Ignored(true)
    else if session.value != s.session then Ignored(true)
    else
      var duplicate := request.value == s.lastCompleted && s.lastCompleted != 0;
      if !s.pending || s.pendingRequest == 0 then Ignored(!duplicate)
      else if s.state != ClientReturn then Ignored(true)
      else if version != Some(INTERFACE_VERSION) then WrongVersion
      else if request.value != s.pendingRequest then Ignored(!duplicate)
      else if f.host != s.server || f.device != Inc32(s.server) || f.host % 2 != 0 || f.device % 2 == 0 then Ignored(true)
      else Accepted
  }

  /** bridge_compute_pending_keepalive_delay_ms */
  function DelayMs(s: Session, now: int): u32 {
    if s.lastTx <= 0 || now - s.lastTx <= 0 then 0 else (now - s.lastTx + 999) / 1000 % 0x1_0000_0000
  }

  function RealtimePayload(sequence: u32, samples: seq<byte>): seq<byte> {
    ToLe(INTERFACE_VERSION, 4) + ToLe(sequence, 4) + ToLe(160, 2) + samples
  }

  /** bridge_send_realtime_data_packet; streaming counts as active even if the send broke off */
  function SendRealtime(b: Bridge, env: Env): (r: Bridge)
    ensures b.usb.frames <= r.usb.frames
    ensures r.s == if b.s.state.Keepalive() && Breaks(b, env.fate) then Closed(b.s) else b.s
    ensures |r.tcp.wires| == |b.tcp.wires|
    ensures r.listening == b.listening && r.wifiEnabled == b.wifiEnabled
  {
    if !b.s.attached then b
    else if !b.s.state.Keepalive() then HaltRealtime(b, "not_in_keepalive_state")
    else
      var payload := RealtimePayload(b.rt.sequence, env.samples);
      var b1 := SendTcp(b.(rt := b.rt.(sequence := Inc32(b.rt.sequence))), DATA, payload, env.fate);
      b1.(rt := b1.rt.(active := true))
  }

  /** The pending request is answered; the counters move on. */
  function Answered(s: Session, device: u32): Session {
    s.(client := device,
       server := EvenUp(Inc32(device)),
       pending := false,
       windowStarted := 0,
       pendingRequest := 0,
       lastCompleted := s.pendingRequest,
       retries := 0,
       completed := s.completed + [Exchange(s.session, s.pendingRequest)])
  }

  function Complete(b: Bridge, f: Frame, env: Env): (r: Bridge)
    requires FieldsFit(f)
    ensures b.usb.frames <= r.usb.frames
    ensures r.s == var s1 := Answered(b.s, f.device).(state := ServerSend);
                   if Breaks(b, env.fate) then Closed(s1) else s1
    ensures |r.tcp.wires| == |b.tcp.wires|
    ensures r.listening == b.listening && r.wifiEnabled == b.wifiEnabled
  {
    var delay := DelayMs(b.s, env.clock.enter);
    var longest := if delay > b.tele.maxDelay then delay else b.tele.maxDelay;
    var b1 := b.(s := Answered(b.s, f.device), tele := b.tele.(lastDelay := ToI32(delay), maxDelay := longest));
    var b2 := EnterState(b1, ServerSend);
    SendRealtime(Notify(b2, KEEPALIVE, Payload("ka_resp", MetaOf(b2, b2.s.lastCompleted))), env)
  }

  function HandleKeepalive(b: Bridge, transport: Transport, f: Frame, env: Env): (r: Bridge)
    requires FieldsFit(f)
    ensures b.usb.frames <= r.usb.frames
    ensures |r.tcp.wires| == |b.tcp.wires|
    ensures r.s == if transport.Usb? then b.s
                   else match Judge(b.s, f)
                     case Ignored(_) => b.s
                     case WrongVersion =>
                       var s1 := b.s.(state := Error); if Breaks(b, env.fate) then Closed(s1) else s1
                     case Accepted =>
                       var s1 := Answered(b.s, f.device).(state := ServerSend);
                       if Breaks(b, env.fate) then Closed(s1) else s1
  {
    if transport.Usb? then Reply(b, transport, ACK, f, "usb_keepalive_not_supported", env.fate)
    else match Judge(b.s, f)
      case Ignored(counted) => if counted then RecordError(b) else b
      case WrongVersion => VersionFault(b, transport, f, env.fate)
      case Accepted => Complete(b, f, env)
  }

  predicate SessionActive(s: Session) {
    s.session != 0 && s.state.Keepalive()
  }

  /** bridge_wifi_disable_transport */
  function DisableWifi(b: Bridge): (r: Bridge)
    ensures b.usb.frames <= r.usb.frames
    ensures r.s == Closed(b.s).(state := Reset)
    ensures r.tcp == b.tcp.(sequence := 0)
    ensures !r.listening && !r.wifiEnabled
  {
    EnterState(CloseClient(b).(listening := false, wifiEnabled := false), Reset)
  }

  /** bridge_wifi_enable_transport: the access point may come up although the listener does not. */
  function EnableWifi(b: Bridge, wifi: WifiOutcome): (r: Bridge)
    ensures r == b.(wifiEnabled := r.wifiEnabled, listening := r.listening)
  {
    match wifi
    case SoftApFailed => b
    case ListenerFailed => b.(wifiEnabled := true)
    case WifiOk => b.(wifiEnabled := true, listening := true)
  }

  predicate EnableFails(b: Bridge, wifi: WifiOutcome) {
    wifi.SoftApFailed? || (wifi.ListenerFailed? && !b.listening)
  }

  const MAGIC_DOWNLINK: byte := 0xD0
  const MAGIC_UPLINK: byte := 0xD1

  function TelemetryReply(b: Bridge, f: Frame, text: string): (r: Bridge)
    requires FieldsFit(f)
    ensures b.usb.frames <= r.usb.frames
    ensures r == b.(usb := r.usb)
  {
    var b1 := EmitUsb(b, ACK, f.sequence, Text(text));
    Notify(b1, DATA, TelemetryText(b1.tele))
  }

  /** The texts the bridge obeys itself; any other DATA is the client's. */
  datatype Command = DisableCommand | EnableCommand | ResetTelemetry | ResetMaxDelay | NoCommand

  function CommandOf(text: string): Command {
    if text == "wifi_disable" then DisableCommand
    else if text == "wifi_enable" then EnableCommand
    else if text == "telemetry_reset" then ResetTelemetry
    else if text == "telemetry_reset_max_delay" then ResetMaxDelay
    else NoCommand
  }

  /** DATA from the host touches the session only by switching Wi-Fi off or by a send that breaks off. */
  function HandleUsbData(b: Bridge, f: Frame, env: Env): (r: Bridge)
    requires FieldsFit(f)
    ensures b.usb.frames <= r.usb.frames
    ensures |r.tcp.wires| == |b.tcp.wires|
    ensures || r.s == b.s
            || (r.s == Closed(b.s) && Breaks(b, env.fate))
            || (r.s == Closed(b.s).(state := Reset) && !r.wifiEnabled)
  {
    match CommandOf(PayloadText(f.payload))
    case DisableCommand => EmitUsb(DisableWifi(b), ACK, f.sequence, Text("wifi_disabled"))
    case EnableCommand =>
      var b1 := EnableWifi(b, env.wifi);
      if EnableFails(b, env.wifi) then EmitUsb(RecordError(b1), ERROR, f.sequence, Text("wifi_enable_failed"))
      else EmitUsb(b1, ACK, f.sequence, Text("wifi_enabled"))
    case ResetTelemetry =>
      var delay := if b.s.state.Keepalive() then b.tele.lastDelay else -1;
      TelemetryReply(b.(tele := Telemetry(delay, 0, 0)), f, "telemetry_reset_ack")
    case ResetMaxDelay =>
      TelemetryReply(b.(tele := b.tele.(maxDelay := 0)), f, "telemetry_reset_max_delay_ack")
    case NoCommand =>
      if |f.payload| == 0 then EmitUsb(b, ACK, f.sequence, Text("data_ack"))
      else if f.payload[0] != MAGIC_DOWNLINK then
        if !SessionActive(b.s) then
          EmitUsb(RecordError(b), ACK, f.sequence, Text("data_ignored_not_in_keepalive_session"))
        else if b.s.attached then
          EmitUsb(SendTcp(b, DATA, f.payload, env.fate), ACK, f.sequence, Text("data_forwarded_tcp"))
        else EmitUsb(b, ACK, f.sequence, Text("data_tcp_not_connected"))
      else if !SessionActive(b.s) || !b.s.attached then RecordError(b)
      else SendTcp(b, DATA, f.payload, env.fate)
  }

  /** DATA from the client touches the session only by a reply that breaks off. */
  function HandleTcpData(b: Bridge, f: Frame, env: Env): (r: Bridge)
    requires FieldsFit(f)
    ensures b.usb.frames <= r.usb.frames
    ensures |r.tcp.wires| == |b.tcp.wires|
    ensures r.s == b.s || (r.s == Closed(b.s) && Breaks(b, env.fate))
  {
    if |f.payload| == 0 then SendTcp(b, ACK, Ascii("data_ack"), env.fate)
    else if f.payload[0] == MAGIC_UPLINK then
      if !SessionActive(b.s) then RecordError(b) else EmitUsb(b, DATA, f.sequence, Forwarded(f.payload))
    else if !SessionActive(b.s) then
      SendTcp(RecordError(b), ACK, Ascii("data_ignored_not_in_keepalive_session"), env.fate)
    else SendTcp(EmitUsb(b, DATA, f.sequence, Forwarded(f.payload)), ACK, Ascii("data_forwarded_usb"), env.fate)
  }

  /** bridge_handle_frame */
  function HandleFrame(b: Bridge, transport: Transport, f: Frame, env: Env): (r: Bridge)
    requires FieldsFit(f)
    ensures b.usb.frames <= r.usb.frames
    ensures |r.tcp.wires| == |b.tcp.wires|
  {
    if f.kind == RESET then HandleReset(b, transport, f, env.fate)
    else if f.kind == INITIALIZE then HandleInitialize(b, transport, f, env.fate)
    else if f.kind == CONNECT then HandleConnect(b, transport, f, env.fate)
    else if f.kind == DISCONNECT then HandleDisconnect(b, transport, f, env.fate)
    else if f.kind == KEEPALIVE then HandleKeepalive(b, transport, f, env)
    else if f.kind == DATA then
      if transport.Usb? then HandleUsbData(b, f, env) else HandleTcpData(b, f, env)
    else if f.kind == ERROR then Reply(EnterState(RecordError(b), Error), transport, ACK, f, "error_ack", env.fate)
    else Reply(RecordError(b), transport, ERROR, f, "unsupported", env.fate)
  }

  // ----- the main loop, one step at a time -----

  /** A freshly accepted client: no session until it sends CONNECT. */
  function Attached(s: Session): Session {
    Idle(s).(state := Connect, attached := true, server := 0, client := DEVICE_LIVE_START, lastTx := 0, pending := false)
  }

  /** bridge_accept_tcp_client, when a client is waiting */
  function Accept(b: Bridge, fate: Fate): (r: Bridge)
    ensures b.usb.frames <= r.usb.frames
    ensures r.s == var s1 := Attached(if b.s.attached then Closed(b.s) else b.s);
                   if fate.Broken? then Closed(s1) else s1
    ensures |r.tcp.wires| == |b.tcp.wires| + 1
    ensures r.listening == b.listening && r.wifiEnabled == b.wifiEnabled
  {
    var b1 := if b.s.attached then CloseClient(b) else b;
    var joined := b1.(s := b1.s.(attached := true, lastTx := 0),
                      tcp := b1.tcp.(wires := b1.tcp.wires + [Wire([], [])]));
    var b2 := EnterState(joined, Connect);
    var b3 := b2.(s := Attached(b2.s), tcp := b2.tcp.(sequence := 0));
    Notify(SendTcp(b3, ACK, Ascii("tcp_connected"), fate), ACK, "tcp_connected")
  }

  datatype Event =
    | Accepts
    | PeerCloses
    | BadStream(parseFailed: bool)
    | TcpFrame(frame: Frame)
    | UsbFrameIn(frame: Frame)
    | Engine
    | Watchdog

  /** Frames are what the receive parser lets through. */
  predicate Parsed(f: Frame) {
    FieldsFit(f) && |f.payload| <= UsbStream.MAX_PAYLOAD
  }

  predicate GoodEvent(e: Event) {
    match e
    case TcpFrame(f) => Parsed(f)
    case UsbFrameIn(f) => Parsed(f)
    case _ => true
  }

  /**
   One step. The client side of the loop runs only while Wi-Fi is enabled. BadStream is a
   client stream the receive loop gives up on: buffer overflow, oversized payload, or parse failure.
   */
  function Step(b: Bridge, e: Event, env: Env): (r: Bridge)
    requires GoodEvent(e)
    ensures b.usb.frames <= r.usb.frames
  {
    match e
    case UsbFrameIn(f) => HandleFrame(b, Usb, f, env)
    case Accepts => if b.wifiEnabled && b.listening then Accept(b, env.fate) else b
    case PeerCloses => if b.wifiEnabled && b.s.attached then CloseClient(b) else b
    case BadStream(parseFailed) =>
      if !b.wifiEnabled || !b.s.attached then b
      else
        var b1 := RecordError(b);
        CloseClient(if parseFailed then Notify(b1, ERROR, "tcp_frame_parse_failed") else b1)
    case TcpFrame(f) => if b.wifiEnabled && b.s.attached then HandleFrame(b, Tcp, f, env) else b
    case Engine => if b.wifiEnabled then EngineTick(b, env) else b
    case Watchdog => if b.wifiEnabled then WatchdogTick(b, env) else b
  }

  /** Power-on, with the access point and the listener up. */
  function Boot(): Bridge {
    Bridge(
      Session(Reset, false, 0, 0, 0, 1, 1, 0, 0, false, 0, 0, 0, 0, false, [], []),
      Telemetry(-1, 0, 0), Realtime(0, false), TcpSide(0, []), UsbSide(0, []), true, true)
  }
}
