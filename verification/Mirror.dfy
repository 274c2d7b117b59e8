/**
 The host's mirror of the link: what each received frame and each operator action does to the
 displayed state, its flags and its counters.
 */
module Mirror {
  import opened Options
  import opened Bytes
  import opened Frames
  import opened B = Bridge
  import opened Text
  import opened HostText

  /**
   A received frame: its text in lower case and stripped of surrounding space, and the text in
   which a client's command is looked for, which is empty for a packet of the uplink stream.
   */
  datatype HostFrame = HostFrame(kind: int, host: int, device: int, sequence: int, text: string, command: string)

  datatype Link = Link(state: State, server: int, client: int, sequence: int)

  datatype Flags = Flags(
    watchdogArmed: bool,
    seeded: bool,
    wifiEnabled: bool,
    wifiReady: bool,
    wifiConnected: bool,
    tcpConnected: bool,
    bridgeReady: bool,
    initializeCompleted: bool,
    connectCompleted: bool,
    fault: bool)

  datatype Counts = Counts(
    keepaliveFailures: nat,
    topFailures: nat,
    connectStreak: nat,
    bottomRetries: nat,
    requests: nat,
    responses: nat,
    dataFrames: nat,
    sequenceErrors: nat)

  /** What the bridge's telemetry tells: last, longest and shortest delay, and the errors counted. */
  datatype Timing = Timing(last: int, longest: nat, shortest: int, timed: bool, errors: nat, reported: bool)

  /** What a client asks of the brew simulation or the display protocol; Malformed makes the host raise. */
  datatype Order =
    | Bootstrap
    | Dataset
    | Catalog
    | SelectProfile(profile: Option<nat>)
    | StartBrew(profile: Option<nat>)
    | StopBrew
    | SineOn
    | SineOff
    | NoOrder
    | Malformed

  /** A frame the host sends in answer, and whether the port takes it. */
  datatype Answer = Answer(payload: seq<byte>, ok: bool)

  /** The host: what it shows and has counted, the frames received and not looked at, and what it has sent and ordered. */
  datatype Mirror = Mirror(
    link: Link,
    flags: Flags,
    counts: Counts,
    timing: Timing,
    next: Option<State>,
    lastPeer: Option<int>,
    inbox: seq<HostFrame>,
    commands: seq<Frame>,
    orders: seq<Order>)

  const REQUEST_TAG := "ka_req"
  const RESPONSE_TAG := "ka_resp"

  predicate GoodFrame(f: HostFrame) {
    && 0 <= f.host < U32
    && 0 <= f.device < U32
    && 0 <= f.sequence < 0x1_0000
  }

  function Go(m: Mirror, state: State): Mirror {
    m.(link := m.link.(state := state))
  }

  // ----- one received frame -----

  /** What every frame does first: the peer's numbering is watched while in a keepalive state. */
  function Noted(m: Mirror, f: HostFrame): Mirror {
    var lost := m.link.state.Keepalive() && m.lastPeer.Some? && f.sequence != (m.lastPeer.value + 1) % 0x1_0000;
    m.(lastPeer := Some(f.sequence),
       counts := if lost then m.counts.(sequenceErrors := m.counts.sequenceErrors + 1) else m.counts)
  }

  function ErrorCounted(m: Mirror): Mirror {
    if m.timing.reported then m else m.(timing := m.timing.(errors := m.timing.errors + 1))
  }

  function OnError(m: Mirror, text: string): Mirror {
    if text == "keepalive_retry_exhausted" then
      Go(m, Initialize).(
        flags := m.flags.(watchdogArmed := false, seeded := false, wifiConnected := false, tcpConnected := false))
    else if StartsWith(text, "realtime_data_halted") && ReadText(Tokens(text), "reason") == Some("tcp_client_closed") then
      Go(m, Connect).(
        flags := m.flags.(watchdogArmed := false, seeded := false, tcpConnected := false, connectCompleted := false))
    else m
  }

  predicate RequestFits(f: HostFrame) {
    f.host % 2 == 0 && f.device % 2 == 1 && f.device + 1 == f.host
  }

  /** An exchange is seen going on: everything before it must have happened. */
  function Proven(m: Mirror): Mirror {
    m.(flags := m.flags.(seeded := true, watchdogArmed := true, wifiConnected := true, tcpConnected := true,
                         bridgeReady := true, initializeCompleted := true, connectCompleted := true, fault := false),
       counts := m.counts.(keepaliveFailures := 0, topFailures := 0, bottomRetries := 0))
  }

  function OnRequest(m: Mirror, f: HostFrame): Mirror {
    if !RequestFits(f) then m
    else
      var m1 := Proven(m);
      m1.(link := m.link.(state := ClientReturn, server := f.host, client := f.host + 1),
          counts := m1.counts.(requests := m1.counts.requests + 1),
          next := None)
  }

  function OnResponse(m: Mirror, f: HostFrame): Mirror {
    if !RequestFits(f) then m
    else
      var m1 := Proven(m);
      m1.(link := m.link.(state := ServerSend, server := f.host, client := f.device),
          counts := m1.counts.(responses := m1.counts.responses + 1))
  }

  /** The texts that move the mirror, as the branches find them. */
  datatype Progress =
    | ConnectAck
    | TcpConnected
    | ClientConnected
    | DisconnectAck
    | ResetAck
    | InitializeAck
    | ConnectSuccess
    | NoProgress

  function ProgressOf(text: string): Progress {
    if text == "connect_ack" then ConnectAck
    else if text == "tcp_connected" then TcpConnected
    else if StartsWith(text, "client_connected") then ClientConnected
    else if text == "disconnect_ack" then DisconnectAck
    else if text == "reset_ack" then ResetAck
    else if text == "initialize_ack" then InitializeAck
    else if text == "connect_success" then ConnectSuccess
    else NoProgress
  }

  function OnText(m: Mirror, text: string): Mirror {
    match ProgressOf(text)
    case ConnectAck =>
      Go(m, Connect).(flags := m.flags.(wifiConnected := true, tcpConnected := false, bridgeReady := true))
    case TcpConnected =>
      Go(m, Connect).(flags := m.flags.(wifiConnected := true, tcpConnected := true, bridgeReady := true))
    case ClientConnected =>
      Go(m, Connect).(
        flags := m.flags.(connectCompleted := true, watchdogArmed := false, wifiConnected := true, tcpConnected := true,
                          bridgeReady := true),
        next := None)
    case DisconnectAck =>
      Go(m, Disconnect).(flags := m.flags.(tcpConnected := false, watchdogArmed := false))
    case ResetAck =>
      var m1 := ClearFlow(m);
      Go(m1, Reset).(
        flags := m1.flags.(wifiReady := false, wifiConnected := false, tcpConnected := false, bridgeReady := true))
    case InitializeAck =>
      Go(m, Initialize).(
        flags := m.flags.(wifiReady := true, wifiConnected := false, tcpConnected := false, bridgeReady := true,
                          initializeCompleted := true))
    case ConnectSuccess =>
      if m.link.state.Connect? then
        m.(flags := m.flags.(connectCompleted := true, watchdogArmed := false, wifiConnected := true, tcpConnected := true,
                             bridgeReady := true),
           next := None)
      else m
    case NoProgress => m
  }

  // ----- telemetry -----

  function WithDelay(t: Timing, delay: int): Timing {
    var t1 := t.(last := delay);
    if delay < 0 then t1
    else t1.(shortest := if !t.timed || delay < t.shortest then delay else t.shortest, timed := true)
  }

  /** What the telemetry fields of a text tell. */
  function Learned(t: Timing, text: string): Timing {
    var last := FieldI32(text, "td_last_ms");
    var longest := FieldU32(text, "td_max_ms");
    var errors := FieldU32(text, "terr");
    var t1 := if last.Some? then WithDelay(t, last.value) else t;
    var t2 := if longest.Found? then t1.(longest := longest.n) else t1;
    if errors.Found? then t2.(errors := errors.n, reported := true) else t2
  }

  predicate TelemetryFails(text: string) {
    FieldU32(text, "td_max_ms").Raises? || FieldU32(text, "terr").Raises?
  }

  /** Session and request of a keepalive frame are looked up for the log. */
  predicate LogFails(f: HostFrame) {
    f.kind == KEEPALIVE && (FieldU32(f.text, "sid").Raises? || FieldU32(f.text, "req").Raises?)
  }

  // ----- commands of the client -----

  function Known(r: Reading): Option<nat> {
    if r.Found? then Some(r.n) else None
  }

  /** The value of the first of two keys that has one; raising on either. */
  function Either(text: string, key: string, other: string): Reading {
    if FieldU32(text, key).Missing? then FieldU32(text, other) else FieldU32(text, key)
  }

  function SelectionOf(command: string): Order {
    var profile := Either(command, "profile", "id");
    if profile.Raises? || FieldU32(command, "offline").Raises? then Malformed else SelectProfile(Known(profile))
  }

  function StartOf(command: string): Order {
    var profile := FieldU32(command, "profile");
    if profile.Raises? || Either(command, "packet_interval_ms", "int_ms").Raises? then Malformed
    else StartBrew(Known(profile))
  }

  /** _handle_client_data_command_locked, the display protocol's commands first */
  function OrderOf(command: string): Order {
    if StartsWith(command, "lcdprotoinit") then Bootstrap
    else if StartsWith(command, "lcdprotoprofiledatasetget") then Dataset
    else if StartsWith(command, "lcdprotoprofilecatalogget") then Catalog
    else if StartsWith(command, "profileselection") then SelectionOf(command)
    else if StartsWith(command, "startbrew") then StartOf(command)
    else if StartsWith(command, "stopbrew") then StopBrew
    else if StartsWith(command, "datasimulationon") then SineOn
    else if StartsWith(command, "datasimulationoff") then SineOff
    else NoOrder
  }

  /** What the host sends in answer to an order; the display protocol's payloads are given. */
  function AnswersTo(order: Order, given: seq<Answer>): seq<Answer> {
    var ok := given != [] && given[0].ok;
    match order
    case Bootstrap | Dataset | Catalog => given
    case StartBrew(_) => [Answer(Ascii("StartBrew"), ok)]
    case StopBrew => [Answer(Ascii("StopBrew"), ok)]
    case _ => []
  }

  function SendAll(m: Mirror, answers: seq<Answer>): Mirror
    decreases |answers|
  {
    if answers == [] then m else SendAll(SendCommand(m, DATA, answers[0].payload, answers[0].ok), answers[1..])
  }

  function Obey(m: Mirror, order: Order, given: seq<Answer>): Mirror {
    if order.NoOrder? || order.Malformed? then m
    else SendAll(m.(orders := m.orders + [order]), AnswersTo(order, given))
  }

  // ----- reading what was received -----

  /** A frame of known telemetry, by its type and text. */
  function Receive(m: Mirror, f: HostFrame, given: seq<Answer>): Mirror {
    var m1 := Noted(m, f);
    if f.kind == ERROR then OnError(ErrorCounted(m1), f.text)
    else if f.kind == DATA then
      Obey(m1.(counts := m1.counts.(dataFrames := m1.counts.dataFrames + 1)), OrderOf(f.command), given)
    else if f.kind == KEEPALIVE && StartsWith(f.text, REQUEST_TAG) then OnRequest(m1, f)
    else if f.kind == KEEPALIVE && StartsWith(f.text, RESPONSE_TAG) then OnResponse(m1, f)
    else OnText(m1, f.text)
  }

  /** Handling the frame raises an exception, sooner or later. */
  predicate Fails(f: HostFrame) {
    TelemetryFails(f.text) || LogFails(f) || (f.kind == DATA && OrderOf(f.command).Malformed?)
  }

  /** The body of the loop in _poll_received_frames_locked, as far as it gets. */
  function Take(m: Mirror, f: HostFrame, given: seq<Answer>): Mirror {
    if TelemetryFails(f.text) then m
    else
      var m1 := m.(timing := Learned(m.timing, f.text));
      if LogFails(f) then m1 else Receive(m1, f, given)
  }

  datatype Polled = Polled(mirror: Mirror, raised: bool)

  function AnswersFrom(given: seq<seq<Answer>>, k: nat): seq<Answer> {
    if k < |given| then given[k] else []
  }

  /** The loop over the frames: an exception ends it, and the frames behind are lost. */
  function Poll(m: Mirror, frames: seq<HostFrame>, given: seq<seq<Answer>>): Polled
    decreases |frames|
  {
    if frames == [] then Polled(m, false)
    else
      var m1 := Take(m, frames[0], AnswersFrom(given, 0));
      if Fails(frames[0]) then Polled(m1, true) else Poll(m1, frames[1..], if given == [] then [] else given[1..])
  }

  /** _poll_received_frames_locked */
  function PollInbox(m: Mirror, given: seq<seq<Answer>>): Polled {
    Poll(m.(inbox := []), m.inbox, given)
  }

  // ----- the locked actions -----

  /** _clear_runtime_flow_locked */
  function ClearFlow(m: Mirror): Mirror {
    m.(flags := m.flags.(watchdogArmed := false, initializeCompleted := false, connectCompleted := false, seeded := false),
       counts := m.counts.(connectStreak := 0),
       next := None,
       lastPeer := None)
  }

  /** _set_runtime_fault_locked */
  function Fault(m: Mirror): Mirror {
    var m1 := ClearFlow(ErrorCounted(m));
    Go(m1, Error).(flags := m1.flags.(tcpConnected := false, wifiConnected := false, fault := true))
  }

  function Sequenced(m: Mirror): Mirror {
    m.(link := m.link.(sequence := (m.link.sequence + 1) % 0x1_0000))
  }

  /** _send_command_locked: the number is used up even when the port refuses the frame. */
  function SendCommand(m: Mirror, kind: int, payload: seq<byte>, ok: bool): Mirror {
    var m1 := Sequenced(m);
    if !ok then m1
    else m1.(commands := m1.commands + [Frame(kind, m.link.server, m.link.client, m1.link.sequence, payload)])
  }

  /** _try_send_command_locked */
  function TrySendCommand(m: Mirror, kind: int, payload: seq<byte>, ok: bool): Mirror {
    var m1 := SendCommand(m, kind, payload, ok);
    if ok then m1 else Fault(m1)
  }

  /** The serial port and the configuration as an action finds them, and the answers to the frames it reads. */
  datatype Outside = Outside(portOpen: bool, configured: bool, sendOk: bool, answers: seq<seq<Answer>>)

  /** _begin_initialize_locked */
  function BeginInitialize(m: Mirror, config: seq<byte>, o: Outside): Mirror {
    if !o.configured || !m.flags.wifiEnabled || !o.portOpen then Fault(m)
    else
      var m1 := Go(m, Initialize).(
        flags := m.flags.(wifiReady := true, wifiConnected := false, tcpConnected := false, bridgeReady := true));
      var m2 := TrySendCommand(m1, INITIALIZE, config, o.sendOk);
      if o.sendOk then m2.(next := Some(Connect)) else m2
  }

  /** _begin_connect_locked */
  function BeginConnect(m: Mirror): Mirror {
    if !m.flags.wifiReady then Fault(m)
    else
      Go(m, Connect).(
        flags := m.flags.(initializeCompleted := true, wifiConnected := false, tcpConnected := false),
        next := None)
  }

  /** _advance_automatic_flow_locked */
  function Advance(m: Mirror, config: seq<byte>, o: Outside): Mirror {
    if m.link.state.Reset? && m.next == Some(Initialize) then BeginInitialize(m, config, o)
    else if m.link.state.Initialize? && m.next == Some(Connect) then BeginConnect(m)
    else m
  }

  function CheckPort(m: Mirror, o: Outside): Mirror {
    if m.link.state.Reset? || m.link.state.Error? || m.link.state.Disconnect? || o.portOpen then m else Fault(m)
  }

  function ClearFault(m: Mirror): Mirror {
    m.(flags := m.flags.(fault := false), counts := m.counts.(keepaliveFailures := 0, topFailures := 0))
  }

  /** What reset, force release and the Wi-Fi switch share. */
  function BackToReset(m: Mirror, bridgeReady: bool): Mirror {
    var m1 := ClearFault(ClearFlow(m));
    Go(m1, Reset).(
      flags := m1.flags.(wifiReady := false, wifiConnected := false, tcpConnected := false, bridgeReady := bridgeReady),
      counts := m1.counts.(bottomRetries := 0))
  }

  /** The public actions; and a frame decoded by the reader of the port. */
  datatype Action =
    | Arrival(frame: HostFrame)
    | Snapshot
    | ResetLink
    | InitializeLink
    | KeepaliveCommand
    | SendData(payload: seq<byte>)
    | Command(payload: seq<byte>)
    | Downlink(payload: seq<byte>)
    | ResetErrors
    | ResetMaxDelay
    | OpenFails
    | OpenSucceeds
    | CloseTransport
    | ForceRelease
    | ToggleWifi
    | InternalFailure

  function ResetLinkNow(m: Mirror, o: Outside): Mirror {
    var m1 := BackToReset(m.(link := m.link.(server := 0, client := 0), inbox := []), false);
    var m2 := m1.(counts := m1.counts.(requests := 0, responses := 0, dataFrames := 0),
                  timing := m1.timing.(shortest := 0, timed := false));
    var m3 := TrySendCommand(m2, RESET, Ascii("reset"), o.sendOk);
    if o.sendOk then m3.(next := Some(Initialize)) else m3
  }

  function SendDataNow(m: Mirror, payload: seq<byte>, o: Outside): Mirror {
    if !m.link.state.Keepalive() then m
    else
      var m1 := m.(flags := m.flags.(initializeCompleted := true, connectCompleted := true));
      TrySendCommand(m1, DATA, payload, o.sendOk)
  }

  function ToggleWifiNow(m: Mirror, o: Outside): Mirror {
    var enabled := !m.flags.wifiEnabled;
    var m1 := m.(flags := m.flags.(wifiEnabled := enabled));
    BackToReset(Told(m1, if enabled then "wifi_enable" else "wifi_disable", o), o.portOpen)
  }

  function InitializeNow(m: Mirror, config: seq<byte>, o: Outside): Mirror {
    if m.link.state.Error? then m else BeginInitialize(ClearFlow(m), config, o)
  }

  /** An action that reads what was received and then goes on; an exception on the way faults the link. */
  function Polling(m: Mirror, a: Action, config: seq<byte>, o: Outside): Mirror
    requires a.Snapshot? || a.InitializeLink? || a.KeepaliveCommand? || a.SendData?
  {
    var p := PollInbox(m, o.answers);
    if p.raised then Fault(p.mirror)
    else
      match a
      case Snapshot => Advance(CheckPort(p.mirror, o), config, o)
      case InitializeLink => InitializeNow(p.mirror, config, o)
      case KeepaliveCommand => p.mirror
      case SendData(payload) => SendDataNow(p.mirror, payload, o)
  }

  /** A command to the bridge, if the port is open. */
  function Told(m: Mirror, text: string, o: Outside): Mirror {
    if o.portOpen then SendCommand(m, DATA, Ascii(text), o.sendOk) else m
  }

  /** close_transport */
  function Shut(m: Mirror): Mirror {
    var m1 := ClearFlow(m);
    Go(m1, Reset).(
      flags := m1.flags.(wifiReady := false, wifiConnected := false, tcpConnected := false, bridgeReady := false))
  }

  function Act(m: Mirror, a: Action, config: seq<byte>, o: Outside): Mirror {
    match a
    case Arrival(f) => m.(inbox := m.inbox + [f])
    case Snapshot | InitializeLink | KeepaliveCommand | SendData(_) => Polling(m, a, config, o)
    case ResetLink => ResetLinkNow(m, o)
    case Command(payload) => SendCommand(m, DATA, payload, o.sendOk)
    case Downlink(payload) => if m.link.state.Keepalive() then SendCommand(m, DATA, payload, o.sendOk) else m
    case ResetErrors => var m1 := Told(m, "telemetry_reset", o); m1.(timing := m1.timing.(errors := 0))
    case ResetMaxDelay => var m1 := Told(m, "telemetry_reset_max_delay", o); m1.(timing := m1.timing.(longest := 0))
    case OpenFails => var m1 := Fault(m); m1.(flags := m1.flags.(bridgeReady := false))
    case OpenSucceeds => ResetLinkNow(m.(flags := m.flags.(bridgeReady := true)), o)
    case CloseTransport => Shut(m)
    case ForceRelease => BackToReset(m, false)
    case ToggleWifi => ToggleWifiNow(m, o)
    case InternalFailure => Fault(m)
  }

  function Start(): Mirror {
    Mirror(Link(Reset, 0, 0, 0),
           Flags(false, false, true, false, false, false, false, false, false, false),
           Counts(0, 0, 0, 0, 0, 0, 0, 0), Timing(0, 0, 0, false, 0, false), None, None, [], [], [])
  }

  // ----- what every action keeps -----

  /** A keepalive state is displayed only with everything it stands on in place. */
  ghost predicate Founded(m: Mirror) {
    m.link.state.Keepalive() ==>
      && m.flags.watchdogArmed && m.flags.seeded
      && m.flags.wifiConnected && m.flags.tcpConnected && m.flags.bridgeReady
      && m.flags.initializeCompleted && m.flags.connectCompleted
      && !m.flags.fault
      && m.counts.keepaliveFailures == 0 && m.counts.topFailures == 0 && m.counts.bottomRetries == 0
  }

  /** The counters displayed in a keepalive state belong together. */
  ghost predicate Counted(m: Mirror) {
    && (m.link.state.ClientReturn? ==> m.link.server % 2 == 0 && m.link.client == m.link.server + 1)
    && (m.link.state.ServerSend? ==> m.link.client % 2 == 1 && m.link.server == m.link.client + 1)
  }

  /** Whatever is sent next, and everything sent so far, fits the frame's fields. */
  ghost predicate Encodable(m: Mirror) {
    && 0 <= m.link.server < U32
    && 0 <= m.link.client < U32
    && 0 <= m.link.sequence < 0x1_0000
    && forall k :: 0 <= k < |m.commands| ==> FieldsFit(m.commands[k]) && KnownKind(m.commands[k].kind)
  }

  predicate GoodFrames(frames: seq<HostFrame>) {
    forall k :: 0 <= k < |frames| ==> GoodFrame(frames[k])
  }

  ghost predicate MirrorInv(m: Mirror) {
    && Founded(m) && Counted(m) && Encodable(m) && GoodFrames(m.inbox)
    && (m.link.state.Error? ==> m.flags.fault)
    && (m.flags.tcpConnected ==> m.flags.wifiConnected)
  }

  lemma TextInv(m: Mirror, text: string)
    requires MirrorInv(m)
    ensures MirrorInv(OnText(m, text)) && OnText(m, text).inbox == m.inbox
  {
    hide ProgressOf;
    match ProgressOf(text)
    case ConnectAck =>
    case TcpConnected =>
    case ClientConnected =>
    case DisconnectAck =>
    case ResetAck =>
    case InitializeAck =>
    case ConnectSuccess =>
    case NoProgress =>
  }

  lemma ErrorInv(m: Mirror, text: string)
    requires MirrorInv(m)
    ensures MirrorInv(OnError(m, text)) && OnError(m, text).inbox == m.inbox
  {
    hide StartsWith, ReadText, Tokens;
  }

  lemma ExchangeInv(m: Mirror, f: HostFrame)
    requires MirrorInv(m) && GoodFrame(f)
    ensures MirrorInv(OnRequest(m, f)) && OnRequest(m, f).inbox == m.inbox
    ensures MirrorInv(OnResponse(m, f)) && OnResponse(m, f).inbox == m.inbox
  {
  }

  lemma {:induction false} SendAllInv(m: Mirror, answers: seq<Answer>)
    requires MirrorInv(m)
    ensures MirrorInv(SendAll(m, answers)) && SendAll(m, answers).inbox == m.inbox
    decreases |answers|
  {
    hide MirrorInv;
    if answers != [] {
      SendInv(m, DATA, answers[0].payload, answers[0].ok);
      SendAllInv(SendCommand(m, DATA, answers[0].payload, answers[0].ok), answers[1..]);
    }
  }

  lemma ObeyInv(m: Mirror, order: Order, given: seq<Answer>)
    requires MirrorInv(m)
    ensures MirrorInv(Obey(m, order, given)) && Obey(m, order, given).inbox == m.inbox
  {
    hide AnswersTo, SendAll;
    var m1 := m.(orders := m.orders + [order]);
    assert MirrorInv(m1);
    SendAllInv(m1, AnswersTo(order, given));
  }

  lemma ReceiveInv(m: Mirror, f: HostFrame, given: seq<Answer>)
    requires MirrorInv(m) && GoodFrame(f)
    ensures MirrorInv(Receive(m, f, given)) && Receive(m, f, given).inbox == m.inbox
  {
    hide StartsWith, OnText, OnError, OnRequest, OnResponse, OrderOf, Obey;
    var m1 := Noted(m, f);
    TextInv(m1, f.text);
    ErrorInv(ErrorCounted(m1), f.text);
    ExchangeInv(m1, f);
    ObeyInv(m1.(counts := m1.counts.(dataFrames := m1.counts.dataFrames + 1)), OrderOf(f.command), given);
  }

  lemma TakeInv(m: Mirror, f: HostFrame, given: seq<Answer>)
    requires MirrorInv(m) && GoodFrame(f)
    ensures MirrorInv(Take(m, f, given)) && Take(m, f, given).inbox == m.inbox
  {
    hide Learned, TelemetryFails, LogFails, Receive, GoodFrame;
    var m1 := m.(timing := Learned(m.timing, f.text));
    assert MirrorInv(m1);
    ReceiveInv(m1, f, given);
  }

  lemma {:induction false} PollInv(m: Mirror, frames: seq<HostFrame>, given: seq<seq<Answer>>)
    requires MirrorInv(m) && GoodFrames(frames)
    ensures MirrorInv(Poll(m, frames, given).mirror) && Poll(m, frames, given).mirror.inbox == m.inbox
    decreases |frames|
  {
    hide MirrorInv, Take, Fails, GoodFrame;
    if frames != [] {
      TakeInv(m, frames[0], AnswersFrom(given, 0));
      PollInv(Take(m, frames[0], AnswersFrom(given, 0)), frames[1..], if given == [] then [] else given[1..]);
    }
  }

  lemma PollInboxInv(m: Mirror, given: seq<seq<Answer>>)
    requires MirrorInv(m)
    ensures MirrorInv(PollInbox(m, given).mirror)
  {
    hide Poll;
    PollInv(m.(inbox := []), m.inbox, given);
  }

  predicate GoodAction(a: Action) {
    a.Arrival? ==> GoodFrame(a.frame)
  }

  lemma SendInv(m: Mirror, kind: int, payload: seq<byte>, ok: bool)
    requires MirrorInv(m) && KnownKind(kind)
    ensures MirrorInv(SendCommand(m, kind, payload, ok)) && MirrorInv(TrySendCommand(m, kind, payload, ok))
  {
  }

  lemma BeginInv(m: Mirror, config: seq<byte>, o: Outside)
    requires Encodable(m) && GoodFrames(m.inbox) && (m.link.state.Error? ==> m.flags.fault)
    ensures MirrorInv(BeginInitialize(m, config, o))
  {
    hide SendCommand, TrySendCommand;
    if o.configured && m.flags.wifiEnabled && o.portOpen {
      var m1 := Go(m, Initialize).(
        flags := m.flags.(wifiReady := true, wifiConnected := false, tcpConnected := false, bridgeReady := true));
      SendInv(m1, INITIALIZE, config, o.sendOk);
    }
  }

  lemma AdvanceInv(m: Mirror, config: seq<byte>, o: Outside)
    requires MirrorInv(m)
    ensures MirrorInv(Advance(CheckPort(m, o), config, o))
  {
    hide BeginInitialize;
    BeginInv(CheckPort(m, o), config, o);
  }

  lemma ResetInv(m: Mirror, o: Outside)
    requires Encodable(m)
    ensures MirrorInv(ResetLinkNow(m, o))
  {
    hide SendCommand, TrySendCommand, Ascii;
    var m1 := BackToReset(m.(link := m.link.(server := 0, client := 0), inbox := []), false);
    var m2 := m1.(counts := m1.counts.(requests := 0, responses := 0, dataFrames := 0),
                  timing := m1.timing.(shortest := 0, timed := false));
    SendInv(m2, RESET, Ascii("reset"), o.sendOk);
  }

  lemma SendDataInv(m: Mirror, payload: seq<byte>, o: Outside)
    requires MirrorInv(m)
    ensures MirrorInv(SendDataNow(m, payload, o))
  {
    hide SendCommand, TrySendCommand;
    SendInv(m.(flags := m.flags.(initializeCompleted := true, connectCompleted := true)), DATA, payload, o.sendOk);
  }

  lemma ToggleInv(m: Mirror, o: Outside)
    requires MirrorInv(m)
    ensures MirrorInv(ToggleWifiNow(m, o))
  {
    hide Told;
    var enabled := !m.flags.wifiEnabled;
    ToldInv(m.(flags := m.flags.(wifiEnabled := enabled)), if enabled then "wifi_enable" else "wifi_disable", o);
  }

  lemma ToldInv(m: Mirror, text: string, o: Outside)
    requires MirrorInv(m)
    ensures MirrorInv(Told(m, text, o))
  {
    hide SendCommand, Ascii;
    SendInv(m, DATA, Ascii(text), o.sendOk);
  }

  lemma PollingInv(m: Mirror, a: Action, config: seq<byte>, o: Outside)
    requires a.Snapshot? || a.InitializeLink? || a.KeepaliveCommand? || a.SendData?
    requires MirrorInv(m)
    ensures MirrorInv(Polling(m, a, config, o))
  {
    PollInboxInv(m, o.answers);
    var p := PollInbox(m, o.answers);
    hide PollInbox, Advance, CheckPort, BeginInitialize, SendDataNow;
    if !p.raised {
      match a
      case Snapshot => AdvanceInv(p.mirror, config, o);
      case InitializeLink => BeginInv(ClearFlow(p.mirror), config, o);
      case KeepaliveCommand =>
      case SendData(payload) => SendDataInv(p.mirror, payload, o);
    }
  }

  lemma FaultInv(m: Mirror)
    requires MirrorInv(m)
    ensures MirrorInv(Fault(m)) && MirrorInv(Fault(m).(flags := Fault(m).flags.(bridgeReady := false)))
  {
  }

  lemma BackInv(m: Mirror)
    requires MirrorInv(m)
    ensures MirrorInv(BackToReset(m, false)) && MirrorInv(Shut(m))
  {
  }

  /** What else the invariant does not depend on. */
  lemma BesideInv(m: Mirror, f: HostFrame, t: Timing)
    requires MirrorInv(m)
    ensures GoodFrame(f) ==> MirrorInv(m.(inbox := m.inbox + [f]))
    ensures MirrorInv(m.(timing := t))
    ensures Encodable(m) && Encodable(m.(flags := m.flags.(bridgeReady := true)))
  {
    hide GoodFrame;
  }

  /** Every action, whatever frames came in before, keeps the mirror's invariant. */
  lemma ActInv(m: Mirror, a: Action, config: seq<byte>, o: Outside)
    requires MirrorInv(m) && GoodAction(a)
    ensures MirrorInv(Act(m, a, config, o))
  {
    hide Polling, ResetLinkNow, ToggleWifiNow, SendCommand, Told, MirrorInv, Encodable, GoodFrame, Fault, BackToReset,
         Shut;
    var f := if a.Arrival? then a.frame else HostFrame(0, 0, 0, 0, "", "");
    BesideInv(m, f, m.timing);
    FaultInv(m);
    BackInv(m);
    match a
    case Arrival(_) =>
    case Snapshot | InitializeLink | KeepaliveCommand | SendData(_) => PollingInv(m, a, config, o);
    case Command(payload) => SendInv(m, DATA, payload, o.sendOk);
    case Downlink(payload) => SendInv(m, DATA, payload, o.sendOk);
    case ResetLink => ResetInv(m, o);
    case ResetErrors =>
      var m1 := Told(m, "telemetry_reset", o);
      ToldInv(m, "telemetry_reset", o);
      BesideInv(m1, f, m1.timing.(errors := 0));
    case ResetMaxDelay =>
      var m1 := Told(m, "telemetry_reset_max_delay", o);
      ToldInv(m, "telemetry_reset_max_delay", o);
      BesideInv(m1, f, m1.timing.(longest := 0));
    case OpenSucceeds => ResetInv(m.(flags := m.flags.(bridgeReady := true)), o);
    case ToggleWifi => ToggleInv(m, o);
    case OpenFails =>
    case CloseTransport =>
    case ForceRelease =>
    case InternalFailure =>
  }

  datatype Turn = Turn(action: Action, config: seq<byte>, outside: Outside)

  function Play(m: Mirror, turns: seq<Turn>): Mirror {
    if turns == [] then m
    else
      var last := turns[|turns| - 1];
      Act(Play(m, turns[..|turns| - 1]), last.action, last.config, last.outside)
  }

  /**
   After any sequence of actions and received frames: a keepalive state is shown only with all
   its flags set, no fault and no failures counted; its counters belong together; and every
   command sent fits the encoder's field widths.
   */
  lemma {:induction false} EveryPlayKeeps(turns: seq<Turn>)
    requires forall k :: 0 <= k < |turns| ==> GoodAction(turns[k].action)
    ensures MirrorInv(Play(Start(), turns))
  {
    hide Act, MirrorInv;
    if turns == [] {
      assert MirrorInv(Start()) by { StartInv(); }
    } else {
      var last := turns[|turns| - 1];
      EveryPlayKeeps(turns[..|turns| - 1]);
      ActInv(Play(Start(), turns[..|turns| - 1]), last.action, last.config, last.outside);
    }
  }

  lemma StartInv()
    ensures MirrorInv(Start())
  {
  }
}
