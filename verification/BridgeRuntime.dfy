/**
 The bridge firmware: its global variables, grouped, and the routines that change them, each
 tied to its function in Bridge.
 */
module BridgeRuntime {
  import opened Options
  import opened Bytes
  import opened Frames
  import opened KeepaliveText
  import opened B = Bridge
  import BridgeInvariant
  import BridgeRuns
  import BridgeWires
  import Metadata
  import Text

  lemma RequestedKeeps(s: Session, reuse: bool, clock: Clock)
    ensures Requested(s, reuse, clock).attached == s.attached
  {
  }

  class Firmware {
    var s: Session
    var tele: Telemetry
    var rt: Realtime
    var tcpSequence: u16
    var wires: seq<Wire>
    var usbSequence: u16
    var usbOut: seq<UsbFrame>
    var listening: bool
    var wifiEnabled: bool

    ghost function Snap(): (b: B.Bridge)
      reads this
    {
      B.Bridge(s, tele, rt, TcpSide(tcpSequence, wires), UsbSide(usbSequence, usbOut), listening, wifiEnabled)
    }

    constructor ()
      ensures Snap() == Boot()
    {
      s := B.Session(Reset, false, 0, 0, 0, 1, 1, 0, 0, false, 0, 0, 0, 0, false, [], []);
      tele, rt := Telemetry(-1, 0, 0), Realtime(0, false);
      tcpSequence, wires, usbSequence, usbOut := 0, [], 0, [];
      listening, wifiEnabled := true, true;
    }

    method RecordError()
      modifies this`tele
      ensures Snap() == B.RecordError(old(Snap()))
    {
      tele := tele.(errors := Inc32(tele.errors));
    }

    /** An open connection has its record. */
    ghost predicate Wired()
      reads this
    {
      s.attached ==> |wires| > 0
    }

    // ----- output to the host -----

    method WriteUsb(kind: byte, sequence: u16, payload: UsbPayload)
      modifies this`usbOut
      ensures Snap() == EmitUsb(old(Snap()), kind, sequence, payload)
    {
      usbOut := usbOut + [UsbFrame(kind, s.server, s.client, sequence, payload)];
    }

    method SendUnsolicitedUsbFrame(kind: byte, text: string)
      modifies this`usbOut, this`usbSequence
      ensures Snap() == Notify(old(Snap()), kind, text)
    {
      var sequence := usbSequence;
      usbSequence := Inc16(usbSequence);
      WriteUsb(kind, sequence, UsbPayload.Text(text));
    }

    method NotifyRealtimeDataHalted(reason: string)
      modifies this`usbOut, this`usbSequence
      ensures Snap() == Notify(old(Snap()), ERROR, HaltedText(reason, old(s.session)))
    {
      SendUnsolicitedUsbFrame(ERROR, HaltedText(reason, s.session));
    }

    /** What every place that may stop the realtime stream does. */
    method HaltRealtimeStream(reason: string)
      modifies this`usbOut, this`usbSequence, this`rt
      ensures Snap() == HaltRealtime(old(Snap()), reason)
    {
      hide Notify, HaltedText;
      if rt.active {
        NotifyRealtimeDataHalted(reason);
        rt := rt.(active := false);
      }
    }

    method SendTelemetryUpdateUsb()
      modifies this`usbOut, this`usbSequence
      ensures Snap() == Notify(old(Snap()), DATA, TelemetryText(old(tele)))
    {
      SendUnsolicitedUsbFrame(DATA, TelemetryText(tele));
    }

    // ----- the client connection -----

    method CloseTcpClient()
      modifies this
      ensures Snap() == CloseClient(old(Snap()))
    {
      hide HaltRealtime;
      s := s.(attached := false, lastTx := 0, pending := false, windowStarted := 0);
      tcpSequence := 0;
      s := s.(retries := 0, session := 0, pendingRequest := 0, lastCompleted := 0, nextRequest := 1,
              peerVersion := 0, peerVersionValid := false);
      HaltRealtimeStream("tcp_client_closed");
    }

    /**
     The socket takes the frame in pieces of any size, interrupted any number of times, up to the
     point where the connection fails.
     */
    method SendTcpAll(f: Frame, fate: Fate) returns (ok: bool)
      requires FieldsFit(f) && s.attached && |wires| > 0
      modifies this
      ensures ok <==> fate.Sent?
      ensures var logged := old(Snap()).(tcp := TcpSide(old(tcpSequence), OnWire(old(wires), f, fate)));
              Snap() == if ok then logged else CloseClient(B.RecordError(logged))
    {
      hide CloseClient, Encode;
      var frame := Encode(f);
      var limit := match fate case Sent => |frame| case Broken(cut) => if cut < |frame| then cut else |frame| - 1;
      var total := 0;
      var interrupts: nat := *;
      ghost var before := Snap();
      var last := |wires| - 1;
      var wire := wires[last];
      assert wire.tail + frame[..0] == wire.tail;
      while total < limit
        invariant 0 <= total <= limit
        invariant Snap() == before.(tcp := TcpSide(tcpSequence, wires)) && tcpSequence == before.tcp.sequence
        invariant wires == before.tcp.wires[last := wire.(tail := wire.tail + frame[..total])]
        decreases limit - total, interrupts
      {
        var interrupted: bool := *;
        if interrupted && interrupts > 0 {
          interrupts := interrupts - 1;
          continue;
        }
        var sent :| 0 < sent <= limit - total;
        var tail := wires[last].tail + frame[total..total + sent];
        assert tail == wire.tail + frame[..total + sent];
        wires := wires[last := wires[last].(tail := tail)];
        total := total + sent;
      }
      if fate.Sent? {
        // the whole frame is on the wire: it counts as one more frame, not as loose bytes
        assert frame[..total] == frame;
        assert wires[last].tail == wire.tail + Encode(f);
        wires := wires[last := wire.(frames := wire.frames + [f])];
        ok := true;
      } else {
        RecordError();
        CloseTcpClient();
        ok := false;
      }
    }
  
    /** bridge_send_frame_binary to the client */
    method SendTcpFrame(kind: int, payload: seq<byte>, fate: Fate)
      requires Wired() && 0 <= kind < 0x100
      modifies this
      ensures Wired() && Snap() == SendTcp(old(Snap()), kind, payload, fate)
    {
      hide CloseClient, OnWire;
      var f := Frame(kind, s.server, s.client, tcpSequence, payload);
      tcpSequence := Inc16(tcpSequence);
      if s.attached {
        var ok := SendTcpAll(f, fate);
      }
    }

    method SendFrame(transport: Transport, kind: int, request: Frame, text: string, fate: Fate)
      requires Wired() && 0 <= kind < 0x100 && FieldsFit(request)
      modifies this
      ensures Wired() && Snap() == Reply(old(Snap()), transport, kind, request, text, fate)
    {
      hide SendTcp, Ascii;
      match transport
      case Usb => WriteUsb(kind, request.sequence, UsbPayload.Text(text));
      case Tcp => SendTcpFrame(kind, Ascii(text), fate);
    }

    /** The first part of bridge_enter_state, up to the telemetry sent on a change. */
    method ChangeState(next: State)
      modifies this
      ensures Snap() == ShowState(LeaveKeepalive(old(Snap()), next), next)
    {
      hide Notify, HaltRealtime;
      var changed := s.state != next;
      if changed && s.state.Keepalive() && !next.Keepalive() {
        HaltRealtimeStream("not_in_keepalive_state");
      }
      s := s.(state := next);
      if !next.Keepalive() {
        tele := tele.(lastDelay := -1);
      }
      if changed {
        SendTelemetryUpdateUsb();
      }
    }

    method EnterState(next: State)
      modifies this
      ensures Snap() == B.EnterState(old(Snap()), next)
    {
      hide LeaveKeepalive, ShowState;
      ChangeState(next);
      if next.Reset? {
        s := s.(retries := 0, windowStarted := 0, session := 0, pendingRequest := 0, lastCompleted := 0, nextRequest := 1);
        rt := Realtime(0, false);
      }
    }

    // ----- keepalive requests -----

    /** The request id and counters of the next request, and its entry in the record. */
    method PrepareRequest(reuse: bool, clock: Clock)
      modifies this`s
      ensures s == Requested(old(s), reuse, clock)
    {
      var request := s.pendingRequest;
      if !reuse || s.pendingRequest == 0 {
        request := s.nextRequest;
        s := s.(nextRequest := Inc32(s.nextRequest), pendingRequest := request);
      }
      if s.server % 2 != 0 {
        s := s.(server := Inc32(s.server));
      }
      if s.client % 2 == 0 {
        s := s.(client := Inc32(s.client));
      }
      s := s.(sent := s.sent + [Transmission(s.session, request, s.retries, clock.enter, clock.sent)]);
    }

    method SendServerKeepalive(reuse: bool, fate: Fate, clock: Clock)
      requires Wired()
      modifies this
      ensures Wired() && Snap() == SendKeepalive(old(Snap()), reuse, fate, clock)
    {
      hide SendTcp, Notify, Payload, Ascii, B.EnterState, Requested;
      if !s.attached || s.session == 0 {
        return;
      }
      RequestedKeeps(s, reuse, clock);
      PrepareRequest(reuse, clock);
      var text := Payload("ka_req", Meta(s.session, s.pendingRequest, tele.lastDelay, tele.maxDelay, tele.errors));
      SendTcpFrame(KEEPALIVE, Ascii(text), fate);
      SendUnsolicitedUsbFrame(KEEPALIVE, text);
      s := s.(lastTx := clock.sent, pending := true, windowStarted := clock.armed);
      EnterState(ClientReturn);
    }

    method HandleRunningIntegerFailure()
      requires Wired()
      modifies this
      ensures Wired() && Snap() == Teardown(old(Snap()))
    {
      hide Notify, CloseClient, B.EnterState;
      RecordError();
      SendUnsolicitedUsbFrame(ERROR, "keepalive_retry_exhausted");
      CloseTcpClient();
      EnterState(Initialize);
      s := s.(server := 0, client := DEVICE_LIVE_START, retries := 0);
      tcpSequence := 0;
    }

    method ServiceKeepaliveEngine(env: Env)
      requires Wired()
      modifies this
      ensures Wired() && Snap() == EngineTick(old(Snap()), env)
    {
      hide SendKeepalive;
      if !s.attached || s.pending || s.state != ServerSend {
        return;
      }
      if s.lastTx != 0 && env.clock.enter - s.lastTx < KEEPALIVE_PERIOD_US {
        return;
      }
      SendServerKeepalive(false, env.fate, env.clock);
    }

    method ServiceTransportWatchdog(env: Env)
      requires Wired()
      modifies this
      ensures Wired() && Snap() == WatchdogTick(old(Snap()), env)
    {
      hide SendKeepalive, Teardown, B.EnterState;
      if !s.attached || !s.pending || s.lastTx <= 0 || s.state != ClientReturn {
        return;
      }
      if s.windowStarted <= 0 {
        s := s.(windowStarted := env.clock.enter);
        return;
      }
      var elapsed := (env.clock.enter - s.windowStarted) / 1000 % 0x1_0000_0000;
      if elapsed < WAIT_WINDOW_MS {
        return;
      }
      s := s.(retries := Inc32(s.retries));
      RecordError();
      if s.retries >= RETRY_LIMIT {
        HandleRunningIntegerFailure();
        return;
      }
      EnterState(ServerSend);
      SendServerKeepalive(true, env.fate, env.clock);
    }

    // ----- requests -----

    method FailVersion(transport: Transport, f: Frame, fate: Fate)
      requires Wired() && FieldsFit(f)
      modifies this
      ensures Wired() && Snap() == VersionFault(old(Snap()), transport, f, fate)
    {
      hide Notify, Reply, B.EnterState;
      RecordError();
      EnterState(Error);
      SendFrame(transport, ERROR, f, "data_interface_version_mismatch", fate);
      SendUnsolicitedUsbFrame(ERROR, "critical_error_data_interface_version_mismatch");
    }

    method OnReset(transport: Transport, f: Frame, fate: Fate)
      requires Wired() && FieldsFit(f)
      modifies this
      ensures Wired() && Snap() == HandleReset(old(Snap()), transport, f, fate)
    {
      hide Reply, CloseClient, B.EnterState;
      EnterState(Reset);
      s := s.(server := 0, client := 0);
      tcpSequence := 0;
      s := s.(retries := 0, lastTx := 0, pending := false, windowStarted := 0, session := 0, pendingRequest := 0,
              lastCompleted := 0, nextRequest := 1, peerVersion := 0, peerVersionValid := false);
      rt := Realtime(0, false);
      SendFrame(transport, ACK, f, "reset_ack", fate);
      CloseTcpClient();
    }

    method OnInitialize(transport: Transport, f: Frame, fate: Fate)
      requires Wired() && FieldsFit(f)
      modifies this
      ensures Wired() && Snap() == HandleInitialize(old(Snap()), transport, f, fate)
    {
      hide Reply, VersionFault, B.EnterState, PayloadText, Metadata.BridgeParse;
      var version := Metadata.BridgeParse(PayloadText(f.payload), "data_ver");
      EnterState(Initialize);
      s := s.(retries := 0, windowStarted := 0, session := 0, pendingRequest := 0, lastCompleted := 0, nextRequest := 1);
      rt := Realtime(0, false);
      if version.None? || version.value != INTERFACE_VERSION {
        FailVersion(transport, f, fate);
        return;
      }
      s := s.(peerVersion := version.value, peerVersionValid := true);
      SendFrame(transport, ACK, f, "initialize_ack", fate);
    }

    method OnConnect(transport: Transport, f: Frame, fate: Fate)
      requires Wired() && FieldsFit(f)
      modifies this
      ensures Wired() && Snap() == HandleConnect(old(Snap()), transport, f, fate)
    {
      hide Reply, Notify, VersionFault, B.EnterState, ConnectedText;
      EnterState(Connect);
      s := s.(server := 0, client := DEVICE_LIVE_START, retries := 0, lastTx := 0, pending := false, windowStarted := 0);
      s := s.(session := s.nextSession, nextSession := Inc32(s.nextSession));
      s := s.(pendingRequest := 0, lastCompleted := 0, nextRequest := 1);
      if !s.peerVersionValid || s.peerVersion != INTERFACE_VERSION {
        FailVersion(transport, f, fate);
        return;
      }
      var text := ConnectedText(s.session);
      SendFrame(transport, ACK, f, text, fate);
      if transport.Tcp? || s.attached {
        SendUnsolicitedUsbFrame(ACK, text);
        EnterState(ServerSend);
      }
    }

    method OnDisconnect(transport: Transport, f: Frame, fate: Fate)
      requires Wired() && FieldsFit(f)
      modifies this
      ensures Wired() && Snap() == HandleDisconnect(old(Snap()), transport, f, fate)
    {
      hide Reply, CloseClient, B.EnterState;
      EnterState(Disconnect);
      SendFrame(transport, ACK, f, "disconnect_ack", fate);
      if transport.Tcp? {
        CloseTcpClient();
      }
    }

    method SendRealtimeDataPacket(env: Env)
      requires Wired()
      modifies this
      ensures Wired() && Snap() == SendRealtime(old(Snap()), env)
    {
      hide SendTcp, HaltRealtime, RealtimePayload;
      if !s.attached {
        return;
      }
      if !s.state.Keepalive() {
        HaltRealtimeStream("not_in_keepalive_state");
        return;
      }
      var sequence := rt.sequence;
      rt := rt.(sequence := Inc32(sequence));
      SendTcpFrame(DATA, RealtimePayload(sequence, env.samples), env.fate);
      rt := rt.(active := true);
    }
  
    method TakeAnswer(device: u32)
      modifies this`s
      ensures s == Answered(old(s), device)
    {
      var request := s.pendingRequest;
      s := s.(client := device, server := Inc32(device));
      if s.server % 2 != 0 {
        s := s.(server := Inc32(s.server));
      }
      s := s.(pending := false, windowStarted := 0, pendingRequest := 0, lastCompleted := request, retries := 0);
      s := s.(completed := s.completed + [Exchange(s.session, request)]);
    }

    /** A response that is neither foreign nor late, with the version stated. */
    method AcceptResponse(f: Frame, env: Env)
      requires Wired() && FieldsFit(f)
      modifies this
      ensures Wired() && Snap() == Complete(old(Snap()), f, env)
    {
      hide SendRealtime, Notify, Payload, DelayMs, ToI32, B.EnterState;
      var delay := DelayMs(s, env.clock.enter);
      tele := tele.(lastDelay := ToI32(delay));
      if delay > tele.maxDelay {
        tele := tele.(maxDelay := delay);
      }
      TakeAnswer(f.device);
      EnterState(ServerSend);
      var meta := Meta(s.session, s.lastCompleted, tele.lastDelay, tele.maxDelay, tele.errors);
      SendUnsolicitedUsbFrame(KEEPALIVE, Payload("ka_resp", meta));
      SendRealtimeDataPacket(env);
    }

    method OnKeepalive(transport: Transport, f: Frame, env: Env)
      requires Wired() && FieldsFit(f)
      modifies this
      ensures Wired() && Snap() == HandleKeepalive(old(Snap()), transport, f, env)
    {
      hide Reply, VersionFault, Complete, PayloadText, Metadata.BridgeParse;
      if transport.Usb? {
        SendFrame(transport, ACK, f, "usb_keepalive_not_supported", env.fate);
        return;
      }
      var text := PayloadText(f.payload);
      var session := Metadata.BridgeParse(text, "sid");
      var request := Metadata.BridgeParse(text, "req");
      var version := Metadata.BridgeParse(text, "rver");
      if session.None? || request.None? || session.value != s.session {
        RecordError();
        return;
      }
      if !s.pending || s.pendingRequest == 0 {
        if request.value != s.lastCompleted || s.lastCompleted == 0 {
          RecordError();
        }
        return;
      }
      if s.state != ClientReturn {
        RecordError();
        return;
      }
      if version.None? || version.value != INTERFACE_VERSION {
        FailVersion(transport, f, env.fate);
        return;
      }
      if request.value != s.pendingRequest {
        if request.value != s.lastCompleted || s.lastCompleted == 0 {
          RecordError();
        }
        return;
      }
      if f.host != s.server || f.device != Inc32(s.server) || f.host % 2 != 0 || f.device % 2 == 0 {
        RecordError();
        return;
      }
      AcceptResponse(f, env);
    }

    // ----- data, Wi-Fi -----

    method WifiDisableTransport()
      requires Wired()
      modifies this
      ensures Wired() && Snap() == DisableWifi(old(Snap()))
    {
      hide CloseClient, B.EnterState;
      CloseTcpClient();
      listening := false;
      wifiEnabled := false;
      EnterState(Reset);
    }

    method WifiEnableTransport(wifi: WifiOutcome) returns (ok: bool)
      modifies this`wifiEnabled, this`listening
      ensures Snap() == EnableWifi(old(Snap()), wifi)
      ensures ok <==> !EnableFails(old(Snap()), wifi)
    {
      if wifi.SoftApFailed? {
        return false;
      }
      wifiEnabled := true;
      if !listening {
        if wifi.ListenerFailed? {
          return false;
        }
        listening := true;
      }
      return true;
    }

    method OnUsbData(f: Frame, env: Env)
      requires Wired() && FieldsFit(f)
      modifies this
      ensures Wired() && Snap() == HandleUsbData(old(Snap()), f, env)
    {
      hide SendTcp, EnableWifi, EnableFails, DisableWifi, CommandOf, PayloadText, Notify, TelemetryText;
      match CommandOf(PayloadText(f.payload))
      case DisableCommand =>
        WifiDisableTransport();
        WriteUsb(ACK, f.sequence, UsbPayload.Text("wifi_disabled"));
      case EnableCommand =>
        var ok := WifiEnableTransport(env.wifi);
        if ok {
          WriteUsb(ACK, f.sequence, UsbPayload.Text("wifi_enabled"));
        } else {
          RecordError();
          WriteUsb(ERROR, f.sequence, UsbPayload.Text("wifi_enable_failed"));
        }
      case ResetTelemetry =>
        if !s.state.Keepalive() {
          tele := tele.(lastDelay := -1);
        }
        tele := tele.(maxDelay := 0, errors := 0);
        WriteUsb(ACK, f.sequence, UsbPayload.Text("telemetry_reset_ack"));
        SendTelemetryUpdateUsb();
      case ResetMaxDelay =>
        tele := tele.(maxDelay := 0);
        WriteUsb(ACK, f.sequence, UsbPayload.Text("telemetry_reset_max_delay_ack"));
        SendTelemetryUpdateUsb();
      case NoCommand => ForwardToClient(f, env);
    }

    method ForwardToClient(f: Frame, env: Env)
      requires Wired() && FieldsFit(f)
      modifies this
      ensures Wired() && (CommandOf(PayloadText(f.payload)).NoCommand? ==> Snap() == HandleUsbData(old(Snap()), f, env))
    {
      hide SendTcp, CommandOf, PayloadText, EnableWifi, EnableFails, DisableWifi, TelemetryReply;
      if |f.payload| == 0 {
        WriteUsb(ACK, f.sequence, UsbPayload.Text("data_ack"));
      } else if f.payload[0] != MAGIC_DOWNLINK {
        if !SessionActive(s) {
          RecordError();
          WriteUsb(ACK, f.sequence, UsbPayload.Text("data_ignored_not_in_keepalive_session"));
        } else if s.attached {
          SendTcpFrame(DATA, f.payload, env.fate);
          WriteUsb(ACK, f.sequence, UsbPayload.Text("data_forwarded_tcp"));
        } else {
          WriteUsb(ACK, f.sequence, UsbPayload.Text("data_tcp_not_connected"));
        }
      } else if !SessionActive(s) || !s.attached {
        RecordError();
      } else {
        SendTcpFrame(DATA, f.payload, env.fate);
      }
    }

    method OnTcpData(f: Frame, env: Env)
      requires Wired() && FieldsFit(f)
      modifies this
      ensures Wired() && Snap() == HandleTcpData(old(Snap()), f, env)
    {
      hide SendTcp, Ascii;
      if |f.payload| == 0 {
        SendTcpFrame(ACK, Ascii("data_ack"), env.fate);
      } else if f.payload[0] == MAGIC_UPLINK {
        if !SessionActive(s) {
          RecordError();
        } else {
          WriteUsb(DATA, f.sequence, Forwarded(f.payload));
        }
      } else if !SessionActive(s) {
        RecordError();
        SendTcpFrame(ACK, Ascii("data_ignored_not_in_keepalive_session"), env.fate);
      } else {
        WriteUsb(DATA, f.sequence, Forwarded(f.payload));
        SendTcpFrame(ACK, Ascii("data_forwarded_usb"), env.fate);
      }
    }

    method OnFrame(transport: Transport, f: Frame, env: Env)
      requires Wired() && FieldsFit(f)
      modifies this
      ensures Wired() && Snap() == HandleFrame(old(Snap()), transport, f, env)
    {
      hide HandleReset, HandleInitialize, HandleConnect, HandleDisconnect, HandleKeepalive, HandleUsbData,
           HandleTcpData, Reply, B.EnterState;
      if f.kind == RESET {
        OnReset(transport, f, env.fate);
      } else if f.kind == INITIALIZE {
        OnInitialize(transport, f, env.fate);
      } else if f.kind == CONNECT {
        OnConnect(transport, f, env.fate);
      } else if f.kind == DISCONNECT {
        OnDisconnect(transport, f, env.fate);
      } else if f.kind == KEEPALIVE {
        OnKeepalive(transport, f, env);
      } else if f.kind == DATA {
        if transport.Usb? {
          OnUsbData(f, env);
        } else {
          OnTcpData(f, env);
        }
      } else if f.kind == ERROR {
        RecordError();
        EnterState(Error);
        SendFrame(transport, ACK, f, "error_ack", env.fate);
      } else {
        RecordError();
        SendFrame(transport, ERROR, f, "unsupported", env.fate);
      }
    }

    // ----- the main loop -----

    method AttachClient()
      requires !s.attached
      modifies this
      ensures var was := old(Snap());
              var joined := was.(s := was.s.(attached := true, lastTx := 0),
                                 tcp := was.tcp.(wires := was.tcp.wires + [Wire([], [])]));
              var entered := B.EnterState(joined, Connect);
              Snap() == entered.(s := Attached(entered.s), tcp := entered.tcp.(sequence := 0))
    {
      hide B.EnterState;
      s := s.(attached := true, lastTx := 0);
      wires := wires + [Wire([], [])];
      EnterState(Connect);
      s := s.(server := 0, client := DEVICE_LIVE_START, pending := false, windowStarted := 0, retries := 0);
      tcpSequence := 0;
      s := s.(session := 0, pendingRequest := 0, lastCompleted := 0, nextRequest := 1);
    }

    /** A client is waiting at the listener. */
    method AcceptTcpClient(fate: Fate)
      requires Wired()
      modifies this
      ensures Wired() && Snap() == Accept(old(Snap()), fate)
    {
      hide SendTcp, Notify, CloseClient, B.EnterState, Ascii, Attached;
      if s.attached {
        CloseTcpClient();
      }
      AttachClient();
      SendTcpFrame(ACK, Ascii("tcp_connected"), fate);
      SendUnsolicitedUsbFrame(ACK, "tcp_connected");
    }

    /** One turn of one of the loop's jobs. */
    method Service(e: Event, env: Env)
      requires Wired() && GoodEvent(e)
      modifies this
      ensures Wired() && Snap() == Step(old(Snap()), e, env)
    {
      hide HandleFrame, Accept, CloseClient, EngineTick, WatchdogTick, Notify;
      match e
      case UsbFrameIn(f) => OnFrame(Usb, f, env);
      case Accepts =>
        if wifiEnabled && listening {
          AcceptTcpClient(env.fate);
        }
      case PeerCloses =>
        if wifiEnabled && s.attached {
          CloseTcpClient();
        }
      case BadStream(parseFailed) =>
        if wifiEnabled && s.attached {
          RecordError();
          if parseFailed {
            SendUnsolicitedUsbFrame(ERROR, "tcp_frame_parse_failed");
          }
          CloseTcpClient();
        }
      case TcpFrame(f) =>
        if wifiEnabled && s.attached {
          OnFrame(Tcp, f, env);
        }
      case Engine =>
        if wifiEnabled {
          ServiceKeepaliveEngine(env);
        }
      case Watchdog =>
        if wifiEnabled {
          ServiceTransportWatchdog(env);
        }
    }

    /**
     The main loop, for any stretch of what can happen: the globals pass through a run of the
     model, so that all that is proved of runs holds of them.
     */
    method MainLoop(script: seq<BridgeRuns.Tick>) returns (ghost states: seq<B.Bridge>)
      requires Wired() && BridgeRuns.GoodEvents(script)
      modifies this
      ensures Wired()
      ensures BridgeRuns.Trace(old(Snap()), script, states) && Snap() == states[|script|]
      ensures old(Snap()) == Boot() && BridgeRuns.FromPowerOn(script, states) ==>
                BridgeInvariant.Kept(s, BridgeRuns.Latest(script))
      ensures old(Snap()) == Boot() && BridgeWires.Packed(script) ==> BridgeWires.Good(Snap())
    {
      hide Step, Boot, BridgeInvariant.Kept, BridgeInvariant.Roomy, BridgeWires.Good, BridgeWires.Packed;
      states := [Snap()];
      for k := 0 to |script|
        invariant Wired()
        invariant |states| == k + 1 && states[0] == old(Snap()) && states[k] == Snap()
        invariant forall i :: 0 <= i < k ==> states[i + 1] == Step(states[i], script[i].event, script[i].env)
      {
        Service(script[k].event, script[k].env);
        states := states + [Snap()];
      }
      if old(Snap()) == Boot() {
        if BridgeRuns.FromPowerOn(script, states) {
          BridgeRuns.EveryRunKeeps(script, states);
        }
        if BridgeWires.Packed(script) {
          BridgeWires.TraceGood(script, states, |script|);
        }
      }
    }
  }
}
