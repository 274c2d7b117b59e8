/** When the bridge asks, asks again and gives up; and what it keeps count of on the way. */
module BridgeTiming {
  import opened Options
  import opened Bytes
  import opened Frames
  import opened KeepaliveText
  import opened Bridge
  import opened BridgeMoves
  import opened BridgeInvariant
  import opened BridgeRuns
  import opened BridgeTraffic
  import Text

  // ----- the clock -----

  /** A new request is due: none was sent in this session yet, or the last transmission is 300 ms past. */
  ghost predicate Due(s: Session, now: int) {
    Asking(s) ==> now - s.sent[|s.sent| - 1].end >= KEEPALIVE_PERIOD_US
  }

  /**
   In every reached live session with nothing awaited, a turn of the engine sends the next request,
   as a first try, exactly when one is due; otherwise it changes nothing.
   */
  lemma RequestsExactly(script: seq<Tick>, states: seq<Bridge>, env: Env)
    requires FromPowerOn(script, states) && Roomy(states[|script|].s)
    requires env.clock.Ordered() && Latest(script) <= env.clock.enter
    requires Live(states[|script|].s) && states[|script|].s.state.ServerSend?
    ensures var b := states[|script|];
            var r := Step(b, Engine, env);
            if b.wifiEnabled && Due(b.s, env.clock.enter)
            then r.s.sent
                 == b.s.sent + [Transmission(b.s.session, b.s.lastCompleted + 1, 0, env.clock.enter, env.clock.sent)]
            else r == b
  {
    SessionAt(script, states, |script|);
    EveryRunKeeps(script, states);
    DueIs(states[|script|].s, Latest(script), env.clock.enter);
    KeptLive(states[|script|].s, Latest(script));
    hide Step, Boot, Kept, FromPowerOn, SessionInv, Roomy, LiveInv;
    EngineDoes(states[|script|], env);
  }

  lemma EngineDoes(b: Bridge, env: Env)
    requires Live(b.s) && b.s.state.ServerSend? && LiveInv(b.s)
    ensures Step(b, Engine, env).s.sent == if b.wifiEnabled && RequestDue(b.s, env.clock.enter)
              then b.s.sent + [Transmission(b.s.session, b.s.lastCompleted + 1, 0, env.clock.enter, env.clock.sent)]
              else b.s.sent
    ensures (b.wifiEnabled && RequestDue(b.s, env.clock.enter)) || Step(b, Engine, env) == b
  {
    EngineSends(b, env);
    hide HandleFrame, Accept, CloseClient, EngineTick, WatchdogTick, Notify, LiveInv, RequestDue;
  }

  lemma EngineSends(b: Bridge, env: Env)
    requires Live(b.s) && b.s.state.ServerSend? && LiveInv(b.s)
    ensures EngineTick(b, env).s.sent == if RequestDue(b.s, env.clock.enter)
              then b.s.sent + [Transmission(b.s.session, b.s.lastCompleted + 1, 0, env.clock.enter, env.clock.sent)]
              else b.s.sent
    ensures RequestDue(b.s, env.clock.enter) || EngineTick(b, env) == b
  {
    hide SendKeepalive, EvenUp, OddUp, RequestDue;
  }

  lemma DueIs(s: Session, last: int, now: int)
    requires Kept(s, last) && Live(s) && s.state.ServerSend?
    ensures RequestDue(s, now) <==> Due(s, now)
  {
  }

  /** The watchdog counts milliseconds in 32 bits: after 49 days it begins again. */
  const CLOCK_WRAP_US := 0x1_0000_0000 * 1000

  /** The time a response has been waited for. */
  function Waited(s: Session, now: int): int {
    now - s.windowStarted
  }

  /**
   In every reached live session that awaits a response, a turn of the watchdog changes nothing within
   500 ms; after that it tries again, twice, with the same request, and the third time gives up.
   */
  lemma TriesExactly(script: seq<Tick>, states: seq<Bridge>, env: Env)
    requires FromPowerOn(script, states) && Roomy(states[|script|].s)
    requires env.clock.Ordered() && Latest(script) <= env.clock.enter
    requires Awaits(states[|script|].s) && Waited(states[|script|].s, env.clock.enter) < CLOCK_WRAP_US
    requires states[|script|].wifiEnabled
    ensures var b := states[|script|];
            var r := Step(b, Watchdog, env);
            if Waited(b.s, env.clock.enter) < 500_000 then r == b
            else if b.s.retries < 2 then
              r.s.sent == b.s.sent + [TryOf(b.s, env.clock)]
            else r.s.state.Initialize? && !r.s.attached && r.s.sent == b.s.sent
  {
    SessionAt(script, states, |script|);
    EveryRunKeeps(script, states);
    WaitIsPast(states[|script|].s, Latest(script));
    hide Step, Boot, Kept, FromPowerOn, SessionInv, Roomy;
    WatchdogDoes(states[|script|], env);
  }

  lemma WaitIsPast(s: Session, now: int)
    requires Kept(s, now) && Awaits(s)
    ensures LiveInv(s) && s.windowStarted <= now
  {
  }

  /** What a try is recorded as. */
  function TryOf(s: Session, clock: Clock): Transmission
    requires s.retries < 2
  {
    Transmission(s.session, s.pendingRequest, s.retries + 1, clock.enter, clock.sent)
  }

  lemma RetrySent(b: Bridge, env: Env)
    requires Awaits(b.s) && LiveInv(b.s) && b.s.retries < 2
    ensures var b2 := EnterState(RecordError(b.(s := b.s.(retries := Inc32(b.s.retries)))), ServerSend);
            SendKeepalive(b2, true, env.fate, env.clock).s.sent == b.s.sent + [TryOf(b.s, env.clock)]
  {
    hide SendKeepalive, EnterState, EvenUp, OddUp;
  }

  lemma WatchdogTurns(b: Bridge, env: Env)
    requires Awaits(b.s) && LiveInv(b.s) && 0 <= Waited(b.s, env.clock.enter) < CLOCK_WRAP_US
    ensures var r := WatchdogTick(b, env);
            if Waited(b.s, env.clock.enter) < 500_000 then r == b
            else if b.s.retries < 2 then r.s.sent == b.s.sent + [TryOf(b.s, env.clock)]
            else r.s.state.Initialize? && !r.s.attached && r.s.sent == b.s.sent
  {
    hide SendKeepalive, Teardown, EnterState, WindowExpired, Waited, LiveInv, TryOf, Closed, Requested, Entered, Breaks;
    WindowIs(b.s, env.clock.enter);
    AwaitFacts(b.s);
    if b.s.retries < 2 {
      RetrySent(b, env);
    } else {
      GivenUp(RecordError(b.(s := b.s.(retries := Inc32(b.s.retries)))));
    }
  }

  lemma GivenUp(b: Bridge)
    ensures var r := Teardown(b).s; r.state.Initialize? && !r.attached && r.sent == b.s.sent
  {
    hide Teardown;
  }

  lemma AwaitFacts(s: Session)
    requires Awaits(s) && LiveInv(s)
    ensures s.windowStarted > 0 && s.lastTx > 0 && s.retries < 3 && s.pending && s.attached && s.state == ClientReturn
  {
  }

  lemma WatchdogDoes(b: Bridge, env: Env)
    requires Awaits(b.s) && LiveInv(b.s) && b.wifiEnabled && 0 <= Waited(b.s, env.clock.enter) < CLOCK_WRAP_US
    ensures var r := Step(b, Watchdog, env);
            if Waited(b.s, env.clock.enter) < 500_000 then r == b
            else if b.s.retries < 2 then r.s.sent == b.s.sent + [TryOf(b.s, env.clock)]
            else r.s.state.Initialize? && !r.s.attached && r.s.sent == b.s.sent
  {
    WatchdogTurns(b, env);
    hide HandleFrame, Accept, CloseClient, EngineTick, WatchdogTick, Notify, LiveInv, Waited, TryOf;
  }

  lemma WindowIs(s: Session, now: int)
    requires 0 <= Waited(s, now) < CLOCK_WRAP_US
    ensures WindowExpired(s, now) <==> Waited(s, now) >= 500_000
  {
    var w := Waited(s, now);
    assert w / 1000 < 0x1_0000_0000;
  }

  /** The wait begins with the clock reading after the transmission. */
  lemma WaitBegins(b: Bridge, e: Event, env: Env)
    requires GoodEvent(e) && |Step(b, e, env).s.sent| > |b.s.sent|
    ensures WaitsFrom(Step(b, e, env).s, env.clock)
  {
    hide WaitsFrom, EngineTick, WatchdogTick;
    OnlyClockAsks(b, e, env);
    EngineWaits(b, env);
    WatchdogWaits(b, env);
  }

  lemma EngineWaits(b: Bridge, env: Env)
    ensures EngineTick(b, env).s.sent == b.s.sent || WaitsFrom(EngineTick(b, env).s, env.clock)
  {
    hide SendKeepalive, WaitsFrom, Requested, Closed;
    if b.s.attached && b.s.session != 0 {
      RequestWaits(b, false, env);
    }
  }

  lemma WatchdogWaits(b: Bridge, env: Env)
    ensures WatchdogTick(b, env).s.sent == b.s.sent || WaitsFrom(WatchdogTick(b, env).s, env.clock)
  {
    hide SendKeepalive, WaitsFrom, Requested, Teardown, EnterState, WindowExpired;
    var b1 := RecordError(b.(s := b.s.(retries := Inc32(b.s.retries))));
    GivenUp(b1);
    if b.s.attached && b.s.session != 0 {
      RequestWaits(EnterState(b1, ServerSend), true, env);
    }
  }

  ghost predicate WaitsFrom(s: Session, clock: Clock) {
    && s.windowStarted == clock.armed && s.state.ClientReturn? && s.pending && |s.sent| > 0
    && s.sent[|s.sent| - 1].begin == clock.enter && s.sent[|s.sent| - 1].end == clock.sent
  }

  lemma RequestWaits(b: Bridge, reuse: bool, env: Env)
    requires b.s.attached && b.s.session != 0
    ensures WaitsFrom(SendKeepalive(b, reuse, env.fate, env.clock).s, env.clock)
  {
    hide SendKeepalive, EvenUp, OddUp;
  }

  // ----- the longest delay, and the number of the next realtime packet -----

  predicate SameBooks(b: Bridge, r: Bridge) {
    r.tele.maxDelay == b.tele.maxDelay && r.rt.sequence == b.rt.sequence
  }

  lemma CloseBooks(b: Bridge)
    ensures SameBooks(b, CloseClient(b))
  {
    hide Notify, HaltedText;
  }

  lemma SendBooks(b: Bridge, kind: int, payload: seq<byte>, fate: Fate)
    requires 0 <= kind < 0x100
    ensures SameBooks(b, SendTcp(b, kind, payload, fate))
  {
    hide CloseClient;
    CloseBooks(RecordError(b.(tcp := Transmit(b, kind, payload, fate))));
  }

  lemma ReplyBooks(b: Bridge, transport: Transport, kind: int, f: Frame, text: string, fate: Fate)
    requires 0 <= kind < 0x100 && FieldsFit(f)
    ensures SameBooks(b, Reply(b, transport, kind, f, text, fate))
  {
    hide SendTcp, EmitUsb;
    SendBooks(b, kind, Ascii(text), fate);
  }

  lemma EnterBooks(b: Bridge, next: State)
    ensures EnterState(b, next).tele.maxDelay == b.tele.maxDelay
    ensures EnterState(b, next).rt.sequence == if next.Reset? then 0 else b.rt.sequence
  {
    hide Notify, TelemetryText, HaltedText;
  }

  lemma FaultBooks(b: Bridge, transport: Transport, f: Frame, fate: Fate)
    requires FieldsFit(f)
    ensures SameBooks(b, VersionFault(b, transport, f, fate))
  {
    hide Reply, EnterState, Notify;
    EnterBooks(RecordError(b), Error);
    ReplyBooks(EnterState(RecordError(b), Error), transport, ERROR, f, "data_interface_version_mismatch", fate);
  }

  /** Requests that start the numbering of realtime packets again. */
  predicate Renumbers(e: Event) {
    || ((e.TcpFrame? || e.UsbFrameIn?) && (e.frame.kind == RESET || e.frame.kind == INITIALIZE))
    || (e.UsbFrameIn? && e.frame.kind == DATA && CommandOf(PayloadText(e.frame.payload)).DisableCommand?)
  }

  /** Requests that set the longest delay back. */
  predicate ClearsDelay(e: Event) {
    && e.UsbFrameIn? && e.frame.kind == DATA
    && (CommandOf(PayloadText(e.frame.payload)).ResetTelemetry? || CommandOf(PayloadText(e.frame.payload)).ResetMaxDelay?)
  }

  lemma HandshakeBooks(b: Bridge, transport: Transport, f: Frame, fate: Fate)
    requires FieldsFit(f)
    ensures HandleReset(b, transport, f, fate).tele.maxDelay == b.tele.maxDelay
    ensures HandleReset(b, transport, f, fate).rt.sequence == 0
    ensures HandleInitialize(b, transport, f, fate).tele.maxDelay == b.tele.maxDelay
    ensures HandleInitialize(b, transport, f, fate).rt.sequence == 0
  {
    hide Reply, EnterState, CloseClient, VersionFault, DataVersion;
    EnterBooks(b, Reset);
    var b1 := EnterState(b, Reset);
    var b2 := b1.(
      s := b1.s.(server := 0, client := 0, retries := 0, lastTx := 0, pending := false, windowStarted := 0,
                 session := 0, pendingRequest := 0, lastCompleted := 0, nextRequest := 1,
                 peerVersion := 0, peerVersionValid := false),
      tcp := b1.tcp.(sequence := 0),
      rt := Realtime(0, false));
    ReplyBooks(b2, transport, ACK, f, "reset_ack", fate);
    CloseBooks(Reply(b2, transport, ACK, f, "reset_ack", fate));
    EnterBooks(b, Initialize);
    var c1 := EnterState(b, Initialize);
    var c2 := c1.(s := Idle(c1.s), rt := Realtime(0, false));
    FaultBooks(c2, transport, f, fate);
    ReplyBooks(c2.(s := c2.s.(peerVersion := INTERFACE_VERSION, peerVersionValid := true)),
               transport, ACK, f, "initialize_ack", fate);
  }

  lemma ConnectBooks(b: Bridge, transport: Transport, f: Frame, fate: Fate)
    requires FieldsFit(f)
    ensures SameBooks(b, HandleConnect(b, transport, f, fate)) && SameBooks(b, HandleDisconnect(b, transport, f, fate))
  {
    hide Reply, EnterState, VersionFault, Notify, ConnectedText, CloseClient;
    EnterBooks(b, Connect);
    var b1 := EnterState(b, Connect);
    var b2 := b1.(s := Opened(b1.s));
    FaultBooks(b2, transport, f, fate);
    var text := ConnectedText(b2.s.session);
    ReplyBooks(b2, transport, ACK, f, text, fate);
    var b3 := Reply(b2, transport, ACK, f, text, fate);
    EnterBooks(Notify(b3, ACK, text), ServerSend);
    EnterBooks(b, Disconnect);
    var c1 := EnterState(b, Disconnect);
    ReplyBooks(c1, transport, ACK, f, "disconnect_ack", fate);
    CloseBooks(Reply(c1, transport, ACK, f, "disconnect_ack", fate));
  }

  lemma DataBooks(b: Bridge, f: Frame, env: Env)
    requires FieldsFit(f)
    ensures SameBooks(b, HandleTcpData(b, f, env))
    ensures var r, command := HandleUsbData(b, f, env), CommandOf(PayloadText(f.payload));
            && r.tele.maxDelay == (if command.ResetTelemetry? || command.ResetMaxDelay? then 0 else b.tele.maxDelay)
            && r.rt.sequence == if command.DisableCommand? then 0 else b.rt.sequence
  {
    hide EmitUsb, EnableWifi, EnableFails, SendTcp, PayloadText, CommandOf, TelemetryReply, EnterState, CloseClient, Ascii,
         Breaks, Transmit, Closed, Entered;
    CloseBooks(b);
    EnterBooks(CloseClient(b).(listening := false, wifiEnabled := false), Reset);
    SendBooks(b, DATA, f.payload, env.fate);
    SendBooks(b, ACK, Ascii("data_ack"), env.fate);
    SendBooks(RecordError(b), ACK, Ascii("data_ignored_not_in_keepalive_session"), env.fate);
    SendBooks(EmitUsb(b, DATA, f.sequence, Forwarded(f.payload)), ACK, Ascii("data_forwarded_usb"), env.fate);
  }

  lemma RequestBooks(b: Bridge, reuse: bool, env: Env)
    ensures SameBooks(b, SendKeepalive(b, reuse, env.fate, env.clock))
  {
    hide EnterState, SendTcp, Notify, Payload, Ascii, Requested;
    var b1 := b.(s := Requested(b.s, reuse, env.clock));
    var text := Payload("ka_req", MetaOf(b1, b1.s.pendingRequest));
    SendBooks(b1, KEEPALIVE, Ascii(text), env.fate);
    var b3 := Notify(SendTcp(b1, KEEPALIVE, Ascii(text), env.fate), KEEPALIVE, text);
    EnterBooks(b3.(s := b3.s.(lastTx := env.clock.sent, pending := true, windowStarted := env.clock.armed)), ClientReturn);
  }

  lemma ClockBooks(b: Bridge, env: Env)
    ensures SameBooks(b, EngineTick(b, env)) && SameBooks(b, WatchdogTick(b, env))
  {
    hide EnterState, SendKeepalive, CloseClient, Notify, WindowExpired, RequestDue;
    RequestBooks(b, false, env);
    var b1 := RecordError(b.(s := b.s.(retries := Inc32(b.s.retries))));
    EnterBooks(b1, ServerSend);
    RequestBooks(EnterState(b1, ServerSend), true, env);
    var b2 := Notify(RecordError(b1), ERROR, "keepalive_retry_exhausted");
    CloseBooks(b2);
    EnterBooks(CloseClient(b2), Initialize);
  }

  lemma AcceptBooks(b: Bridge, fate: Fate)
    ensures SameBooks(b, Accept(b, fate))
  {
    hide EnterState, CloseClient, SendTcp, Notify, Ascii, Attached;
    CloseBooks(b);
    var b1 := if b.s.attached then CloseClient(b) else b;
    var joined := b1.(s := b1.s.(attached := true, lastTx := 0),
                      tcp := b1.tcp.(wires := b1.tcp.wires + [Wire([], [])]));
    EnterBooks(joined, Connect);
    var b2 := EnterState(joined, Connect);
    SendBooks(b2.(s := Attached(b2.s), tcp := b2.tcp.(sequence := 0)), ACK, Ascii("tcp_connected"), fate);
  }

  lemma KeepaliveBooks(b: Bridge, transport: Transport, f: Frame, env: Env)
    requires FieldsFit(f) && !(transport.Tcp? && Judge(b.s, f).Accepted?)
    ensures SameBooks(b, HandleKeepalive(b, transport, f, env))
  {
    hide Reply, Complete, VersionFault, Judge;
    ReplyBooks(b, transport, ACK, f, "usb_keepalive_not_supported", env.fate);
    FaultBooks(b, transport, f, env.fate);
  }

  lemma OtherBooks(b: Bridge, transport: Transport, f: Frame, env: Env)
    requires FieldsFit(f) && f.kind !in {RESET, INITIALIZE, CONNECT, DISCONNECT, KEEPALIVE, DATA}
    ensures SameBooks(b, HandleFrame(b, transport, f, env))
  {
    hide Reply, EnterState;
    EnterBooks(RecordError(b), Error);
    ReplyBooks(EnterState(RecordError(b), Error), transport, ACK, f, "error_ack", env.fate);
    ReplyBooks(RecordError(b), transport, ERROR, f, "unsupported", env.fate);
  }

  lemma FrameBooks(b: Bridge, transport: Transport, f: Frame, env: Env)
    requires FieldsFit(f) && !(transport.Tcp? && f.kind == KEEPALIVE && Judge(b.s, f).Accepted?)
    ensures var r, e := HandleFrame(b, transport, f, env), if transport.Usb? then UsbFrameIn(f) else TcpFrame(f);
            && r.tele.maxDelay == (if ClearsDelay(e) then 0 else b.tele.maxDelay)
            && r.rt.sequence == if Renumbers(e) then 0 else b.rt.sequence
  {
    hide HandleReset, HandleInitialize, HandleConnect, HandleDisconnect, HandleKeepalive, HandleUsbData, HandleTcpData,
         Judge, PayloadText, CommandOf;
    HandshakeBooks(b, transport, f, env.fate);
    ConnectBooks(b, transport, f, env.fate);
    DataBooks(b, f, env);
    if f.kind == KEEPALIVE {
      KeepaliveBooks(b, transport, f, env);
    } else if f.kind !in {RESET, INITIALIZE, CONNECT, DISCONNECT, KEEPALIVE, DATA} {
      OtherBooks(b, transport, f, env);
    }
  }

  /** An answer is accepted in this step. */
  predicate TakesAnswer(b: Bridge, e: Event)
    requires GoodEvent(e)
  {
    e.TcpFrame? && e.frame.kind == KEEPALIVE && b.wifiEnabled && b.s.attached && Judge(b.s, e.frame).Accepted?
  }

  /**
   Apart from accepted answers, a step sets the longest delay back to 0 if the host asks for it, the
   number of the next realtime packet if the link is reset or initialized, and changes neither otherwise.
   */
  lemma StepBooks(b: Bridge, e: Event, env: Env)
    requires GoodEvent(e) && !TakesAnswer(b, e) && (e.TcpFrame? ==> b.wifiEnabled && b.s.attached)
    ensures var r := Step(b, e, env);
            && r.tele.maxDelay == (if ClearsDelay(e) then 0 else b.tele.maxDelay)
            && r.rt.sequence == if Renumbers(e) then 0 else b.rt.sequence
  {
    hide HandleFrame, Accept, CloseClient, EngineTick, WatchdogTick, Notify, Judge, CommandOf, PayloadText;
    match e
    case UsbFrameIn(f) => FrameBooks(b, Usb, f, env);
    case TcpFrame(f) => FrameBooks(b, Tcp, f, env);
    case Accepts => AcceptBooks(b, env.fate);
    case PeerCloses => CloseBooks(b);
    case BadStream(parseFailed) =>
      var b1 := RecordError(b);
      CloseBooks(if parseFailed then Notify(b1, ERROR, "tcp_frame_parse_failed") else b1);
    case Engine => ClockBooks(b, env);
    case Watchdog => ClockBooks(b, env);
  }
}
