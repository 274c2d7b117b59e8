/** What reaches the client and the host: requests, forwarded data, realtime packets and acknowledgements. */
module BridgeTraffic {
  import opened Options
  import opened Bytes
  import opened Frames
  import opened KeepaliveText
  import opened Bridge
  import opened BridgeMoves
  import opened BridgeInvariant
  import opened BridgeRuns
  import opened BridgeResponses
  import HostText
  import Metadata
  import Text

  // ----- what one step adds -----

  /** The open connection has its record. */
  predicate Wired(b: Bridge) {
    b.s.attached ==> |b.tcp.wires| > 0
  }

  /** Exactly these frames went out to the client, numbered on, and nothing else changed on any connection. */
  ghost predicate Delivers(b: Bridge, r: Bridge, frames: seq<Frame>) {
    var n := |b.tcp.wires| - 1;
    && n >= 0
    && r.tcp.wires == b.tcp.wires[n := b.tcp.wires[n].(frames := b.tcp.wires[n].frames + frames)]
    && r.tcp.sequence == (b.tcp.sequence + |frames|) % 0x1_0000
  }

  /** Exactly these frames were written to the host. */
  ghost predicate Writes(b: Bridge, r: Bridge, us: seq<UsbFrame>) {
    r.usb.frames == b.usb.frames + us
  }

  /** The frame that goes to the client next, with the session's counters. */
  function ToClient(b: Bridge, kind: int, payload: seq<byte>): (f: Frame)
    ensures f.sequence == b.tcp.sequence && f.host == b.s.server && f.device == b.s.client
  {
    Frame(kind, b.s.server, b.s.client, b.tcp.sequence, payload)
  }

  lemma SendDelivers(b: Bridge, kind: int, payload: seq<byte>)
    requires b.s.attached && Wired(b) && 0 <= kind < 0x100
    ensures Delivers(b, SendTcp(b, kind, payload, Sent), [ToClient(b, kind, payload)])
    ensures SendTcp(b, kind, payload, Sent).usb == b.usb && SendTcp(b, kind, payload, Sent).s == b.s
  {
    hide CloseClient;
  }

  lemma StepWired(b: Bridge, e: Event, env: Env)
    requires GoodEvent(e) && Wired(b)
    ensures Wired(Step(b, e, env))
  {
    hide HandleFrame, Accept, CloseClient, EngineTick, WatchdogTick, Notify;
    match e
    case UsbFrameIn(f) => FrameWired(b, Usb, f, env);
    case TcpFrame(f) => FrameWired(b, Tcp, f, env);
    case Accepts =>
    case PeerCloses =>
    case BadStream(_) =>
    case Engine => ClockWired(b, env);
    case Watchdog => ClockWired(b, env);
  }

  lemma FrameWired(b: Bridge, transport: Transport, f: Frame, env: Env)
    requires FieldsFit(f) && Wired(b)
    ensures Wired(HandleFrame(b, transport, f, env))
  {
    hide HandleReset, HandleInitialize, HandleConnect, HandleDisconnect, HandleKeepalive, HandleUsbData, HandleTcpData,
         Reply, EnterState, Judge, PayloadText, DataVersion;
  }

  lemma ClockWired(b: Bridge, env: Env)
    requires Wired(b)
    ensures Wired(EngineTick(b, env)) && Wired(WatchdogTick(b, env))
  {
    hide SendKeepalive, EnterState, Teardown, WindowExpired, EvenUp, OddUp;
  }

  lemma {:induction false} RunWired(script: seq<Tick>, states: seq<Bridge>, k: nat)
    requires Trace(Boot(), script, states) && k <= |script|
    ensures Wired(states[k])
  {
    if k > 0 {
      hide Step, Boot, Wired;
      RunWired(script, states, k - 1);
      StepWired(states[k - 1], script[k - 1].event, script[k - 1].env);
    }
  }

  // ----- requests -----

  /** What a frame asks: a request of a session, in this interface version. */
  ghost predicate Asks(q: Frame, session: int, request: int) {
    && FieldsFit(q) && q.kind == KEEPALIVE
    && Stated(q, "sid") == Some(session) && Stated(q, "req") == Some(request)
    && Stated(q, "rver") == Some(INTERFACE_VERSION)
  }

  /** The host is shown the same bytes, in a keepalive frame with the same counters. */
  ghost predicate ShownToHost(b: Bridge, r: Bridge, q: Frame) {
    exists k :: |b.usb.frames| <= k < |r.usb.frames| && SameText(r.usb.frames[k], q)
  }

  predicate SameText(u: UsbFrame, q: Frame) {
    && u.kind == KEEPALIVE && u.host == q.host && u.device == q.device
    && u.payload.Text? && Ascii(u.payload.text) == q.payload
  }

  /** One request went out, the one recorded last, with the session's counters, to client and host alike. */
  ghost predicate Requests(b: Bridge, r: Bridge, q: Frame) {
    && |r.s.sent| > 0
    && var t := r.s.sent[|r.s.sent| - 1];
    && Delivers(b, r, [q]) && Asks(q, t.session, t.request)
    && q.host == b.s.server && q.device == b.s.client && q.sequence == b.tcp.sequence
    && ShownToHost(b, r, q)
  }

  /** What is recorded as sent is what is pending, and one such request went out. */
  ghost predicate SentWell(b: Bridge, r: Bridge) {
    && |r.s.sent| > 0
    && r.s.sent[|r.s.sent| - 1].session == r.s.session == b.s.session
    && r.s.sent[|r.s.sent| - 1].request == r.s.pendingRequest
    && exists q :: Requests(b, r, q)
  }

  lemma PayloadAsks(m: Meta, host: u32, device: u32, sequence: u16)
    ensures Asks(Frame(KEEPALIVE, host, device, sequence, Ascii(Payload("ka_req", m))), m.session, m.request)
  {
    hide Payload, PayloadText, Ascii, HostText.AllSmall;
    PayloadFits("ka_req", m);
    SmallPayload("ka_req", m);
    SmallText(Payload("ka_req", m));
    PayloadTextOf(Payload("ka_req", m));
    BridgeReadsBack("ka_req", m);
  }

  /** A request that goes out whole is one frame, and asks for what is recorded as sent. */
  lemma KeepaliveSent(b: Bridge, reuse: bool, clock: Clock)
    requires b.s.attached && b.s.session != 0 && Wired(b)
    requires EvenUp(b.s.server) == b.s.server && OddUp(b.s.client) == b.s.client
    ensures var r := SendKeepalive(b, reuse, Sent, clock);
            |r.s.sent| == |b.s.sent| + 1 && SentWell(b, r)
  {
    var b1 := b.(s := Requested(b.s, reuse, clock));
    var m := MetaOf(b1, b1.s.pendingRequest);
    var text := Payload("ka_req", m);
    var q := ToClient(b1, KEEPALIVE, Ascii(text));
    hide EnterState, Payload, Ascii, SendTcp, Asks;
    SendDelivers(b1, KEEPALIVE, Ascii(text));
    PayloadAsks(m, b1.s.server, b1.s.client, b1.tcp.sequence);
    var b2 := SendTcp(b1, KEEPALIVE, Ascii(text), Sent);
    var r := SendKeepalive(b, reuse, Sent, clock);
    var k := |b.usb.frames|;
    assert Notify(b2, KEEPALIVE, text).usb.frames[k]
           == UsbFrame(KEEPALIVE, b.s.server, b.s.client, b2.usb.sequence, UsbPayload.Text(text));
    assert SameText(r.usb.frames[k], q);
    assert Requests(b, r, q);
  }

  lemma HandshakeAsksNothing(b: Bridge, transport: Transport, f: Frame, env: Env)
    requires FieldsFit(f)
    ensures HandleReset(b, transport, f, env.fate).s.sent == b.s.sent
    ensures HandleInitialize(b, transport, f, env.fate).s.sent == b.s.sent
    ensures HandleConnect(b, transport, f, env.fate).s.sent == b.s.sent
    ensures HandleDisconnect(b, transport, f, env.fate).s.sent == b.s.sent
  {
    hide HandleReset, HandleInitialize, HandleConnect, HandleDisconnect, DataVersion;
  }

  lemma TrafficAsksNothing(b: Bridge, transport: Transport, f: Frame, env: Env)
    requires FieldsFit(f)
    ensures HandleKeepalive(b, transport, f, env).s.sent == b.s.sent
    ensures HandleUsbData(b, f, env).s.sent == b.s.sent && HandleTcpData(b, f, env).s.sent == b.s.sent
  {
    hide HandleKeepalive, HandleUsbData, HandleTcpData, Judge, EvenUp, Inc32;
  }

  lemma FrameAsksNothing(b: Bridge, transport: Transport, f: Frame, env: Env)
    requires FieldsFit(f)
    ensures HandleFrame(b, transport, f, env).s.sent == b.s.sent
  {
    hide HandleReset, HandleInitialize, HandleConnect, HandleDisconnect, HandleKeepalive, HandleUsbData, HandleTcpData;
    HandshakeAsksNothing(b, transport, f, env);
    TrafficAsksNothing(b, transport, f, env);
    if f.kind !in {RESET, INITIALIZE, CONNECT, DISCONNECT, KEEPALIVE, DATA} {
      OtherAsksNothing(b, transport, f, env);
    }
  }

  lemma OtherAsksNothing(b: Bridge, transport: Transport, f: Frame, env: Env)
    requires FieldsFit(f) && f.kind !in {RESET, INITIALIZE, CONNECT, DISCONNECT, KEEPALIVE, DATA}
    ensures HandleFrame(b, transport, f, env).s.sent == b.s.sent
  {
    hide Reply, EnterState;
  }

  lemma OnlyClockAsks(b: Bridge, e: Event, env: Env)
    requires GoodEvent(e)
    ensures e.Engine? || e.Watchdog? || Step(b, e, env).s.sent == b.s.sent
  {
    hide HandleFrame, Accept, CloseClient, EngineTick, WatchdogTick, Notify;
    match e
    case UsbFrameIn(f) => FrameAsksNothing(b, Usb, f, env);
    case TcpFrame(f) => FrameAsksNothing(b, Tcp, f, env);
    case _ =>
  }

  lemma LaterRequests(b: Bridge, b2: Bridge, r: Bridge)
    requires SentWell(b2, r) && b2.tcp == b.tcp && b.usb.frames <= b2.usb.frames
    requires b2.s.server == b.s.server && b2.s.client == b.s.client && b2.s.session == b.s.session
    ensures SentWell(b, r)
  {
    hide Asks;
    var q :| Requests(b2, r, q);
    var k :| |b2.usb.frames| <= k < |r.usb.frames| && SameText(r.usb.frames[k], q);
    assert ShownToHost(b, r, q);
    assert Requests(b, r, q);
  }

  lemma EngineOnWire(b: Bridge, env: Env)
    requires SessionInv(b.s) && Roomy(b.s) && Wired(b) && env.fate.Sent?
    ensures |EngineTick(b, env).s.sent| > |b.s.sent| ==> SentWell(b, EngineTick(b, env))
  {
    if Live(b.s) {
      ParityHolds(b.s);
      hide SendKeepalive, EvenUp, OddUp, SentWell, LiveInv;
      if RequestDue(b.s, env.clock.enter) && b.s.session != 0 {
        KeepaliveSent(b, false, env.clock);
      }
    }
  }

  lemma RetryOnWire(b: Bridge, env: Env)
    requires Live(b.s) && SessionInv(b.s) && Roomy(b.s) && Wired(b) && env.fate.Sent?
    ensures var b1 := RecordError(b.(s := b.s.(retries := Inc32(b.s.retries))));
            SentWell(b, SendKeepalive(EnterState(b1, ServerSend), true, Sent, env.clock))
  {
    ParityHolds(b.s);
    hide SendKeepalive, EnterState, EvenUp, OddUp, SentWell, LiveInv;
    var b2 := EnterState(RecordError(b.(s := b.s.(retries := Inc32(b.s.retries)))), ServerSend);
    SameWires(b, b2);
    assert b.s.session != 0 by { SessionOpen(b.s); }
    KeepaliveSent(b2, true, env.clock);
    LaterRequests(b, b2, SendKeepalive(b2, true, Sent, env.clock));
  }

  lemma SessionOpen(s: Session)
    requires Live(s) && SessionInv(s)
    ensures s.session != 0
  {
  }

  lemma WatchdogOnWire(b: Bridge, env: Env)
    requires SessionInv(b.s) && Roomy(b.s) && Wired(b) && env.fate.Sent?
    ensures |WatchdogTick(b, env).s.sent| > |b.s.sent| ==> SentWell(b, WatchdogTick(b, env))
  {
    if Live(b.s) {
      RetryOnWire(b, env);
    }
    hide SendKeepalive, EnterState, Teardown, WindowExpired, SentWell, SessionInv;
  }

  /**
   Any step that sends a request whole puts exactly one frame on the connection: it states session,
   request and version as recorded and pending, with the session's counters; and the host is shown the same bytes.
   */
  lemma RequestOnWire(b: Bridge, e: Event, env: Env)
    requires GoodEvent(e) && SessionInv(b.s) && Roomy(b.s) && Wired(b) && env.fate.Sent?
    requires |Step(b, e, env).s.sent| > |b.s.sent|
    ensures SentWell(b, Step(b, e, env))
  {
    OnlyClockAsks(b, e, env);
    hide SentWell, SessionInv, Roomy, Wired, EngineTick, WatchdogTick;
    if e.Engine? {
      EngineOnWire(b, env);
    } else {
      WatchdogOnWire(b, env);
    }
  }

  lemma SameWires(b: Bridge, r: Bridge)
    requires Wired(b) && r.tcp == b.tcp && r.s.attached == b.s.attached
    ensures Wired(r)
  {
  }

  // ----- the request a client has received -----

  /** The last keepalive frame on a connection. */
  function LastRequest(frames: seq<Frame>): Option<Frame> {
    if frames == [] then None
    else if frames[|frames| - 1].kind == KEEPALIVE then Some(frames[|frames| - 1])
    else LastRequest(frames[..|frames| - 1])
  }

  lemma RequestStays(frames: seq<Frame>, f: Frame)
    ensures LastRequest(frames + [f]) == if f.kind == KEEPALIVE then Some(f) else LastRequest(frames)
  {
    assert (frames + [f])[..|frames|] == frames;
  }

  /** The request asks for what is pending, with the counters a response must carry on. */
  ghost predicate Names(q: Frame, s: Session) {
    Asks(q, s.session, s.pendingRequest) && q.host == s.server && q.device == s.client
  }

  function RequestOn(wires: seq<Wire>): Option<Frame> {
    if |wires| == 0 then None else LastRequest(wires[|wires| - 1].frames)
  }

  /** The last request the client has received. */
  function Received(b: Bridge): Option<Frame> {
    RequestOn(b.tcp.wires)
  }

  ghost predicate Awaits(s: Session) {
    Live(s) && s.state.ClientReturn?
  }

  ghost predicate AskedWell(b: Bridge) {
    Awaits(b.s) ==> Received(b).Some? && Names(Received(b).value, b.s)
  }

  /** A send of another kind leaves the request the client has received. */
  lemma SendKeepsRequest(b: Bridge, kind: int, payload: seq<byte>, fate: Fate)
    requires 0 <= kind < 0x100 && kind != KEEPALIVE
    ensures Breaks(b, fate) || Received(SendTcp(b, kind, payload, fate)) == Received(b)
  {
    hide CloseClient;
    if b.s.attached && |b.tcp.wires| > 0 {
      RequestStays(b.tcp.wires[|b.tcp.wires| - 1].frames, ToClient(b, kind, payload));
    }
  }

  /** While the same request is awaited: the same session, and the same request received. */
  ghost predicate SameAsking(b: Bridge, r: Bridge) {
    && r.s.session == b.s.session && r.s.pendingRequest == b.s.pendingRequest && r.s.server == b.s.server
    && r.s.client == b.s.client && Received(r) == Received(b) && Awaits(b.s)
  }

  lemma UsbDataKeepsRequest(b: Bridge, f: Frame, env: Env)
    requires FieldsFit(f) && Awaits(HandleUsbData(b, f, env).s)
    ensures SameAsking(b, HandleUsbData(b, f, env))
  {
    hide EmitUsb, DisableWifi, EnableWifi, EnableFails, TelemetryReply, PayloadText, CommandOf, SendTcp, RequestOn,
         Transmit;
    SendKeepsRequest(b, DATA, f.payload, env.fate);
  }

  lemma TcpDataKeepsRequest(b: Bridge, f: Frame, env: Env)
    requires FieldsFit(f) && Awaits(HandleTcpData(b, f, env).s)
    ensures SameAsking(b, HandleTcpData(b, f, env))
  {
    hide EmitUsb, SendTcp, Ascii, RequestOn, Transmit;
    var b1 := EmitUsb(b, DATA, f.sequence, Forwarded(f.payload));
    SendKeepsRequest(b, ACK, Ascii("data_ack"), env.fate);
    SendKeepsRequest(RecordError(b), ACK, Ascii("data_ignored_not_in_keepalive_session"), env.fate);
    SendKeepsRequest(b1, ACK, Ascii("data_forwarded_usb"), env.fate);
  }

  lemma OtherKeepsRequest(b: Bridge, transport: Transport, f: Frame, env: Env)
    requires FieldsFit(f) && f.kind !in {RESET, INITIALIZE, CONNECT, DISCONNECT, KEEPALIVE, DATA}
    requires Awaits(HandleFrame(b, transport, f, env).s)
    ensures SameAsking(b, HandleFrame(b, transport, f, env))
  {
    hide EmitUsb, EnterState, SendTcp, Ascii, RequestOn, Transmit;
    SendKeepsRequest(RecordError(b), ERROR, Ascii("unsupported"), env.fate);
  }

  lemma KeepaliveKeepsRequest(b: Bridge, transport: Transport, f: Frame, env: Env)
    requires FieldsFit(f) && Awaits(HandleKeepalive(b, transport, f, env).s)
    ensures SameAsking(b, HandleKeepalive(b, transport, f, env))
  {
    hide EmitUsb, Complete, VersionFault, Judge;
  }

  lemma FrameKeepsRequest(b: Bridge, transport: Transport, f: Frame, env: Env)
    requires FieldsFit(f) && Awaits(HandleFrame(b, transport, f, env).s)
    ensures SameAsking(b, HandleFrame(b, transport, f, env))
  {
    hide HandleReset, HandleInitialize, HandleConnect, HandleDisconnect, HandleKeepalive, HandleUsbData, HandleTcpData,
         Received, DataVersion, Judge, Reply, EnterState;
    if f.kind == KEEPALIVE {
      KeepaliveKeepsRequest(b, transport, f, env);
    } else if f.kind == DATA {
      if transport.Usb? {
        UsbDataKeepsRequest(b, f, env);
      } else {
        TcpDataKeepsRequest(b, f, env);
      }
    } else if f.kind !in {RESET, INITIALIZE, CONNECT, DISCONNECT, KEEPALIVE, DATA} {
      OtherKeepsRequest(b, transport, f, env);
    }
  }

  lemma ClockKeepsRequest(b: Bridge, env: Env)
    requires SessionInv(b.s)
    ensures var r := EngineTick(b, env); Awaits(r.s) && r.s.sent == b.s.sent ==> SameAsking(b, r)
    ensures var r := WatchdogTick(b, env); Awaits(r.s) && r.s.sent == b.s.sent ==> SameAsking(b, r)
  {
    hide SendKeepalive, EnterState, Teardown, WindowExpired, EvenUp, OddUp;
  }

  lemma StepKeepsRequest(b: Bridge, e: Event, env: Env)
    requires GoodEvent(e) && SessionInv(b.s) && Step(b, e, env).s.sent == b.s.sent && Awaits(Step(b, e, env).s)
    ensures SameAsking(b, Step(b, e, env))
  {
    hide HandleFrame, Accept, CloseClient, EngineTick, WatchdogTick, Notify, SameAsking, Received;
    match e
    case UsbFrameIn(f) => FrameKeepsRequest(b, Usb, f, env);
    case TcpFrame(f) =>
      if b.wifiEnabled && b.s.attached {
        FrameKeepsRequest(b, Tcp, f, env);
      } else {
        SameAsks(b);
      }
    case Accepts => SameAsks(b);
    case PeerCloses => SameAsks(b);
    case BadStream(_) => SameAsks(b);
    case Engine =>
      SameAsks(b);
      ClockKeepsRequest(b, env);
    case Watchdog =>
      SameAsks(b);
      ClockKeepsRequest(b, env);
  }

  lemma SameAsks(b: Bridge)
    ensures Awaits(b.s) ==> SameAsking(b, b)
  {
  }

  lemma StepAsksWell(b: Bridge, e: Event, env: Env)
    requires GoodEvent(e) && SessionInv(b.s) && Roomy(b.s) && Wired(b) && AskedWell(b)
    ensures AskedWell(Step(b, e, env))
  {
    var r := Step(b, e, env);
    if Awaits(r.s) {
      if r.s.sent == b.s.sent {
        hide Step, Names, Received, SessionInv, Roomy, Wired;
        StepKeepsRequest(b, e, env);
        assert AskedWell(r) by { SameNames(b, r); }
      } else {
        NewAsksWell(b, e, env);
      }
    }
  }

  lemma SameNames(b: Bridge, r: Bridge)
    requires AskedWell(b) && SameAsking(b, r)
    ensures AskedWell(r)
  {
    hide Received, Asks;
  }

  lemma NewAsksWell(b: Bridge, e: Event, env: Env)
    requires GoodEvent(e) && SessionInv(b.s) && Roomy(b.s) && Wired(b)
    requires Awaits(Step(b, e, env).s) && Step(b, e, env).s.sent != b.s.sent
    ensures AskedWell(Step(b, e, env))
  {
    hide Step, SessionInv, Roomy, Wired, SentWell, AskedWell;
    OnlyClockAsks(b, e, env);
    ClockSends(b, e, env);
    RequestOnWire(b, e, env);
    RequestAsksWell(b, Step(b, e, env));
  }

  lemma RequestAsksWell(b: Bridge, r: Bridge)
    requires SentWell(b, r) && r.s.server == b.s.server && r.s.client == b.s.client
    ensures AskedWell(r)
  {
    hide Asks, ShownToHost;
    var q :| Requests(b, r, q);
    AsksKind(q, r.s.session, r.s.pendingRequest);
    RequestStays(b.tcp.wires[|b.tcp.wires| - 1].frames, q);
  }

  lemma AsksKind(q: Frame, session: int, request: int)
    requires Asks(q, session, request)
    ensures q.kind == KEEPALIVE
  {
    hide PayloadText, Metadata.BridgeParse;
  }

  lemma ClockSends(b: Bridge, e: Event, env: Env)
    requires (e.Engine? || e.Watchdog?) && SessionInv(b.s) && Roomy(b.s)
    requires Awaits(Step(b, e, env).s) && Step(b, e, env).s.sent != b.s.sent
    ensures var r := Step(b, e, env).s;
            env.fate.Sent? && |r.sent| > |b.s.sent| && r.server == b.s.server && r.client == b.s.client
  {
    if Live(b.s) {
      ParityHolds(b.s);
    }
    hide SendKeepalive, EnterState, Teardown, WindowExpired, EvenUp, OddUp;
  }

  lemma BootAsks()
    ensures AskedWell(Boot())
  {
    hide Received, Names;
  }

  lemma {:induction false} RunAsksWell(script: seq<Tick>, states: seq<Bridge>, k: nat)
    requires FromPowerOn(script, states) && k <= |script|
    ensures AskedWell(states[k])
  {
    hide Step, Boot, AskedWell, Roomy, Moves, SessionInv, Wired;
    if k == 0 {
      BootAsks();
    } else {
      RunAsksWell(script, states, k - 1);
      RunWired(script, states, k - 1);
      MoveAt(script, states, k - 1);
      StepAsksWell(states[k - 1], script[k - 1].event, script[k - 1].env);
    }
  }

  /** What a client that echoes makes of a request: its session, number and version, and its own counter moved on. */
  function EchoOf(q: Frame, sequence: u16): (f: Frame)
    requires FieldsFit(q) && Stated(q, "sid").Some? && Stated(q, "req").Some?
    requires Stated(q, "sid").value < Text.U32 && Stated(q, "req").value < Text.U32 && q.host + 1 < Text.U32
    ensures FieldsFit(f)
  {
    var m := Meta(Stated(q, "sid").value, Stated(q, "req").value, 0, 0, 0);
    Frame(KEEPALIVE, q.host, q.host + 1, sequence, Ascii(Payload("ka_resp", m)))
  }

  /**
   In every reached state that awaits a response, first try or retry: the client has received the
   request that is awaited, and if it echoes what that frame states, the exchange completes.
   */
  lemma EchoOfWireCompletes(script: seq<Tick>, states: seq<Bridge>, sequence: u16, env: Env)
    requires FromPowerOn(script, states)
    requires Awaits(states[|script|].s) && Roomy(states[|script|].s)
    ensures var b := states[|script|];
            && Received(b).Some? && Names(Received(b).value, b.s)
            && var q := Received(b).value;
            && q.host + 1 < Text.U32
            && HandleKeepalive(b, Tcp, EchoOf(q, sequence), env).s.completed
               == b.s.completed + [Exchange(b.s.session, b.s.pendingRequest)]
  {
    var b := states[|script|];
    RunAsksWell(script, states, |script|);
    SessionAt(script, states, |script|);
    var q := Received(b).value;
    assert q.host == 2 * b.s.lastCompleted && q.host + 1 < Text.U32;
    EchoIsEcho(q, b.s, sequence);
    hide Step, Boot, HandleKeepalive, Payload, Echo, EchoOf, Received;
    EchoCompletes(b, Meta(b.s.session, b.s.pendingRequest, 0, 0, 0), sequence, env);
  }

  lemma EchoIsEcho(q: Frame, s: Session, sequence: u16)
    requires Names(q, s) && q.host == 2 * s.lastCompleted && q.host + 1 < Text.U32
    ensures EchoOf(q, sequence) == Echo(s, Meta(s.session, s.pendingRequest, 0, 0, 0), sequence)
  {
    hide Payload, Metadata.BridgeParse, PayloadText;
  }

  // ----- data passed on -----

  lemma UsbDataStep(b: Bridge, f: Frame, env: Env)
    requires Parsed(f) && f.kind == DATA
    ensures Step(b, UsbFrameIn(f), env) == HandleUsbData(b, f, env)
  {
    hide HandleReset, HandleInitialize, HandleConnect, HandleDisconnect, HandleKeepalive, HandleTcpData, HandleUsbData,
         Reply, EnterState, Accept, CloseClient, EngineTick, WatchdogTick, Notify;
  }

  lemma TcpDataStep(b: Bridge, f: Frame, env: Env)
    requires Parsed(f) && f.kind == DATA && b.s.attached && b.wifiEnabled
    ensures Step(b, TcpFrame(f), env) == HandleTcpData(b, f, env)
  {
    hide HandleReset, HandleInitialize, HandleConnect, HandleDisconnect, HandleKeepalive, HandleTcpData, HandleUsbData,
         Reply, EnterState, Accept, CloseClient, EngineTick, WatchdogTick, Notify;
  }

  /** A reply to the host: its own sequence number, the session's counters. */
  function ToHost(b: Bridge, kind: byte, f: Frame, payload: UsbPayload): UsbFrame
    requires FieldsFit(f)
  {
    UsbFrame(kind, b.s.server, b.s.client, f.sequence, payload)
  }

  /** A packet of the binary downlink stream; the host gets no reply to it. */
  predicate Downlink(payload: seq<byte>) {
    |payload| > 0 && payload[0] == MAGIC_DOWNLINK
  }

  /** A packet of the binary uplink stream; the client gets no reply to it. */
  predicate UplinkPacket(payload: seq<byte>) {
    |payload| > 0 && payload[0] == MAGIC_UPLINK
  }

  /**
   In a live session whatever data the host sends, other than the bridge's own commands, is what the
   client receives: one DATA frame with the same bytes, the session's counters and the next number.
   Text is acknowledged to the host, packets of the downlink stream are not.
   */
  lemma HostDataReachesClient(b: Bridge, f: Frame, env: Env)
    requires Parsed(f) && f.kind == DATA && |f.payload| > 0 && CommandOf(PayloadText(f.payload)).NoCommand?
    requires Live(b.s) && b.s.session != 0 && Wired(b) && env.fate.Sent?
    ensures var r := Step(b, UsbFrameIn(f), env);
            && r.s == b.s && r.tele == b.tele
            && Delivers(b, r, [ToClient(b, DATA, f.payload)])
            && Writes(b, r, if Downlink(f.payload) then [] else [ToHost(b, ACK, f, UsbPayload.Text("data_forwarded_tcp"))])
  {
    UsbDataStep(b, f, env);
    SendDelivers(b, DATA, f.payload);
    hide Step, SendTcp, PayloadText, CommandOf, DisableWifi, EnableWifi, EnableFails, TelemetryReply;
  }

  /** Without one nothing reaches the client; text is turned down, and either counts as an error. */
  lemma HostDataRefused(b: Bridge, f: Frame, env: Env)
    requires Parsed(f) && f.kind == DATA && |f.payload| > 0 && CommandOf(PayloadText(f.payload)).NoCommand?
    requires !SessionActive(b.s)
    ensures var r := Step(b, UsbFrameIn(f), env);
            && r.s == b.s && r.tcp == b.tcp && r.tele.errors == Inc32(b.tele.errors)
            && Writes(b, r, if Downlink(f.payload) then []
                            else [ToHost(b, ACK, f, UsbPayload.Text("data_ignored_not_in_keepalive_session"))])
  {
    UsbDataStep(b, f, env);
    hide Step, SendTcp, PayloadText, CommandOf, DisableWifi, EnableWifi, EnableFails, TelemetryReply;
  }

  /**
   In a live session whatever data the client sends is what the host receives: one DATA frame with the
   same bytes, the client's number and the session's counters. Text is acknowledged to the client.
   */
  lemma ClientDataReachesHost(b: Bridge, f: Frame, env: Env)
    requires Parsed(f) && f.kind == DATA && |f.payload| > 0
    requires Live(b.s) && b.s.session != 0 && b.wifiEnabled && Wired(b) && env.fate.Sent?
    ensures var r := Step(b, TcpFrame(f), env);
            && r.s == b.s && r.tele == b.tele
            && Writes(b, r, [ToHost(b, DATA, f, Forwarded(f.payload))])
            && Delivers(b, r, if UplinkPacket(f.payload) then [] else [ToClient(b, ACK, Ascii("data_forwarded_usb"))])
  {
    TcpDataStep(b, f, env);
    var b1 := EmitUsb(b, DATA, f.sequence, Forwarded(f.payload));
    SendDelivers(b1, ACK, Ascii("data_forwarded_usb"));
    hide Step, SendTcp, Ascii;
    if UplinkPacket(f.payload) {
      NothingDelivered(b, Step(b, TcpFrame(f), env));
    }
  }

  lemma NothingDelivered(b: Bridge, r: Bridge)
    requires |b.tcp.wires| > 0 && r.tcp == b.tcp
    ensures Delivers(b, r, [])
  {
    var n := |b.tcp.wires| - 1;
    assert b.tcp.wires[n].frames + [] == b.tcp.wires[n].frames;
  }

  /** Without one nothing reaches the host; text is turned down, and either counts as an error. */
  lemma ClientDataRefused(b: Bridge, f: Frame, env: Env)
    requires Parsed(f) && f.kind == DATA && |f.payload| > 0
    requires b.s.attached && !SessionActive(b.s) && b.wifiEnabled && Wired(b) && env.fate.Sent?
    ensures var r := Step(b, TcpFrame(f), env);
            && r.s == b.s && r.tele.errors == Inc32(b.tele.errors) && r.usb == b.usb
            && Delivers(b, r, if UplinkPacket(f.payload) then []
                              else [ToClient(b, ACK, Ascii("data_ignored_not_in_keepalive_session"))])
  {
    TcpDataStep(b, f, env);
    SendDelivers(RecordError(b), ACK, Ascii("data_ignored_not_in_keepalive_session"));
    hide Step, SendTcp, Ascii;
    if UplinkPacket(f.payload) {
      NothingDelivered(b, Step(b, TcpFrame(f), env));
    }
  }

  // ----- a completed exchange -----

  /** The realtime packet as a client takes it apart: version, number, the length of the samples, the samples. */
  lemma RealtimeFields(number: u32, samples: seq<byte>)
    ensures var p := RealtimePayload(number, samples);
            && |p| == 10 + |samples|
            && FromLe(p[..4]) == INTERFACE_VERSION && FromLe(p[4..8]) == number && FromLe(p[8..10]) == 160
            && p[10..] == samples
  {
    var p := RealtimePayload(number, samples);
    var a, c, d := ToLe(INTERFACE_VERSION, 4), ToLe(number, 4), ToLe(160, 2);
    assert p == a + c + d + samples;
    assert p[..4] == a && p[4..8] == c && p[8..10] == d && p[10..] == samples;
    hide ToLe, FromLe;
    LeReads(number);
  }

  lemma LeReads(number: u32)
    ensures FromLe(ToLe(INTERFACE_VERSION, 4)) == INTERFACE_VERSION && FromLe(ToLe(number, 4)) == number
    ensures FromLe(ToLe(160, 2)) == 160
  {
    assert Pow256(4) == 0x1_0000_0000 && Pow256(2) == 0x1_0000;
    hide ToLe, FromLe;
    FromToLe(INTERFACE_VERSION, 4);
    FromToLe(number, 4);
    FromToLe(160, 2);
  }

  lemma AcceptedStep(b: Bridge, f: Frame, env: Env)
    requires Parsed(f) && f.kind == KEEPALIVE && b.s.attached && b.wifiEnabled && Judge(b.s, f).Accepted?
    ensures Step(b, TcpFrame(f), env) == Complete(b, f, env)
  {
    hide HandleReset, HandleInitialize, HandleConnect, HandleDisconnect, HandleTcpData, HandleUsbData, Complete, Judge,
         Reply, EnterState, Accept, CloseClient, EngineTick, WatchdogTick, Notify, VersionFault, PayloadText, DataVersion;
  }

  /** The delay of an answer in milliseconds, rounded up, since the end of the last transmission. */
  function AnswerDelay(s: Session, now: int): int
    requires |s.sent| > 0
  {
    var elapsed := now - s.sent[|s.sent| - 1].end;
    if elapsed <= 0 then 0 else (elapsed + 999) / 1000
  }

  /**
   What a completed exchange brings about: the client gets the next realtime packet and nothing else;
   the delay since the request is kept, and with it the longest; nothing counts as an error.
   */
  lemma CompletionOnWire(b: Bridge, f: Frame, env: Env, now: int)
    requires Parsed(f) && f.kind == KEEPALIVE && b.wifiEnabled && Wired(b) && env.fate.Sent?
    requires Live(b.s) && b.s.state.ClientReturn? && Kept(b.s, now) && Roomy(b.s) && Judge(b.s, f).Accepted?
    requires |b.s.sent| > 0 && 0 <= AnswerDelay(b.s, env.clock.enter) < 0x8000_0000
    ensures var r := Step(b, TcpFrame(f), env);
            var delay := AnswerDelay(b.s, env.clock.enter);
            && Delivers(b, r, [Frame(DATA, b.s.server + 2, b.s.server + 1, b.tcp.sequence,
                                     RealtimePayload(b.rt.sequence, env.samples))])
            && r.rt == Realtime(Inc32(b.rt.sequence), true)
            && r.tele.lastDelay == delay && r.tele.errors == b.tele.errors
            && r.tele.maxDelay == if delay > b.tele.maxDelay then delay else b.tele.maxDelay
  {
    hide Step, Judge, Kept, DelayMs, Answered, AnswerDelay, Complete, Roomy, RealtimePayload, ToI32;
    AcceptedStep(b, f, env);
    JudgeAccepts(b.s, f);
    DelayIs(b.s, env.clock.enter, now);
    AnsweredParity(b.s, now);
    CompleteOnWire(b, f, env);
  }

  lemma DelayIs(s: Session, at: int, now: int)
    requires Live(s) && s.state.ClientReturn? && Kept(s, now) && |s.sent| > 0 && 0 <= AnswerDelay(s, at) < 0x8000_0000
    ensures DelayMs(s, at) == AnswerDelay(s, at) && ToI32(DelayMs(s, at)) == AnswerDelay(s, at)
  {
    assert s.lastTx == s.sent[|s.sent| - 1].end && s.lastTx > 0;
  }

  lemma AnsweredParity(s: Session, now: int)
    requires Live(s) && s.state.ClientReturn? && Kept(s, now) && Roomy(s)
    ensures var r := Answered(s, Inc32(s.server)); r.server == s.server + 2 && r.client == s.server + 1 && r.attached
  {
  }

  lemma CompleteOnWire(b: Bridge, f: Frame, env: Env)
    requires FieldsFit(f) && Wired(b) && b.s.attached && env.fate.Sent?
    ensures var r, s1 := Complete(b, f, env), Answered(b.s, f.device);
            var delay := DelayMs(b.s, env.clock.enter);
            && Delivers(b, r, [Frame(DATA, s1.server, s1.client, b.tcp.sequence,
                                     RealtimePayload(b.rt.sequence, env.samples))])
            && r.rt == Realtime(Inc32(b.rt.sequence), true)
            && r.tele.lastDelay == ToI32(delay) && r.tele.errors == b.tele.errors
            && r.tele.maxDelay == if delay > b.tele.maxDelay then delay else b.tele.maxDelay
  {
    hide Notify, Payload, DelayMs, ToI32, RealtimePayload, TelemetryText, SendTcp;
    var delay := DelayMs(b.s, env.clock.enter);
    var longest := if delay > b.tele.maxDelay then delay else b.tele.maxDelay;
    var b1 := b.(s := Answered(b.s, f.device), tele := b.tele.(lastDelay := ToI32(delay), maxDelay := longest));
    EnterSend(b1);
    var b2 := EnterState(b1, ServerSend);
    hide EnterState;
    var b3 := Notify(b2, KEEPALIVE, Payload("ka_resp", MetaOf(b2, b2.s.lastCompleted)));
    SendDelivers(b3.(rt := b3.rt.(sequence := Inc32(b3.rt.sequence))), DATA, RealtimePayload(b3.rt.sequence, env.samples));
  }

  lemma EnterSend(b: Bridge)
    ensures var r := EnterState(b, ServerSend);
            r.tele == b.tele && r.rt == b.rt && r.tcp == b.tcp && r.s == b.s.(state := ServerSend)
  {
    hide Notify, TelemetryText;
  }
}
