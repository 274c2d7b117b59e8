/** What the client reads: whole frames numbered without a break, and at most one partial frame, at the very end. */
module BridgeWires {
  import opened Bytes
  import opened Frames
  import opened KeepaliveText
  import opened Bridge
  import BridgeRuns
  import PythonStream
  import Text
  import PythonCodec
  import UsbStream

  ghost predicate Numbered(frames: seq<Frame>) {
    forall i :: 0 <= i < |frames| ==>
      PythonStream.Sendable(frames[i]) && |frames[i].payload| <= UsbStream.MAX_PAYLOAD
      && frames[i].sequence == i % 0x1_0000
  }

  /** The reply to a RESET of the client, which closes the connection, starts its own numbering. */
  ghost predicate ResetAck(f: Frame) {
    f.kind == ACK && f.host == 0 && f.device == 0 && f.sequence == 0 && f.payload == Ascii("reset_ack")
  }

  /** f may come after the frames. */
  ghost predicate Continues(frames: seq<Frame>, f: Frame) {
    && PythonStream.Sendable(f) && |f.payload| <= UsbStream.MAX_PAYLOAD
    && (f.sequence == |frames| % 0x1_0000 || ResetAck(f))
  }

  ghost predicate CutFrom(tail: seq<byte>, f: Frame) {
    FieldsFit(f) && |tail| < |Encode(f)| && tail == Encode(f)[..|tail|]
  }

  ghost predicate OpenWire(w: Wire) {
    Numbered(w.frames) && w.tail == []
  }

  ghost predicate LastMayReset(frames: seq<Frame>) {
    Numbered(frames) || (|frames| > 0 && Numbered(frames[..|frames| - 1]) && ResetAck(frames[|frames| - 1]))
  }

  ghost predicate ClosedWire(w: Wire) {
    || (LastMayReset(w.frames) && w.tail == [])
    || (Numbered(w.frames) && exists f :: CutFrom(w.tail, f) && Continues(w.frames, f))
  }

  ghost predicate WiresInv(attached: bool, t: TcpSide) {
    var n := |t.wires|;
    && (forall i :: 0 <= i < n - 1 ==> ClosedWire(t.wires[i]))
    && (if attached
        then n > 0 && OpenWire(t.wires[n - 1]) && t.sequence == |t.wires[n - 1].frames| % 0x1_0000
        else n > 0 ==> ClosedWire(t.wires[n - 1]))
  }

  ghost predicate Good(b: Bridge) {
    WiresInv(b.s.attached, b.tcp)
  }

  // ----- one send -----

  ghost predicate Transmittable(kind: int, payload: seq<byte>) {
    KnownKind(kind) && |payload| <= UsbStream.MAX_PAYLOAD
  }

  lemma SendGood(b: Bridge, kind: int, payload: seq<byte>, fate: Fate)
    requires Good(b) && Transmittable(kind, payload)
    ensures Good(SendTcp(b, kind, payload, fate))
  {
    hide SendTcp, Encode;
    if b.s.attached {
      var n := |b.tcp.wires|;
      var w := b.tcp.wires[n - 1];
      var f := Frame(kind, b.s.server, b.s.client, b.tcp.sequence, payload);
      assert Continues(w.frames, f);
      match fate
      case Sent =>
        assert Numbered(w.frames + [f]);
      case Broken(cut) =>
        var tail := Encode(f)[..if cut < |Encode(f)| then cut else |Encode(f)| - 1];
        assert w.tail + tail == tail;
        assert CutFrom(tail, f);
    }
  }

  lemma CloseGood(b: Bridge)
    requires Good(b)
    ensures Good(CloseClient(b))
  {
    hide CloseClient;
  }

  lemma ReplyGood(b: Bridge, transport: Transport, kind: int, f: Frame, text: string, fate: Fate)
    requires Good(b) && FieldsFit(f) && KnownKind(kind) && |text| <= TEXT_MAX
    ensures Good(Reply(b, transport, kind, f, text, fate))
  {
    hide SendTcp, WiresInv;
    match transport
    case Usb =>
    case Tcp => SendGood(b, kind, Ascii(text), fate);
  }

  lemma FaultGood(b: Bridge, transport: Transport, f: Frame, fate: Fate)
    requires Good(b) && FieldsFit(f)
    ensures Good(VersionFault(b, transport, f, fate))
  {
    hide Reply, EnterState, Notify, WiresInv;
    ReplyGood(EnterState(RecordError(b), Error), transport, ERROR, f, "data_interface_version_mismatch", fate);
  }

  // ----- one handler at a time -----

  lemma ResetGood(b: Bridge, transport: Transport, f: Frame, fate: Fate)
    requires Good(b) && FieldsFit(f) && (transport.Tcp? ==> b.s.attached)
    ensures Good(HandleReset(b, transport, f, fate))
  {
    hide EnterState, CloseClient, SendTcp, HaltRealtime, Encode, Ascii;
    var r := HandleReset(b, transport, f, fate);
    if transport.Tcp? {
      var n := |b.tcp.wires|;
      var w := b.tcp.wires[n - 1];
      var ack := Frame(ACK, 0, 0, 0, Ascii("reset_ack"));
      assert Continues(w.frames, ack);
      match fate
      case Sent =>
        assert r.tcp.wires[n - 1] == w.(frames := w.frames + [ack]);
        assert (w.frames + [ack])[..|w.frames|] == w.frames;
      case Broken(cut) =>
        var tail := Encode(ack)[..if cut < |Encode(ack)| then cut else |Encode(ack)| - 1];
        assert w.tail + tail == tail;
        assert CutFrom(tail, ack);
    }
  }

  lemma InitializeGood(b: Bridge, transport: Transport, f: Frame, fate: Fate)
    requires Good(b) && FieldsFit(f)
    ensures Good(HandleInitialize(b, transport, f, fate))
  {
    hide Reply, EnterState, VersionFault, DataVersion, WiresInv;
    var b1 := EnterState(b, Initialize);
    var b2 := b1.(s := Idle(b1.s), rt := Realtime(0, false));
    FaultGood(b2, transport, f, fate);
    ReplyGood(b2.(s := b2.s.(peerVersion := INTERFACE_VERSION, peerVersionValid := true)),
              transport, ACK, f, "initialize_ack", fate);
  }

  lemma ConnectGood(b: Bridge, transport: Transport, f: Frame, fate: Fate)
    requires Good(b) && FieldsFit(f)
    ensures Good(HandleConnect(b, transport, f, fate))
  {
    hide Reply, EnterState, VersionFault, Notify, WiresInv, ConnectedText;
    var b1 := EnterState(b, Connect);
    var b2 := b1.(s := Opened(b1.s));
    FaultGood(b2, transport, f, fate);
    ConnectedFits(b2.s.session);
    ReplyGood(b2, transport, ACK, f, ConnectedText(b2.s.session), fate);
  }

  lemma ConnectedFits(session: u32)
    ensures |ConnectedText(session)| <= TEXT_MAX
  {
    Text.WordLength(session);
  }

  lemma DisconnectGood(b: Bridge, transport: Transport, f: Frame, fate: Fate)
    requires Good(b) && FieldsFit(f)
    ensures Good(HandleDisconnect(b, transport, f, fate))
  {
    hide Reply, EnterState, CloseClient, WiresInv;
    var b1 := EnterState(b, Disconnect);
    ReplyGood(b1, transport, ACK, f, "disconnect_ack", fate);
    CloseGood(Reply(b1, transport, ACK, f, "disconnect_ack", fate));
  }

  lemma RealtimeGood(b: Bridge, env: Env)
    requires Good(b) && |env.samples| <= 160
    ensures Good(SendRealtime(b, env))
  {
    hide SendTcp, HaltRealtime, WiresInv;
    FieldWidths();
    SendGood(b.(rt := b.rt.(sequence := Inc32(b.rt.sequence))), DATA, RealtimePayload(b.rt.sequence, env.samples),
             env.fate);
  }

  lemma KeepaliveGood(b: Bridge, transport: Transport, f: Frame, env: Env)
    requires Good(b) && FieldsFit(f) && |env.samples| <= 160
    ensures Good(HandleKeepalive(b, transport, f, env))
  {
    hide Reply, EnterState, SendRealtime, VersionFault, Notify, Judge, WiresInv, Payload, DelayMs, Answered, ToI32;
    ReplyGood(b, transport, ACK, f, "usb_keepalive_not_supported", env.fate);
    FaultGood(b, transport, f, env.fate);
    var delay := DelayMs(b.s, env.clock.enter);
    var longest := if delay > b.tele.maxDelay then delay else b.tele.maxDelay;
    var b1 := b.(s := Answered(b.s, f.device), tele := b.tele.(lastDelay := ToI32(delay), maxDelay := longest));
    var b2 := EnterState(b1, ServerSend);
    AnsweredAttached(b.s, f.device);
    RealtimeGood(Notify(b2, KEEPALIVE, Payload("ka_resp", MetaOf(b2, b2.s.lastCompleted))), env);
  }

  lemma AnsweredAttached(s: Session, device: u32)
    ensures Answered(s, device).attached == s.attached
  {
  }

  lemma DisableGood(b: Bridge)
    requires Good(b)
    ensures Good(DisableWifi(b))
  {
    hide EnterState, CloseClient, WiresInv;
    CloseGood(b);
  }

  lemma SameWires(b: Bridge, r: Bridge)
    requires Good(b) && r.s.attached == b.s.attached && r.tcp == b.tcp
    ensures Good(r)
  {
  }

  lemma UsbDataGood(b: Bridge, f: Frame, env: Env)
    requires Good(b) && Parsed(f)
    ensures Good(HandleUsbData(b, f, env))
  {
    hide DisableWifi, EnableWifi, EnableFails, TelemetryReply, EmitUsb, SendTcp, CommandOf, PayloadText, Good;
    var r := HandleUsbData(b, f, env);
    match CommandOf(PayloadText(f.payload))
    case DisableCommand =>
      DisableGood(b);
      SameWires(DisableWifi(b), r);
    case EnableCommand => SameWires(b, r);
    case ResetTelemetry => SameWires(b, r);
    case ResetMaxDelay => SameWires(b, r);
    case NoCommand => ForwardGood(b, f, env);
  }

  lemma ForwardGood(b: Bridge, f: Frame, env: Env)
    requires Good(b) && Parsed(f) && CommandOf(PayloadText(f.payload)).NoCommand?
    ensures Good(HandleUsbData(b, f, env))
  {
    hide DisableWifi, EnableWifi, EnableFails, TelemetryReply, EmitUsb, SendTcp, CommandOf, PayloadText, Good;
    var r := HandleUsbData(b, f, env);
    SendGood(b, DATA, f.payload, env.fate);
    var sent := SendTcp(b, DATA, f.payload, env.fate);
    if r.tcp == b.tcp && r.s == b.s {
      SameWires(b, r);
    } else {
      SameWires(sent, r);
    }
  }

  lemma TcpDataGood(b: Bridge, f: Frame, env: Env)
    requires Good(b) && Parsed(f)
    ensures Good(HandleTcpData(b, f, env))
  {
    hide SendTcp, WiresInv, Ascii;
    SendGood(b, ACK, Ascii("data_ack"), env.fate);
    SendGood(RecordError(b), ACK, Ascii("data_ignored_not_in_keepalive_session"), env.fate);
    SendGood(EmitUsb(b, DATA, f.sequence, Forwarded(f.payload)), ACK, Ascii("data_forwarded_usb"), env.fate);
  }

  lemma OtherGood(b: Bridge, transport: Transport, f: Frame, env: Env)
    requires Good(b) && FieldsFit(f) && f.kind !in {RESET, INITIALIZE, CONNECT, DISCONNECT, KEEPALIVE, DATA}
    ensures Good(HandleFrame(b, transport, f, env))
  {
    hide Reply, EnterState, WiresInv;
    ReplyGood(EnterState(RecordError(b), Error), transport, ACK, f, "error_ack", env.fate);
    ReplyGood(RecordError(b), transport, ERROR, f, "unsupported", env.fate);
  }

  lemma FrameGood(b: Bridge, transport: Transport, f: Frame, env: Env)
    requires Good(b) && Parsed(f) && (transport.Tcp? ==> b.s.attached) && |env.samples| <= 160
    ensures Good(HandleFrame(b, transport, f, env))
  {
    hide Good, HandleReset, HandleInitialize, HandleConnect, HandleDisconnect, HandleKeepalive, HandleUsbData,
         HandleTcpData;
    ResetGood(b, transport, f, env.fate);
    InitializeGood(b, transport, f, env.fate);
    ConnectGood(b, transport, f, env.fate);
    DisconnectGood(b, transport, f, env.fate);
    KeepaliveGood(b, transport, f, env);
    UsbDataGood(b, f, env);
    TcpDataGood(b, f, env);
    if f.kind !in {RESET, INITIALIZE, CONNECT, DISCONNECT, KEEPALIVE, DATA} {
      OtherGood(b, transport, f, env);
    }
  }

  lemma AcceptGood(b: Bridge, fate: Fate)
    requires Good(b)
    ensures Good(Accept(b, fate))
  {
    hide EnterState, CloseClient, SendTcp, Notify, Ascii;
    var b1 := if b.s.attached then CloseClient(b) else b;
    CloseGood(b);
    var joined := b1.(s := b1.s.(attached := true, lastTx := 0),
                      tcp := b1.tcp.(wires := b1.tcp.wires + [Wire([], [])]));
    var b2 := EnterState(joined, Connect);
    var b3 := b2.(s := Attached(b2.s), tcp := b2.tcp.(sequence := 0));
    assert Good(b3);
    SendGood(b3, ACK, Ascii("tcp_connected"), fate);
  }

  lemma ClockWorkGood(b: Bridge, env: Env)
    requires Good(b)
    ensures Good(EngineTick(b, env))
    ensures Good(WatchdogTick(b, env))
  {
    hide EnterState, CloseClient, SendKeepalive, Teardown, WiresInv, Requested;
    RequestGood(b, false, env);
    var b1 := RecordError(b.(s := b.s.(retries := Inc32(b.s.retries))));
    RequestGood(EnterState(b1, ServerSend), true, env);
    CloseGood(Notify(RecordError(b1), ERROR, "keepalive_retry_exhausted"));
  }

  lemma RequestGood(b: Bridge, reuse: bool, env: Env)
    requires Good(b)
    ensures Good(SendKeepalive(b, reuse, env.fate, env.clock))
  {
    hide EnterState, SendTcp, Notify, WiresInv, Payload, Ascii, EvenUp, OddUp;
    if b.s.attached && b.s.session != 0 {
      var b1 := b.(s := Requested(b.s, reuse, env.clock));
      var text := Payload("ka_req", MetaOf(b1, b1.s.pendingRequest));
      PayloadFits("ka_req", MetaOf(b1, b1.s.pendingRequest));
      SendGood(b1, KEEPALIVE, Ascii(text), env.fate);
    }
  }

  lemma StepGood(b: Bridge, e: Event, env: Env)
    requires Good(b) && GoodEvent(e) && |env.samples| <= 160
    ensures Good(Step(b, e, env))
  {
    hide WiresInv, HandleFrame, Accept, CloseClient, EngineTick, WatchdogTick, Notify;
    match e
    case UsbFrameIn(f) => FrameGood(b, Usb, f, env);
    case TcpFrame(f) =>
      if b.s.attached {
        FrameGood(b, Tcp, f, env);
      }
    case Accepts => AcceptGood(b, env.fate);
    case PeerCloses => CloseGood(b);
    case BadStream(parseFailed) =>
      var b1 := RecordError(b);
      CloseGood(if parseFailed then Notify(b1, ERROR, "tcp_frame_parse_failed") else b1);
    case Engine => ClockWorkGood(b, env);
    case Watchdog => ClockWorkGood(b, env);
  }

  // ----- whole runs -----

  /** The packed realtime samples have their fixed size. */
  predicate Packed(script: seq<BridgeRuns.Tick>) {
    forall k :: 0 <= k < |script| ==> |script[k].env.samples| <= 160
  }

  function BytesOf(frames: seq<Frame>): seq<byte>
    requires forall k :: 0 <= k < |frames| ==> FieldsFit(frames[k])
  {
    if frames == [] then [] else Encode(frames[0]) + BytesOf(frames[1..])
  }

  function Plainly(frames: seq<Frame>): (items: seq<PythonStream.Item>)
    ensures |items| == |frames| && forall k :: 0 <= k < |frames| ==> items[k] == PythonStream.Item([], frames[k])
  {
    seq(|frames|, k requires 0 <= k < |frames| => PythonStream.Item([], frames[k]))
  }

  lemma {:induction false} PlainWire(frames: seq<Frame>)
    requires forall k :: 0 <= k < |frames| ==> FieldsFit(frames[k])
    ensures PythonStream.Wire(Plainly(frames)) == BytesOf(frames) && PythonStream.FramesOf(Plainly(frames)) == frames
  {
    hide Encode;
    if frames != [] {
      PlainWire(frames[1..]);
      assert Plainly(frames)[1..] == Plainly(frames[1..]);
      assert frames == [frames[0]] + frames[1..];
    }
  }

  /**
   Under arbitrary short writes and errors, what any connection of a run carried is whole valid
   frames numbered 0, 1, 2 and so on modulo 65536, the number broken only by a closing reset_ack;
   a partial frame only ends a connection that is closed.
   */
  lemma ConnectionsIntact(script: seq<BridgeRuns.Tick>, states: seq<Bridge>, i: nat)
    requires BridgeRuns.Trace(Boot(), script, states) && Packed(script)
    requires i < |states[|script|].tcp.wires|
    ensures var b := states[|script|];
            if b.s.attached && i == |b.tcp.wires| - 1 then OpenWire(b.tcp.wires[i]) else ClosedWire(b.tcp.wires[i])
  {
    hide OpenWire, ClosedWire, Boot, Step, Packed, BridgeRuns.Trace;
    TraceGood(script, states, |script|);
  }

  lemma {:induction false} TraceGood(script: seq<BridgeRuns.Tick>, states: seq<Bridge>, k: nat)
    requires BridgeRuns.Trace(Boot(), script, states) && Packed(script) && k <= |script|
    ensures Good(states[k])
  {
    if k == 0 {
      BootGood();
    } else {
      hide Good, Step, Boot;
      TraceGood(script, states, k - 1);
      StepGood(states[k - 1], script[k - 1].event, script[k - 1].env);
    }
  }

  lemma BootGood()
    ensures Good(Boot())
  {
  }

  function AllGood(frames: seq<Frame>): (pieces: seq<UsbStream.Piece>)
    ensures |pieces| == |frames| && forall k :: 0 <= k < |frames| ==> pieces[k] == UsbStream.Good(frames[k])
  {
    seq(|frames|, k requires 0 <= k < |frames| => UsbStream.Good(frames[k]))
  }

  lemma {:induction false} GoodStream(frames: seq<Frame>, tail: seq<byte>)
    requires forall k :: 0 <= k < |frames| ==> FieldsFit(frames[k]) && |frames[k].payload| <= UsbStream.MAX_PAYLOAD
    ensures UsbStream.Encodable(AllGood(frames)) && UsbStream.Passing(AllGood(frames), tail)
    ensures UsbStream.StreamOf(AllGood(frames)) == BytesOf(frames) && UsbStream.GoodFrames(AllGood(frames)) == frames
  {
    hide Encode;
    if frames != [] {
      GoodStream(frames[1..], tail);
      assert AllGood(frames)[1..] == AllGood(frames[1..]);
      assert frames == [frames[0]] + frames[1..];
    }
  }

  /** A stream reader that takes these bytes in any pieces gets exactly the whole frames. */
  lemma ConnectionReadBack(w: Wire, chunks: seq<seq<byte>>)
    requires OpenWire(w) || ClosedWire(w)
    requires PythonStream.Join(chunks) == BytesOf(w.frames) + w.tail
    ensures UsbStream.Poll([], chunks).0 == w.frames
  {
    hide UsbStream.Poll, Encode, UsbStream.StreamOf, UsbStream.Passing, BytesOf;
    GoodStream(w.frames, w.tail);
    var f := Frame(ACK, 0, 0, 0, []);
    if w.tail != [] {
      f :| CutFrom(w.tail, f) && Continues(w.frames, f);
    }
    assert w.tail == Encode(f)[..|w.tail|];
    UsbStream.EveryFrameArrives(AllGood(w.frames), w.tail, f, chunks);
  }
}
