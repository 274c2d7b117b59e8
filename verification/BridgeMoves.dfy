/** The session protocol as a small state machine: every step of the bridge is one of a few moves. */
module BridgeMoves {
  import opened Frames
  import opened KeepaliveText
  import opened Bridge
  import Metadata

  ghost predicate Live(s: Session) {
    s.attached && s.state.Keepalive()
  }

  /** The session while a client is attached and the bridge is in a keepalive state. */
  ghost predicate LiveInv(s: Session) {
    && s.session != 0
    && s.server == 2 * s.lastCompleted
    && s.client == (if s.lastCompleted == 0 then 1 else s.server - 1)
    && VersionAgreed(s)
    && (s.state.ServerSend? ==>
          && !s.pending && s.pendingRequest == 0 && s.retries == 0
          && s.nextRequest == s.lastCompleted + 1)
    && (s.state.ClientReturn? ==>
          && s.pending && s.pendingRequest == s.lastCompleted + 1 && s.retries < RETRY_LIMIT
          && s.nextRequest == s.lastCompleted + 2
          && 0 < s.lastTx <= s.windowStarted)
  }

  /** The exchange is over or off: no live session, and the record of it unchanged. */
  ghost predicate Quiet(s: Session, r: Session) {
    && !Live(r)
    && r.sent == s.sent && r.completed == s.completed
    && r.nextRequest in {s.nextRequest, 1}
    && r.pendingRequest in {s.pendingRequest, 0}
    && r.lastCompleted in {s.lastCompleted, 0}
    && (|| (r.session in {s.session, 0} && r.nextSession == s.nextSession)
        || (r.session in {s.nextSession, 0} && r.nextSession == Inc32(s.nextSession)))
  }

  /** A new session with a client attached. */
  ghost predicate Opens(s: Session, r: Session) {
    s.attached && VersionAgreed(s) && r == Opened(s).(state := ServerSend)
  }

  function Asked(s: Session, reuse: bool, clock: Clock): Session {
    Requested(s, reuse, clock).(
      lastTx := clock.sent, pending := true, windowStarted := clock.armed, state := ClientReturn)
  }

  /** The window has run out with tries left. */
  ghost predicate RetryDue(s: Session, now: int) {
    && s.attached && s.state.ClientReturn? && WindowExpired(s, now)
    && s.retries + 1 < RETRY_LIMIT
  }

  function Retried(s: Session, clock: Clock): Session {
    Asked(s.(retries := Inc32(s.retries)), true, clock)
  }

  /** The one answer the bridge takes in s has come. */
  function AnsweredNow(s: Session): Session {
    Answered(s, Inc32(s.server)).(state := ServerSend)
  }

  /** The move is made, and perhaps the client is lost in it. */
  ghost predicate Outcome(middle: Session, r: Session) {
    r == middle || (Quiet(middle, r) && r.nextSession == middle.nextSession)
  }

  ghost predicate Moves(s: Session, r: Session, clock: Clock) {
    || r == s
    || Quiet(s, r)
    || Opens(s, r)
    || (RequestDue(s, clock.enter) && Outcome(Asked(s, false, clock), r))
    || (RetryDue(s, clock.enter) && Outcome(Retried(s, clock), r))
    || (Live(s) && s.state.ClientReturn? && Outcome(AnsweredNow(s), r))
  }

  lemma EngineMoves(b: Bridge, env: Env)
    requires Live(b.s) ==> LiveInv(b.s)
    ensures Moves(b.s, EngineTick(b, env).s, env.clock)
  {
    hide SendKeepalive, EvenUp, OddUp;
  }

  lemma WatchdogMoves(b: Bridge, env: Env)
    requires Live(b.s) ==> LiveInv(b.s)
    ensures Moves(b.s, WatchdogTick(b, env).s, env.clock)
  {
    hide SendKeepalive, EvenUp, OddUp, Teardown, EnterState, WindowExpired;
    var s, r := b.s, WatchdogTick(b, env).s;
    if r != s {
      if s.retries + 1 >= RETRY_LIMIT {
        assert Quiet(s, r);
      } else {
        assert RetryDue(s, env.clock.enter);
        assert Outcome(Retried(s, env.clock), r);
      }
    }
  }

  /** A response is accepted only for the pending request, with the counters the client was told to return. */
  lemma JudgeAccepts(s: Session, f: Frame)
    requires FieldsFit(f)
    ensures Judge(s, f).Accepted? ==>
              && s.state == ClientReturn && s.pending && s.pendingRequest != 0
              && f.host == s.server && f.device == Inc32(s.server) && f.device % 2 == 1
  {
    hide PayloadText, Metadata.BridgeParse;
  }

  lemma HandshakeMoves(b: Bridge, transport: Transport, f: Frame, fate: Fate, clock: Clock)
    requires FieldsFit(f) && (transport.Tcp? ==> b.s.attached)
    ensures Moves(b.s, HandleReset(b, transport, f, fate).s, clock)
    ensures Moves(b.s, HandleInitialize(b, transport, f, fate).s, clock)
    ensures Moves(b.s, HandleDisconnect(b, transport, f, fate).s, clock)
  {
    hide HandleReset, HandleInitialize, HandleDisconnect, DataVersion, RequestDue, RetryDue, Opens, WindowExpired,
         Asked, Retried, AnsweredNow;
    assert Quiet(b.s, HandleReset(b, transport, f, fate).s);
    assert Quiet(b.s, HandleInitialize(b, transport, f, fate).s);
    assert Quiet(b.s, HandleDisconnect(b, transport, f, fate).s);
  }

  lemma ConnectMoves(b: Bridge, transport: Transport, f: Frame, fate: Fate, clock: Clock)
    requires FieldsFit(f) && (transport.Tcp? ==> b.s.attached)
    ensures Moves(b.s, HandleConnect(b, transport, f, fate).s, clock)
  {
    hide HandleConnect, RequestDue, RetryDue, Asked, Retried, AnsweredNow;
    var r := HandleConnect(b, transport, f, fate).s;
    assert Opens(b.s, r) || Quiet(b.s, r);
  }

  lemma KeepaliveMoves(b: Bridge, transport: Transport, f: Frame, env: Env)
    requires FieldsFit(f) && (transport.Tcp? ==> b.s.attached)
    ensures Moves(b.s, HandleKeepalive(b, transport, f, env).s, env.clock)
  {
    hide HandleKeepalive, RequestDue, RetryDue, Asked, Retried, Opens, Judge, Answered, Inc32;
    if transport.Tcp? {
      JudgeAccepts(b.s, f);
      var s, r := b.s, HandleKeepalive(b, transport, f, env).s;
      match Judge(b.s, f)
      case Ignored(_) =>
      case WrongVersion => assert Quiet(s, r);
      case Accepted => assert Outcome(AnsweredNow(s), r);
    }
  }

  lemma DataMoves(b: Bridge, f: Frame, env: Env)
    requires FieldsFit(f)
    ensures Moves(b.s, HandleUsbData(b, f, env).s, env.clock)
    ensures Moves(b.s, HandleTcpData(b, f, env).s, env.clock)
  {
    hide HandleUsbData, HandleTcpData, RequestDue, RetryDue, Asked, Retried, Opens, AnsweredNow;
    assert Outcome(b.s, HandleUsbData(b, f, env).s);
    assert Outcome(b.s, HandleTcpData(b, f, env).s);
  }

  lemma OtherMoves(b: Bridge, transport: Transport, f: Frame, env: Env)
    requires FieldsFit(f) && f.kind !in {RESET, INITIALIZE, CONNECT, DISCONNECT, KEEPALIVE, DATA}
    ensures Moves(b.s, HandleFrame(b, transport, f, env).s, env.clock)
  {
    hide Reply, EnterState, RequestDue, RetryDue, Asked, Retried, Opens, AnsweredNow;
    assert Outcome(b.s, HandleFrame(b, transport, f, env).s);
  }

  lemma FrameMoves(b: Bridge, transport: Transport, f: Frame, env: Env)
    requires FieldsFit(f) && (transport.Tcp? ==> b.s.attached)
    ensures Moves(b.s, HandleFrame(b, transport, f, env).s, env.clock)
  {
    hide Moves, HandleReset, HandleInitialize, HandleConnect, HandleDisconnect, HandleKeepalive, HandleUsbData,
         HandleTcpData;
    HandshakeMoves(b, transport, f, env.fate, env.clock);
    ConnectMoves(b, transport, f, env.fate, env.clock);
    KeepaliveMoves(b, transport, f, env);
    DataMoves(b, f, env);
    if f.kind !in {RESET, INITIALIZE, CONNECT, DISCONNECT, KEEPALIVE, DATA} {
      OtherMoves(b, transport, f, env);
    }
  }

  lemma ClientLoss(b: Bridge, env: Env, clock: Clock)
    ensures Moves(b.s, CloseClient(b).s, clock)
    ensures Moves(b.s, Accept(b, env.fate).s, clock)
  {
    hide CloseClient, Accept, RequestDue, RetryDue, Asked, Retried, Opens, AnsweredNow;
    assert Quiet(b.s, CloseClient(b).s);
    assert Quiet(b.s, Accept(b, env.fate).s);
  }

  /** Whatever client, host, network and clock do, one step makes one move. */
  lemma StepMoves(b: Bridge, e: Event, env: Env)
    requires GoodEvent(e)
    requires Live(b.s) ==> LiveInv(b.s)
    ensures Moves(b.s, Step(b, e, env).s, env.clock)
  {
    hide HandleFrame, Accept, CloseClient, Notify, EngineTick, WatchdogTick, RequestDue, RetryDue, Asked, Retried,
         Opens, AnsweredNow, Quiet, LiveInv;
    match e
    case UsbFrameIn(f) => FrameMoves(b, Usb, f, env);
    case TcpFrame(f) =>
      if b.s.attached {
        FrameMoves(b, Tcp, f, env);
      }
    case Accepts => ClientLoss(b, env, env.clock);
    case PeerCloses => ClientLoss(b, env, env.clock);
    case BadStream(parseFailed) =>
      var b1 := RecordError(b);
      ClientLoss(if parseFailed then Notify(b1, ERROR, "tcp_frame_parse_failed") else b1, env, env.clock);
    case Engine => EngineMoves(b, env);
    case Watchdog => WatchdogMoves(b, env);
  }
}
