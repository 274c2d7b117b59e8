/** Which responses of the client count, and what becomes of a session nobody answers. */
module BridgeResponses {
  import opened Options
  import opened Frames
  import opened KeepaliveText
  import opened Bridge
  import opened BridgeMoves
  import opened BridgeInvariant
  import opened BridgeRuns
  import Bytes
  import Text
  import HostText
  import Metadata

  /** The numbers a response states. */
  function Stated(f: Frame, key: string): Option<nat>
    requires FieldsFit(f)
  {
    Metadata.BridgeParse(PayloadText(f.payload), key)
  }

  /** A response names the current session and the next request, with the counters that belong to it. */
  ghost predicate Correct(s: Session, f: Frame)
    requires FieldsFit(f)
  {
    && Stated(f, "sid") == Some(s.session)
    && Stated(f, "req") == Some(s.lastCompleted + 1)
    && Stated(f, "rver") == Some(INTERFACE_VERSION)
    && f.host == 2 * s.lastCompleted && f.device == 2 * s.lastCompleted + 1
  }

  /** In a live session a response is taken exactly when one is awaited and everything in it is right. */
  lemma AcceptedExactly(b: Bridge, f: Frame, env: Env)
    requires FieldsFit(f) && Live(b.s) && SessionInv(b.s)
    ensures |HandleKeepalive(b, Tcp, f, env).s.completed| == |b.s.completed| + 1
            <==> b.s.state.ClientReturn? && Correct(b.s, f)
  {
    hide PayloadText, Metadata.BridgeParse, HandleKeepalive;
  }

  /** Nothing but the error count differs. */
  ghost predicate Inert(b: Bridge, r: Bridge) {
    r == b.(tele := b.tele.(errors := r.tele.errors)) && r.tele.errors in {b.tele.errors, Inc32(b.tele.errors)}
  }

  /** A response naming no session, or another one, is inert in every state. */
  lemma ForeignSessionInert(b: Bridge, f: Frame, env: Env)
    requires FieldsFit(f) && Stated(f, "sid") != Some(b.s.session)
    ensures Inert(b, HandleKeepalive(b, Tcp, f, env))
  {
    hide PayloadText, Metadata.BridgeParse, VersionFault, Complete;
  }

  /**
   In every state, a response that does not name the pending request is inert exactly unless it
   names the current session and some request, a response is awaited, and it does not state this
   interface version: the version is checked before the request number, and the bridge goes to Error.
   */
  lemma StaleRequestInert(b: Bridge, f: Frame, env: Env)
    requires FieldsFit(f) && (b.s.pending ==> Stated(f, "req") != Some(b.s.pendingRequest))
    ensures Inert(b, HandleKeepalive(b, Tcp, f, env))
            <==> !(&& Stated(f, "sid") == Some(b.s.session) && Stated(f, "req").Some?
                   && b.s.pending && b.s.pendingRequest != 0 && b.s.state.ClientReturn?
                   && Stated(f, "rver") != Some(INTERFACE_VERSION))
  {
    hide PayloadText, Metadata.BridgeParse, VersionFault, Complete;
  }

  /** The client's text is read as it was written. */
  lemma PayloadTextOf(text: string)
    requires |text| <= TEXT_MAX
    requires forall k :: 0 <= k < |text| ==> 0 < text[k] as int < 0x100
    ensures PayloadText(Ascii(text)) == text
  {
    var s: string := seq(|text|, i requires 0 <= i < |text| => Ascii(text)[i] as char);
    assert s == text by {
      forall k | 0 <= k < |text|
        ensures s[k] == text[k]
      {
        assert Ascii(text)[k] == text[k] as int;
      }
    }
    var p := (c: char) => c != '\0';
    Text.SpanUnique(s, p, |s|);
  }

  function OldFields(): seq<Field> {
    [Field("sid", Text.Decimal(1)), Field("req", Text.Decimal(9))]
  }

  /** "sid=1;req=9" */
  function OldResponse(): string {
    Text.JoinFields(Texts(OldFields()))
  }

  lemma OldFieldsGood()
    ensures GoodFields(OldFields())
  {
    hide Text.Decimal, Trim;
    NumberFieldGood("sid", 1);
    NumberFieldGood("req", 9);
  }

  lemma OldResponseText()
    ensures Text.Tokens(OldResponse()) == Texts(OldFields())
    ensures |OldResponse()| <= TEXT_MAX && HostText.AllSmall(OldResponse())
  {
    hide Text.Tokens, Text.Decimal;
    var fields := OldFields();
    var ts := Texts(fields);
    assert fields[0].Text() == "sid=" + Text.Decimal(1) && fields[1].Text() == "req=" + Text.Decimal(9);
    NumberFieldGood("sid", 1);
    NumberFieldGood("req", 9);
    Text.TokensOfJoin(ts);
    SmallNumber("sid", 1);
    SmallNumber("req", 9);
    SmallJoin(ts);
    Text.WordLength(1);
    Text.WordLength(9);
    JoinLength(ts, 22);
  }

  lemma OldResponseFields()
    ensures Metadata.BridgeParse(OldResponse(), "sid") == Some(1)
    ensures Metadata.BridgeParse(OldResponse(), "req") == Some(9)
    ensures Metadata.BridgeParse(OldResponse(), "rver") == None
  {
    hide Metadata.BridgeParse, Metadata.WholeNumber, Text.Decimal, Text.Tokens, OldResponse;
    OldResponseText();
    OldFieldsGood();
    var fields := OldFields();
    Metadata.BridgeParseByTokens(OldResponse(), "sid");
    Metadata.BridgeParseByTokens(OldResponse(), "req");
    Metadata.BridgeParseByTokens(OldResponse(), "rver");
    BridgeLookUp(fields, 0);
    BridgeLookUp(fields, 1);
    StrtoulDecimal(1);
    StrtoulDecimal(9);
    OtherField(fields[0], "rver");
    OtherField(fields[1], "rver");
    var last := [fields[1].Text()];
    assert last[1..] == [];
    assert Metadata.FirstToken(last, "rver") == None;
    assert Texts(fields)[1..] == last;
  }

  lemma UnversionedFaults(b: Bridge, f: Frame, env: Env)
    requires FieldsFit(f) && b.s.pending && b.s.pendingRequest != 0 && b.s.state.ClientReturn?
    requires Stated(f, "sid") == Some(b.s.session) && Stated(f, "req").Some? && Stated(f, "rver").None?
    ensures HandleKeepalive(b, Tcp, f, env).s.state.Error?
  {
    hide Metadata.BridgeParse, PayloadText, HandleKeepalive;
  }

  /** For instance: a stale response without a version puts session 1 into Error while request 1 is awaited. */
  lemma StaleRequestCanFault(b: Bridge, env: Env)
    requires Live(b.s) && LiveInv(b.s) && b.s.session == 1 && b.s.state.ClientReturn? && b.s.pendingRequest == 1
    ensures HandleKeepalive(b, Tcp, Frame(KEEPALIVE, 0, 1, 0, Ascii(OldResponse())), env).s.state.Error?
  {
    assert b.s.pending;
    hide Metadata.BridgeParse, PayloadText, HandleKeepalive, OldResponse, Ascii, HostText.AllSmall, LiveInv;
    OldResponseText();
    SmallText(OldResponse());
    PayloadTextOf(OldResponse());
    OldResponseFields();
    UnversionedFaults(b, Frame(KEEPALIVE, 0, 1, 0, Ascii(OldResponse())), env);
  }

  // ----- a run that gets there -----

  function VersionField(): Field {
    Field("data_ver", Text.Decimal(INTERFACE_VERSION))
  }

  /** "data_ver=1" */
  function VersionRequest(): Frame {
    Frame(INITIALIZE, 0, 1, 0, Ascii(VersionField().Text()))
  }

  predicate StatesVersion(v: Frame) {
    Parsed(v) && v.kind == INITIALIZE && DataVersion(v) == Some(INTERFACE_VERSION)
  }

  lemma VersionParsed()
    ensures Metadata.BridgeParse(VersionField().Text(), "data_ver") == Some(INTERFACE_VERSION)
  {
    hide Metadata.BridgeParse, Metadata.WholeNumber, Text.Decimal, Text.Tokens;
    var text := VersionField().Text();
    var fields := [VersionField()];
    NumberFieldGood("data_ver", 1);
    Text.OneTokenAlone(text);
    assert Texts(fields) == [text];
    Metadata.BridgeParseByTokens(text, "data_ver");
    BridgeLookUp(fields, 0);
    StrtoulDecimal(1);
  }

  lemma VersionSent()
    ensures var text := VersionField().Text(); |text| <= TEXT_MAX && PayloadText(Ascii(text)) == text
  {
    hide Text.Decimal, PayloadText, Ascii, HostText.AllSmall;
    var text := VersionField().Text();
    SmallKey();
    SmallNumber("data_ver", 1);
    Text.WordLength(1);
    SmallText(text);
    PayloadTextOf(text);
  }

  lemma VersionIsRead()
    ensures StatesVersion(VersionRequest())
  {
    hide Metadata.BridgeParse, PayloadText, Ascii, VersionField, Field.Text;
    VersionSent();
    VersionParsed();
  }

  lemma SmallText(text: string)
    requires HostText.AllSmall(text)
    ensures forall k :: 0 <= k < |text| ==> 0 < text[k] as int < 0x80
  {
    assert forall k :: 0 <= k < |text| ==> HostText.Small(text[k]);
  }

  function At(time: int): Env {
    Env(Sent, Clock(time, time, time), WifiOk, [])
  }

  lemma SmallKey()
    ensures HostText.AllSmall("data_ver")
  {
  }

  /** No session was opened yet. */
  predicate Fresh(b: Bridge) {
    b.wifiEnabled && b.s.nextSession == 1 && b.s.lastCompleted == 0
  }

  lemma AfterAccept(b: Bridge)
    requires Fresh(b) && b.listening && !b.s.attached
    ensures var r := Step(b, Accepts, At(1)); Fresh(r) && r.s.attached
  {
    hide Accept;
  }

  lemma AfterVersion(b: Bridge, v: Frame)
    requires Fresh(b) && b.s.attached && StatesVersion(v)
    ensures var r := Step(b, TcpFrame(v), At(2)); Fresh(r) && r.s.attached && VersionAgreed(r.s)
  {
    hide DataVersion, SendTcp, EnterState;
  }

  predicate FirstSession(b: Bridge) {
    b.wifiEnabled && b.s.nextSession == 2 && b.s.lastCompleted == 0 && b.s.attached && b.s.session == 1
  }

  lemma AfterConnect(b: Bridge)
    requires Fresh(b) && b.s.attached && VersionAgreed(b.s)
    ensures var r := Step(b, TcpFrame(Frame(CONNECT, 0, 1, 1, [])), At(3));
            Connected(r)
  {
    hide SendTcp, EnterState, Notify, ConnectedText;
  }

  lemma AfterEngine(b: Bridge)
    requires Connected(b)
    ensures Asking(Step(b, Engine, At(4)))
  {
    hide SendKeepalive;
  }

  predicate Connected(b: Bridge) {
    && FirstSession(b) && b.s.state.ServerSend?
    && b.s.lastTx == 0 && !b.s.pending && b.s.pendingRequest == 0 && b.s.nextRequest == 1
  }

  predicate Asking(b: Bridge) {
    FirstSession(b) && b.s.state.ClientReturn? && b.s.pendingRequest == 1
  }

  lemma FreshIsRoomy(b: Bridge)
    requires Fresh(b) || FirstSession(b)
    ensures Roomy(b.s)
  {
  }

  lemma Joined() returns (script: seq<Tick>, states: seq<Bridge>)
    ensures FromPowerOn(script, states) && |script| == 1 && |states| == 2 && Latest(script) == 1
    ensures Fresh(states[1]) && states[1].s.attached
  {
    var b := Boot();
    assert Fresh(b) && b.listening && !b.s.attached;
    hide Step, Boot, FromPowerOn, Latest, Roomy;
    NoSteps();
    AfterAccept(b);
    FreshIsRoomy(b);
    script, states := GoOn([], [b], Tick(Accepts, At(1)));
  }

  lemma ConnectedFirst(v: Frame) returns (script: seq<Tick>, states: seq<Bridge>)
    requires StatesVersion(v)
    ensures FromPowerOn(script, states) && |script| == 3 && |states| == 4 && Latest(script) == 3
    ensures Connected(states[3])
  {
    assert GoodEvent(TcpFrame(v));
    hide Step, Boot, StatesVersion, FromPowerOn, GoodEvent, Latest, Fresh, Roomy, FirstSession;
    var connect := Frame(CONNECT, 0, 1, 1, []);
    EasyEvents(connect);
    script, states := Joined();
    FreshIsRoomy(states[1]);
    AfterVersion(states[1], v);
    var script2, states2 := GoOn(script, states, Tick(TcpFrame(v), At(2)));
    FreshIsRoomy(states2[2]);
    AfterConnect(states2[2]);
    script, states := GoOn(script2, states2, Tick(TcpFrame(connect), At(3)));
  }

  /** A client joins, states its version and connects; the bridge asks: live sessions are reached. */
  lemma FirstRequest(v: Frame) returns (script: seq<Tick>, states: seq<Bridge>)
    requires StatesVersion(v)
    ensures FromPowerOn(script, states) && |script| == 4 && |states| == 5 && Latest(script) == 4
    ensures Asking(states[4])
  {
    hide Step, Boot, StatesVersion, FromPowerOn, Latest, Roomy, FirstSession;
    script, states := ConnectedFirst(v);
    FreshIsRoomy(states[3]);
    AfterEngine(states[3]);
    script, states := GoOn(script, states, Tick(Engine, At(4)));
  }

  lemma EasyEvents(f: Frame)
    requires f == Frame(CONNECT, 0, 1, 1, [])
    ensures GoodEvent(TcpFrame(f)) && GoodEvent(Accepts) && GoodEvent(Engine)
  {
  }

  /** And one more step leads to Error: a stale response without a version, the request still unanswered. */
  lemma StaleRequestReached() returns (script: seq<Tick>, states: seq<Bridge>, f: Frame)
    ensures FromPowerOn(script, states) && |script| == 5
    ensures f == Frame(KEEPALIVE, 0, 1, 0, Ascii(OldResponse())) && script[4].event == TcpFrame(f)
    ensures Live(states[4].s) && states[4].s.pendingRequest == 1 && states[5].s.state.Error?
  {
    hide VersionRequest, Step, OldResponse, Ascii, Boot, StatesVersion, FromPowerOn, HandleKeepalive, LiveInv,
         Latest, HostText.AllSmall;
    VersionIsRead();
    script, states := FirstRequest(VersionRequest());
    f := Frame(KEEPALIVE, 0, 1, 0, Ascii(OldResponse()));
    OldResponseText();
    SessionAt(script, states, 4);
    StaleRequestCanFault(states[4], At(5));
    StaleStep(states[4], f, At(5));
    script, states := GoOn(script, states, Tick(TcpFrame(f), At(5)));
  }

  lemma StaleStep(b: Bridge, f: Frame, env: Env)
    requires Parsed(f) && f.kind == KEEPALIVE && b.wifiEnabled && b.s.attached
    ensures Step(b, TcpFrame(f), env).s == HandleKeepalive(b, Tcp, f, env).s
  {
    hide HandleFrame, Accept, CloseClient, Notify, EngineTick, WatchdogTick, HandleKeepalive;
    StaleFrame(b, f, env);
  }

  lemma StaleFrame(b: Bridge, f: Frame, env: Env)
    requires FieldsFit(f) && f.kind == KEEPALIVE
    ensures HandleFrame(b, Tcp, f, env).s == HandleKeepalive(b, Tcp, f, env).s
  {
    hide HandleKeepalive, HandleReset, HandleInitialize, HandleConnect, HandleDisconnect, HandleTcpData, HandleUsbData,
         Reply, EnterState, Judge, PayloadText, Metadata.BridgeParse, DataVersion, Breaks;
  }

  /** The response a client that echoes the request's session and number sends, with its counter moved on. */
  function Echo(s: Session, m: Meta, sequence: u16): (f: Frame)
    requires 2 * s.lastCompleted + 1 < Text.U32
    ensures FieldsFit(f)
  {
    PayloadFits("ka_resp", m);
    Frame(KEEPALIVE, 2 * s.lastCompleted, 2 * s.lastCompleted + 1, sequence, Ascii(Payload("ka_resp", m)))
  }

  /** The client that echoes what it was asked is always believed: the exchange completes. */
  lemma EchoCompletes(b: Bridge, m: Meta, sequence: u16, env: Env)
    requires Live(b.s) && SessionInv(b.s) && Roomy(b.s) && b.s.state.ClientReturn?
    requires m.session == b.s.session && m.request == b.s.pendingRequest
    ensures var r := HandleKeepalive(b, Tcp, Echo(b.s, m, sequence), env).s;
            && r.completed == b.s.completed + [Exchange(b.s.session, b.s.pendingRequest)]
            && (r.attached ==> r.state.ServerSend? && r.lastCompleted == b.s.lastCompleted + 1)
  {
    hide Metadata.BridgeParse, PayloadText, HandleKeepalive, Payload;
    PayloadFits("ka_resp", m);
    SmallPayload("ka_resp", m);
    PayloadTextOf(Payload("ka_resp", m));
    BridgeReadsBack("ka_resp", m);
  }

  // ----- nobody answers -----

  /** The requests that reset, open or end a session by themselves. */
  predicate Commands(kind: int) {
    kind in {RESET, INITIALIZE, CONNECT, DISCONNECT, ERROR}
  }

  /**
   Anything but an accepted response, a new client, a request that ends the session, and Wi-Fi
   switched off: data in both directions, responses that are not taken, frames of no known type,
   the bridge's clock work, a client that goes away.
   */
  ghost predicate Unanswered(b: Bridge, e: Event)
    requires GoodEvent(e)
  {
    match e
    case Accepts => false
    case TcpFrame(f) => !Commands(f.kind) && (f.kind == KEEPALIVE ==> !Judge(b.s, f).Accepted?)
    case UsbFrameIn(f) => !Commands(f.kind) && (f.kind == DATA ==> !CommandOf(PayloadText(f.payload)).DisableCommand?)
    case _ => true
  }

  ghost predicate Expires(b: Bridge, e: Event, env: Env) {
    && e.Watchdog? && b.wifiEnabled && Live(b.s) && b.s.state.ClientReturn?
    && WindowExpired(b.s, env.clock.enter)
  }

  /** The step can lose the client: a send breaks off, or the client's stream ends. */
  ghost predicate Hurts(e: Event, env: Env) {
    env.fate.Broken? || e.PeerCloses? || e.BadStream?
  }

  /** A response for the pending exchange states another interface version. */
  ghost predicate Refuted(b: Bridge, e: Event)
    requires GoodEvent(e)
  {
    e.TcpFrame? && e.frame.kind == KEEPALIVE && Judge(b.s, e.frame).WrongVersion?
  }

  lemma UnansweredUsb(b: Bridge, f: Frame, env: Env)
    requires Parsed(f) && Unanswered(b, UsbFrameIn(f))
    ensures var r := HandleFrame(b, Usb, f, env).s;
            r == b.s || (r == Closed(b.s) && Breaks(b, env.fate))
  {
    hide HandleUsbData, PayloadText, Reply, EnterState, Judge, CommandOf;
    if f.kind == DATA {
      UnansweredUsbData(b, f, env);
    }
  }

  lemma UnansweredUsbData(b: Bridge, f: Frame, env: Env)
    requires Parsed(f) && !CommandOf(PayloadText(f.payload)).DisableCommand?
    ensures var r := HandleUsbData(b, f, env).s;
            r == b.s || (r == Closed(b.s) && Breaks(b, env.fate))
  {
    hide EmitUsb, EnableWifi, DisableWifi, EnableFails, SendTcp, PayloadText, TelemetryReply, CommandOf;
  }

  lemma UnansweredTcp(b: Bridge, f: Frame, env: Env)
    requires Parsed(f) && Unanswered(b, TcpFrame(f)) && b.s.attached
    ensures var r := HandleFrame(b, Tcp, f, env).s;
            || r == b.s
            || (r == Closed(b.s) && env.fate.Broken?)
            || (Refuted(b, TcpFrame(f)) && b.s.state.ClientReturn? && r == b.s.(state := Error))
            || (Refuted(b, TcpFrame(f)) && b.s.state.ClientReturn? && !r.attached && env.fate.Broken?)
  {
    hide HandleTcpData, HandleKeepalive, PayloadText, Reply, EnterState, Metadata.BridgeParse;
    if f.kind == KEEPALIVE && Judge(b.s, f).WrongVersion? {
      assert b.s.state.ClientReturn?;
    }
  }

  /** The steps that are not expiries leave a waiting session as it is, unless they lose the client or refute it. */
  lemma IdleStep(b: Bridge, e: Event, env: Env)
    requires GoodEvent(e) && Unanswered(b, e) && Live(b.s) && LiveInv(b.s) && b.s.state.ClientReturn?
    requires !Expires(b, e, env)
    ensures var r := Step(b, e, env).s;
            || r == b.s
            || (!r.attached && Hurts(e, env))
            || (r.attached && r.state.Error? && Refuted(b, e))
  {
    hide HandleFrame, CloseClient, SendKeepalive, Teardown, EnterState, Judge, CommandOf, PayloadText, WindowExpired;
    match e
    case UsbFrameIn(f) => UnansweredUsb(b, f, env);
    case TcpFrame(f) => UnansweredTcp(b, f, env);
    case PeerCloses =>
    case BadStream(_) =>
    case Engine =>
    case Watchdog =>
  }

  lemma ExpiryStep(b: Bridge, env: Env)
    requires env.clock.Ordered() && Expires(b, Watchdog, env) && LiveInv(b.s)
    ensures var r := Step(b, Watchdog, env).s;
            if b.s.retries == 2 then !r.attached && r.state.Initialize?
            else if env.fate.Broken? then !r.attached
            else
              && Live(r) && r.state.ClientReturn? && r.session == b.s.session
              && r.pendingRequest == b.s.pendingRequest && r.retries == b.s.retries + 1
  {
    hide SendKeepalive, Teardown, EnterState, WindowExpired;
  }

  /**
   What one unanswered step does to a waiting session: an expiry takes one try, or loses the
   client in the send, or with the last try tears the session down; anything else leaves it
   waiting, unless it loses the client or the client's version is refuted.
   */
  lemma UnansweredStep(b: Bridge, e: Event, env: Env)
    requires GoodEvent(e) && env.clock.Ordered() && Unanswered(b, e)
    requires Live(b.s) && LiveInv(b.s) && b.s.state.ClientReturn?
    ensures var r := Step(b, e, env).s;
            if !Expires(b, e, env) then
              r == b.s || (!r.attached && Hurts(e, env)) || (r.attached && r.state.Error? && Refuted(b, e))
            else if b.s.retries == 2 then !r.attached && r.state.Initialize?
            else if env.fate.Broken? then !r.attached
            else
              && Live(r) && r.state.ClientReturn? && r.session == b.s.session
              && r.pendingRequest == b.s.pendingRequest && r.retries == b.s.retries + 1
  {
    hide Step, LiveInv, Unanswered, Refuted, WindowExpired;
    if !Expires(b, e, env) {
      IdleStep(b, e, env);
    } else {
      ExpiryStep(b, env);
    }
  }

  /** Once nothing is awaited any more, what goes on is at most the loss of the client. */
  lemma OverStep(b: Bridge, e: Event, env: Env)
    requires GoodEvent(e) && Unanswered(b, e) && (!b.s.attached || b.s.state.Error?)
    ensures var r := Step(b, e, env).s;
            && r.state == b.s.state
            && (r.attached ==> b.s.attached)
            && (!r.attached && b.s.attached ==> Hurts(e, env))
  {
    hide HandleFrame, CloseClient, SendKeepalive, Teardown, EnterState, Judge, CommandOf, PayloadText, WindowExpired;
    match e
    case UsbFrameIn(f) => UnansweredUsb(b, f, env);
    case TcpFrame(f) =>
      if b.s.attached {
        UnansweredTcp(b, f, env);
      }
    case PeerCloses =>
    case BadStream(_) =>
    case Engine =>
    case Watchdog =>
  }

  // ----- stretches of a run -----

  /** From state i to state k of a run nobody answers. */
  ghost predicate NobodyAnswers(script: seq<Tick>, states: seq<Bridge>, i: nat, k: nat) {
    && i <= k <= |script| < |states| && GoodEvents(script)
    && forall j :: i <= j < k ==> Unanswered(states[j], script[j].event)
  }

  /** The expiries from state i to state k. */
  ghost function Expiries(script: seq<Tick>, states: seq<Bridge>, i: nat, k: nat): nat
    requires i <= k <= |script| < |states|
  {
    if i == k then 0
    else
      Expiries(script, states, i, k - 1) + (if Expires(states[k - 1], script[k - 1].event, script[k - 1].env) then 1 else 0)
  }

  /** Something else than the watchdog lost the client. */
  ghost predicate Hurt(script: seq<Tick>, i: nat, k: nat)
    requires k <= |script|
  {
    exists j :: i <= j < k && Hurts(script[j].event, script[j].env)
  }

  /** A response stated another version. */
  ghost predicate AnyRefuted(script: seq<Tick>, states: seq<Bridge>, i: nat, k: nat)
    requires k <= |script| < |states| && GoodEvents(script)
  {
    exists j :: i <= j < k && Refuted(states[j], script[j].event)
  }

  /** s0 still waits for its response in s. */
  ghost predicate Waits(s0: Session, s: Session, tries: nat) {
    && Live(s) && s.state.ClientReturn? && s.session == s0.session && s.pendingRequest == s0.pendingRequest
    && s.retries == tries < RETRY_LIMIT
  }

  ghost predicate Lost(s: Session, tries: nat) {
    !s.attached && tries <= RETRY_LIMIT && (tries == RETRY_LIMIT ==> s.state.Initialize?)
  }

  ghost predicate Faulted(s: Session, tries: nat) {
    s.attached && s.state.Error? && tries < RETRY_LIMIT
  }

  /** How a wait stands, and why it is over. */
  ghost predicate Stands(s0: Session, s: Session, tries: nat, hurt: bool, refuted: bool) {
    || Waits(s0, s, tries)
    || (Lost(s, tries) && (tries == RETRY_LIMIT || hurt))
    || (Faulted(s, tries) && refuted)
  }

  lemma WaitStarts(s: Session, hurt: bool, refuted: bool)
    requires SessionInv(s) && Live(s) && s.state.ClientReturn?
    ensures s.retries < RETRY_LIMIT && Stands(s, s, s.retries, hurt, refuted)
  {
  }

  lemma AtMostThree(s0: Session, s: Session, tries: nat, hurt: bool, refuted: bool)
    requires Stands(s0, s, tries, hurt, refuted)
    ensures tries <= RETRY_LIMIT
  {
  }

  lemma StandsOn(s0: Session, b: Bridge, e: Event, env: Env, tries: nat, hurt: bool, refuted: bool)
    requires GoodEvent(e) && env.clock.Ordered() && Unanswered(b, e) && SessionInv(b.s)
    requires Stands(s0, b.s, tries, hurt, refuted)
    ensures Stands(s0, Step(b, e, env).s, tries + (if Expires(b, e, env) then 1 else 0),
                   hurt || Hurts(e, env), refuted || Refuted(b, e))
  {
    assert Live(b.s) ==> LiveInv(b.s);
    hide Step, Unanswered, Refuted, WindowExpired, LiveInv;
    if Waits(s0, b.s, tries) {
      UnansweredStep(b, e, env);
    } else {
      OverStep(b, e, env);
    }
  }

  /**
   However long a session waits in vain, from any reached state that awaits a response: there are
   at most three expiries. It goes on waiting for the same request, with as many tries used up as
   there were expiries; or the client is gone, and with the third expiry, which leaves the bridge
   in Initialize, if not for a broken send or a closed stream; or a response stated another version.
   */
  lemma {:induction false} ThreeWindows(script: seq<Tick>, states: seq<Bridge>, i: nat, k: nat)
    requires FromPowerOn(script, states) && NobodyAnswers(script, states, i, k)
    requires Live(states[i].s) && states[i].s.state.ClientReturn?
    ensures var tries := states[i].s.retries + Expiries(script, states, i, k);
            && tries <= RETRY_LIMIT
            && Stands(states[i].s, states[k].s, tries, Hurt(script, i, k), AnyRefuted(script, states, i, k))
    decreases k
  {
    hide Step, Boot, Stands, Expires, Hurts, Refuted, Unanswered, Moves, Roomy, SessionInv;
    if i == k {
      SessionAt(script, states, i);
      WaitStarts(states[i].s, Hurt(script, i, k), AnyRefuted(script, states, i, k));
    } else {
      var t, tries := script[k - 1], states[i].s.retries + Expiries(script, states, i, k - 1);
      ThreeWindows(script, states, i, k - 1);
      MoveAt(script, states, k - 1);
      StandsOn(states[i].s, states[k - 1], t.event, t.env, tries,
               Hurt(script, i, k - 1), AnyRefuted(script, states, i, k - 1));
    }
    AtMostThree(states[i].s, states[k].s, states[i].s.retries + Expiries(script, states, i, k),
                Hurt(script, i, k), AnyRefuted(script, states, i, k));
  }
}
