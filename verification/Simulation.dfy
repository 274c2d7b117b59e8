/**
 What the host's mirror displays follows the bridge: each step of the bridge writes the frames
 that bring the display into agreement with its session.
 */
module Simulation {
  import opened Options
  import opened Bytes
  import opened Frames
  import opened KeepaliveText
  import opened B = Bridge
  import opened BridgeMoves
  import opened BridgeInvariant
  import opened BridgeRuns
  import M = Mirror
  import opened Text
  import opened HostText

  // ----- what the host makes of a frame -----

  function PayloadBytes(p: UsbPayload): seq<byte> {
    match p
    case Text(t) => Ascii(t)
    case Forwarded(b) => b
  }

  /** The frame the bridge encodes. */
  function OnUsb(u: UsbFrame): (f: Frame)
    ensures FieldsFit(f)
  {
    Frame(u.kind, u.host, u.device, u.sequence, PayloadBytes(u.payload))
  }

  /** A packet of the uplink stream; it is queued for the application, not read as a command. */
  predicate Uplink(payload: seq<byte>) {
    |payload| > 0 && payload[0] == MAGIC_UPLINK
  }

  /** A decoded frame as the host takes it. */
  function Seen(f: Frame): M.HostFrame {
    M.HostFrame(f.kind, f.host, f.device, f.sequence, Normal(f.payload),
                if Uplink(f.payload) then "" else CommandText(f.payload))
  }

  function Arrived(u: UsbFrame): M.HostFrame {
    Seen(OnUsb(u))
  }

  function Arrivals(us: seq<UsbFrame>): (r: seq<M.HostFrame>)
    ensures |r| == |us| && forall k :: 0 <= k < |us| ==> r[k] == Arrived(us[k])
  {
    seq(|us|, k requires 0 <= k < |us| => Arrived(us[k]))
  }

  // ----- the display -----

  /** What the mirror shows of the link; counters only in a keepalive state. */
  datatype Display = Display(state: State, server: int, client: int)

  function Still(state: State): Display {
    Display(state, 0, 0)
  }

  function Shows(m: M.Mirror): Display {
    if m.link.state.Keepalive() then Display(m.link.state, m.link.server, m.link.client) else Still(m.link.state)
  }

  function MovedByError(d: Display, text: string): Display {
    if text == "keepalive_retry_exhausted" then Still(Initialize)
    else if StartsWith(text, "realtime_data_halted")
            && ReadText(Tokens(text), "reason") == Some("tcp_client_closed") then Still(Connect)
    else d
  }

  function MovedByText(d: Display, text: string): Display {
    match M.ProgressOf(text)
    case ConnectAck | TcpConnected | ClientConnected => Still(Connect)
    case DisconnectAck => Still(Disconnect)
    case ResetAck => Still(Reset)
    case InitializeAck => Still(Initialize)
    case ConnectSuccess | NoProgress => d
  }

  /** What a frame does to the display, whatever else the mirror holds. */
  function Moved(d: Display, f: M.HostFrame): Display {
    if f.kind == ERROR then MovedByError(d, f.text)
    else if f.kind == DATA then d
    else if f.kind == KEEPALIVE && StartsWith(f.text, M.REQUEST_TAG) then
      if M.RequestFits(f) then Display(ClientReturn, f.host, f.host + 1) else d
    else if f.kind == KEEPALIVE && StartsWith(f.text, M.RESPONSE_TAG) then
      if M.RequestFits(f) then Display(ServerSend, f.host, f.device) else d
    else MovedByText(d, f.text)
  }

  function After(d: Display, fs: seq<M.HostFrame>): Display
    decreases |fs|
  {
    if fs == [] then d else After(Moved(d, fs[0]), fs[1..])
  }

  lemma {:induction false} AfterInTwo(d: Display, a: seq<M.HostFrame>, b: seq<M.HostFrame>)
    ensures After(d, a + b) == After(After(d, a), b)
    decreases |a|
  {
    hide Moved;
    if a == [] {
      assert a + b == b;
    } else {
      assert (a + b)[1..] == a[1..] + b;
      AfterInTwo(Moved(d, a[0]), a[1..], b);
    }
  }

  /** The announcement of a new session. It also ends whatever automatic flow the mirror has under way. */
  predicate Announces(f: M.HostFrame) {
    f.kind == ACK && M.ProgressOf(f.text).ClientConnected?
  }

  predicate Announced(fs: seq<M.HostFrame>) {
    exists k :: 0 <= k < |fs| && Announces(fs[k])
  }

  /** After an announcement it does not matter what was shown before. */
  lemma {:induction false} AnnouncedForgets(d: Display, e: Display, fs: seq<M.HostFrame>)
    requires Announced(fs)
    ensures After(d, fs) == After(e, fs)
    decreases |fs|
  {
    hide M.ProgressOf;
    if !Announces(fs[0]) {
      var k :| 0 <= k < |fs| && Announces(fs[k]);
      assert fs[1..][k - 1] == fs[k];
      AnnouncedForgets(Moved(d, fs[0]), Moved(e, fs[0]), fs[1..]);
    }
  }

  /** A frame that moves the display, and to the same place wherever it stands; any other leaves it alone. */
  predicate Settles(f: M.HostFrame) {
    if f.kind == ERROR then
      || f.text == "keepalive_retry_exhausted"
      || (StartsWith(f.text, "realtime_data_halted") && ReadText(Tokens(f.text), "reason") == Some("tcp_client_closed"))
    else if f.kind == DATA then false
    else if f.kind == KEEPALIVE && (StartsWith(f.text, M.REQUEST_TAG) || StartsWith(f.text, M.RESPONSE_TAG)) then
      M.RequestFits(f)
    else !M.ProgressOf(f.text).ConnectSuccess? && !M.ProgressOf(f.text).NoProgress?
  }

  predicate Settled(fs: seq<M.HostFrame>) {
    exists k :: 0 <= k < |fs| && Settles(fs[k])
  }

  lemma SettlesOrStays(d: Display, e: Display, f: M.HostFrame)
    ensures Settles(f) ==> Moved(d, f) == Moved(e, f) && !Moved(d, f).state.Error?
    ensures !Settles(f) ==> Moved(d, f) == d
  {
    hide M.ProgressOf, ReadText, StartsWith, Tokens;
  }

  lemma SettledInTwo(a: seq<M.HostFrame>, b: seq<M.HostFrame>)
    ensures Settled(a + b) <==> Settled(a) || Settled(b)
  {
    hide Settles;
    if Settled(a) {
      var k :| 0 <= k < |a| && Settles(a[k]);
      assert (a + b)[k] == a[k];
    }
    if Settled(b) {
      var k :| 0 <= k < |b| && Settles(b[k]);
      assert (a + b)[|a| + k] == b[k];
    }
  }

  /**
   After frames one of which settles, the display does not depend on what it was, and is not
   Error; after frames none of which does, it is what it was.
   */
  lemma {:induction false} SettledForgets(d: Display, e: Display, fs: seq<M.HostFrame>)
    ensures Settled(fs) ==> After(d, fs) == After(e, fs) && !After(d, fs).state.Error?
    ensures !Settled(fs) ==> After(d, fs) == d
    ensures !d.state.Error? ==> !After(d, fs).state.Error?
    decreases |fs|
  {
    hide Settles, Moved;
    if fs != [] {
      SettlesOrStays(d, e, fs[0]);
      SettledForgets(Moved(d, fs[0]), Moved(e, fs[0]), fs[1..]);
      assert Settled(fs) <==> Settles(fs[0]) || Settled(fs[1..]) by {
        assert fs == [fs[0]] + fs[1..];
        SettledInTwo([fs[0]], fs[1..]);
        assert Settled([fs[0]]) <==> Settles([fs[0]][0]);
      }
    }
  }

  /** An announcement settles. */
  lemma AnnouncedSettles(fs: seq<M.HostFrame>)
    requires Announced(fs)
    ensures Settled(fs)
  {
    hide M.ProgressOf;
    var k :| 0 <= k < |fs| && Announces(fs[k]);
    assert Settles(fs[k]);
  }

  // ----- reading frames -----

  lemma {:induction false} SendAllShows(m: M.Mirror, answers: seq<M.Answer>)
    ensures Shows(M.SendAll(m, answers)) == Shows(m) && M.SendAll(m, answers).next == m.next
    ensures M.SendAll(m, answers).inbox == m.inbox
    decreases |answers|
  {
    if answers != [] {
      SendAllShows(M.SendCommand(m, DATA, answers[0].payload, answers[0].ok), answers[1..]);
    }
  }

  lemma TextMoves(m: M.Mirror, text: string)
    ensures var r := M.OnText(m, text);
            && Shows(r) == MovedByText(Shows(m), text)
            && r.inbox == m.inbox
            && (m.next.None? || M.ProgressOf(text).ClientConnected? ==> r.next.None?)
  {
    hide M.ProgressOf;
    match M.ProgressOf(text)
    case ConnectAck =>
    case TcpConnected =>
    case ClientConnected =>
    case DisconnectAck =>
    case ResetAck =>
    case InitializeAck =>
    case ConnectSuccess =>
    case NoProgress =>
  }

  lemma ErrorMoves(m: M.Mirror, text: string)
    ensures var r := M.OnError(m, text);
            Shows(r) == MovedByError(Shows(m), text) && r.inbox == m.inbox && r.next == m.next
  {
    hide ReadText, StartsWith, Tokens;
  }

  lemma DataMoves(m: M.Mirror, order: M.Order, given: seq<M.Answer>)
    ensures var r := M.Obey(m, order, given); Shows(r) == Shows(m) && r.inbox == m.inbox && r.next == m.next
  {
    hide M.AnswersTo, M.SendAll;
    SendAllShows(m.(orders := m.orders + [order]), M.AnswersTo(order, given));
  }

  lemma ReceiveMoves(m: M.Mirror, f: M.HostFrame, given: seq<M.Answer>)
    ensures var r := M.Receive(m, f, given);
            && Shows(r) == Moved(Shows(m), f) && r.inbox == m.inbox
            && (m.next.None? || Announces(f) ==> r.next.None?)
  {
    hide M.ProgressOf, StartsWith, M.OrderOf, M.Obey, M.OnText, M.OnError, MovedByError, MovedByText;
    var m1 := M.Noted(m, f);
    TextMoves(m1, f.text);
    ErrorMoves(M.ErrorCounted(m1), f.text);
    DataMoves(m1.(counts := m1.counts.(dataFrames := m1.counts.dataFrames + 1)), M.OrderOf(f.command), given);
  }

  /** A frame that is handled without an exception does to the display what Moved says. */
  lemma TakeMoves(m: M.Mirror, f: M.HostFrame, given: seq<M.Answer>)
    requires !M.Fails(f)
    ensures var r := M.Take(m, f, given);
            && Shows(r) == Moved(Shows(m), f) && r.inbox == m.inbox
            && (m.next.None? || Announces(f) ==> r.next.None?)
  {
    hide M.TelemetryFails, M.LogFails, M.Learned, M.Receive, Moved, Announces, M.OrderOf;
    ReceiveMoves(m.(timing := M.Learned(m.timing, f.text)), f, given);
  }

  /** A displayed Error stays, whatever else the mirror holds, exactly through frames that fail or do not settle. */
  lemma LeavesErrorExactly(m: M.Mirror, f: M.HostFrame, given: seq<M.Answer>)
    requires m.link.state.Error?
    ensures M.Take(m, f, given).link.state.Error? <==> M.Fails(f) || !Settles(f)
  {
    if M.Fails(f) {
      FailedTake(m, f, given);
    } else {
      TakeMoves(m, f, given);
      SettlesOrStays(Shows(m), Shows(m), f);
      hide Settles, Moved, M.Take, M.Fails;
    }
  }

  lemma FailedTake(m: M.Mirror, f: M.HostFrame, given: seq<M.Answer>)
    requires M.Fails(f)
    ensures M.Take(m, f, given).link.state == m.link.state
  {
    hide M.TelemetryFails, M.LogFails, M.Learned, M.OnError, M.OnRequest, M.OnResponse, M.OnText, M.OrderOf;
  }

  predicate AllRead(fs: seq<M.HostFrame>) {
    forall k :: 0 <= k < |fs| ==> !M.Fails(fs[k])
  }

  /** A poll raises exactly when one of the frames fails; if none does, all of them take effect. */
  lemma {:induction false} PollMoves(m: M.Mirror, fs: seq<M.HostFrame>, given: seq<seq<M.Answer>>)
    ensures var p := M.Poll(m, fs, given);
            && (p.raised <==> !AllRead(fs))
            && (AllRead(fs) ==>
                  && Shows(p.mirror) == After(Shows(m), fs) && p.mirror.inbox == m.inbox
                  && (m.next.None? || Announced(fs) ==> p.mirror.next.None?))
    decreases |fs|
  {
    hide M.Fails, M.Take, Moved, Announces, Shows;
    if fs != [] && !M.Fails(fs[0]) {
      var m1 := M.Take(m, fs[0], M.AnswersFrom(given, 0));
      var more := if given == [] then [] else given[1..];
      TakeMoves(m, fs[0], M.AnswersFrom(given, 0));
      PollMoves(m1, fs[1..], more);
      assert AllRead(fs) <==> AllRead(fs[1..]) by {
        assert forall k :: 1 <= k < |fs| ==> fs[k] == fs[1..][k - 1];
      }
      if Announced(fs) && !Announces(fs[0]) {
        var k :| 0 <= k < |fs| && Announces(fs[k]);
        assert fs[1..][k - 1] == fs[k];
      }
    }
  }

  /** And so with what was received and not looked at. */
  lemma InboxMoves(m: M.Mirror, given: seq<seq<M.Answer>>)
    ensures var p := M.PollInbox(m, given);
            && (p.raised <==> !AllRead(m.inbox))
            && (AllRead(m.inbox) ==>
                  && Shows(p.mirror) == After(Shows(m), m.inbox) && p.mirror.inbox == []
                  && (m.next.None? || Announced(m.inbox) ==> p.mirror.next.None?))
  {
    hide M.Poll, After, AllRead, Announced;
    PollMoves(m.(inbox := []), m.inbox, given);
  }

  // ----- what is shown of a bridge -----

  /** A display, and how many of the bridge's frames were written before it. */
  datatype View = View(from: Display, skip: nat)

  function Since(v: View, frames: seq<UsbFrame>): seq<UsbFrame> {
    if v.skip <= |frames| then frames[v.skip..] else []
  }

  function Watched(v: View, frames: seq<UsbFrame>): Display {
    After(v.from, Arrivals(Since(v, frames)))
  }

  /** What is shown once everything the bridge has written since is read. */
  function Shown(v: View, b: B.Bridge): Display {
    Watched(v, b.usb.frames)
  }

  // ----- texts that move nothing -----

  /** No text the mirror acts on begins with these two letters. */
  predicate HarmlessPair(c: char, d: char) {
    && !(c == 'c' && (d == 'o' || d == 'l'))
    && !(c == 't' && d == 'c')
    && !(c == 'd' && d == 'i')
    && !(c == 'r' && d == 'e')
    && !(c == 'i' && d == 'n')
    && !(c == 'k' && d == 'e')
  }

  predicate Harmless(s: string) {
    |s| >= 2 && Small(s[0]) && Small(s[1]) && HarmlessPair(s[0], s[1])
  }

  lemma OtherFront(t: string, p: string, k: nat)
    requires k < |t| && k < |p| && t[k] != p[k]
    ensures t != p && !StartsWith(t, p)
  {
    assert |p| <= |t| ==> t[k] == t[..|p|][k];
  }

  lemma OtherPair(t: string, p: string)
    requires |t| >= 2 && |p| >= 2 && (t[0] != p[0] || t[1] != p[1])
    ensures t != p && !StartsWith(t, p)
  {
    OtherFront(t, p, if t[0] != p[0] then 0 else 1);
  }

  lemma AsciiSpells(s: string)
    requires AllSmall(s)
    ensures Spells(Ascii(s), s)
  {
    forall k | 0 <= k < |s|
      ensures s[k] as int == Ascii(s)[k] < 0x80
    {
      assert Small(s[k]);
    }
  }

  /** A text that begins with such characters is seen to begin with them. */
  lemma FrontSeen(s: string, n: nat)
    requires 0 < n <= |s| && AllSmall(s[..n])
    ensures StartsWith(Normal(Ascii(s)), s[..n])
  {
    hide AllSmall, Normal;
    AsciiSpells(s[..n]);
    assert forall k :: 0 <= k < n ==> Ascii(s)[k] == Ascii(s[..n])[k];
    NormalFront(Ascii(s), s[..n]);
  }

  lemma PairSeen(s: string)
    requires |s| >= 2 && Small(s[0]) && Small(s[1])
    ensures |Normal(Ascii(s))| >= 2 && Normal(Ascii(s))[0] == s[0] && Normal(Ascii(s))[1] == s[1]
  {
    hide Small, Normal;
    assert AllSmall(s[..2]);
    FrontSeen(s, 2);
    var t := Normal(Ascii(s));
    assert t[0] == t[..2][0] && t[1] == t[..2][1];
  }

  lemma HarmlessMovesNothing(s: string)
    requires Harmless(s)
    ensures M.ProgressOf(Normal(Ascii(s))).NoProgress?
    ensures Normal(Ascii(s)) != "keepalive_retry_exhausted" && !StartsWith(Normal(Ascii(s)), "realtime_data_halted")
  {
    hide Normal, StartsWith;
    PairSeen(s);
    var t := Normal(Ascii(s));
    OtherPair(t, "connect_ack");
    OtherPair(t, "tcp_connected");
    OtherPair(t, "client_connected");
    OtherPair(t, "disconnect_ack");
    OtherPair(t, "reset_ack");
    OtherPair(t, "initialize_ack");
    OtherPair(t, "connect_success");
    OtherPair(t, "keepalive_retry_exhausted");
    OtherPair(t, "realtime_data_halted");
  }

  lemma ConnectedTextNormal(session: u32)
    ensures M.ProgressOf(Normal(Ascii(ConnectedText(session)))).ClientConnected?
  {
    var t := ConnectedText(session);
    var n := |"client_connected"|;
    assert t[..n] == "client_connected";
    FrontSeen(t, n);
    assert Normal(Ascii(t))[1] == Normal(Ascii(t))[..n][1];
  }

  lemma TagNormal(tag: string, m: Meta)
    requires Tag(tag)
    ensures StartsWith(Normal(Ascii(Payload(tag, m))), tag)
    ensures tag == "ka_resp" ==> !StartsWith(Normal(Ascii(Payload(tag, m))), "ka_req")
  {
    hide MetaFields;
    var t := Payload(tag, m);
    assert t[..|tag|] == tag;
    FrontSeen(t, |tag|);
    if tag == "ka_resp" {
      assert Normal(Ascii(t))[5] == Normal(Ascii(t))[..7][5];
      OtherFront(Normal(Ascii(t)), "ka_req", 5);
    }
  }

  // ----- one written frame -----

  lemma EmitShown(v: View, b: B.Bridge, kind: byte, sequence: u16, payload: UsbPayload)
    ensures var f := UsbFrame(kind, b.s.server, b.s.client, sequence, payload);
            Shown(v, EmitUsb(b, kind, sequence, payload))
            == if v.skip <= |b.usb.frames| then Moved(Shown(v, b), Arrived(f)) else Shown(v, b)
  {
    hide Moved, Arrived;
    var f := UsbFrame(kind, b.s.server, b.s.client, sequence, payload);
    var r := EmitUsb(b, kind, sequence, payload);
    if v.skip <= |b.usb.frames| {
      var d := Shown(v, b);
      assert Since(v, r.usb.frames) == Since(v, b.usb.frames) + [f];
      assert Arrivals(Since(v, r.usb.frames)) == Arrivals(Since(v, b.usb.frames)) + [Arrived(f)];
      AfterInTwo(v.from, Arrivals(Since(v, b.usb.frames)), [Arrived(f)]);
      assert After(d, [Arrived(f)]) == After(Moved(d, Arrived(f)), [Arrived(f)][1..]);
    }
  }

  /** A frame that leaves the display as it is. */
  predicate Calm(kind: int, payload: UsbPayload) {
    || kind == DATA
    || ((kind == ACK || kind == ERROR) && payload.Text? && Harmless(payload.text))
  }

  lemma CalmShown(v: View, b: B.Bridge, kind: byte, sequence: u16, payload: UsbPayload)
    requires Calm(kind, payload)
    ensures Shown(v, EmitUsb(b, kind, sequence, payload)) == Shown(v, b)
  {
    hide EmitUsb, Normal, Watched, Harmless, M.ProgressOf;
    EmitShown(v, b, kind, sequence, payload);
    if kind != DATA {
      HarmlessMovesNothing(payload.text);
    }
  }

  lemma TelemetryShown(v: View, b: B.Bridge, text: string)
    ensures Shown(v, Notify(b, DATA, text)) == Shown(v, b)
  {
    hide EmitUsb;
    CalmShown(v, b, DATA, b.usb.sequence, UsbPayload.Text(text));
  }

  lemma EnterKeepaliveShown(v: View, b: B.Bridge, next: State)
    requires next.Keepalive()
    ensures Shown(v, EnterState(b, next)) == Shown(v, b)
  {
    hide Notify, TelemetryText, Watched;
    var b2 := b.(s := b.s.(state := next));
    TelemetryShown(v, b2, TelemetryText(b2.tele));
  }

  // ----- one step -----

  /**
   The display agrees with a live session: the same state and counters, the client's being the
   one waited for in ClientReturn; before the first exchange is complete, Connect.
   */
  ghost predicate Agrees(s: Session, d: Display) {
    Live(s) ==>
      if s.lastCompleted == 0 then d.state.Connect?
      else
        && d.state == s.state
        && d.server == s.server
        && d.client == (if s.state.ServerSend? then s.client else s.server + 1)
  }

  /** What is shown of the bridge agrees with it. */
  ghost predicate Sim(v: View, b: B.Bridge) {
    v.skip <= |b.usb.frames| && Agrees(b.s, Shown(v, b))
  }

  lemma ConnectSim(v: View, b: B.Bridge, transport: Transport, f: Frame, fate: Fate)
    requires v.skip <= |b.usb.frames|
    requires FieldsFit(f)
    ensures Sim(v, HandleConnect(b, transport, f, fate))
  {
    hide EnterState, EmitUsb, Watched, Normal, M.ProgressOf, ConnectedText, VersionFault, Reply;
    var r := HandleConnect(b, transport, f, fate);
    var b1 := EnterState(b, Connect);
    var b2 := b1.(s := Opened(b1.s));
    if Live(r.s) {
      var text := ConnectedText(b2.s.session);
      var b3 := Reply(b2, transport, ACK, f, text, fate);
      ConnectedTextNormal(b2.s.session);
      EmitShown(v, b3, ACK, b3.usb.sequence, UsbPayload.Text(text));
      EnterKeepaliveShown(v, Notify(b3, ACK, text), ServerSend);
    }
  }

  /** The mirror shows a request whose counters fit, and passes over any other. */
  lemma RequestShown(v: View, b: B.Bridge, meta: Meta)
    requires v.skip <= |b.usb.frames|
    ensures var d := Shown(v, Notify(b, KEEPALIVE, Payload("ka_req", meta)));
            if b.s.server % 2 == 0 && b.s.client % 2 == 1 && b.s.client + 1 == b.s.server
            then d.state == ClientReturn && d.server == b.s.server && d.client == b.s.server + 1
            else d == Shown(v, b)
  {
    hide EmitUsb, Watched, Normal, Payload, Ascii, MovedByError, MovedByText, CommandText;
    var payload := UsbPayload.Text(Payload("ka_req", meta));
    TagNormal("ka_req", meta);
    EmitShown(v, b, KEEPALIVE, b.usb.sequence, payload);
  }

  /** And so it does a response. */
  lemma ResponseShown(v: View, b: B.Bridge, meta: Meta)
    requires v.skip <= |b.usb.frames|
    requires b.s.server % 2 == 0 && b.s.client + 1 == b.s.server
    ensures var d := Shown(v, Notify(b, KEEPALIVE, Payload("ka_resp", meta)));
            d.state == ServerSend && d.server == b.s.server && d.client == b.s.client
  {
    hide EmitUsb, Watched, Normal, Payload, Ascii, MovedByError, MovedByText, CommandText;
    var payload := UsbPayload.Text(Payload("ka_resp", meta));
    TagNormal("ka_resp", meta);
    EmitShown(v, b, KEEPALIVE, b.usb.sequence, payload);
  }

  /** A request brings any display to ClientReturn, except before the first exchange: then it leaves it alone. */
  lemma RequestStep(v: View, b: B.Bridge, reuse: bool, env: Env)
    requires v.skip <= |b.usb.frames|
    requires Live(b.s) && b.s.session != 0 && Roomy(b.s) && b.s.server == 2 * b.s.lastCompleted
    requires b.s.client == (if b.s.lastCompleted == 0 then 1 else b.s.server - 1)
    ensures var r := SendKeepalive(b, reuse, env.fate, env.clock);
            && |r.s.sent| == |b.s.sent| + 1 && r.s.completed == b.s.completed && r.s.session in {b.s.session, 0}
            && (Live(r.s) ==> r.s.lastCompleted == b.s.lastCompleted)
            && (Live(r.s) ==> if b.s.lastCompleted > 0 then Sim(v, r) else Shown(v, r) == Shown(v, b))
  {
    hide EnterState, Notify, Shown, Payload, Ascii, SendTcp;
    var b1 := b.(s := Requested(b.s, reuse, env.clock));
    var meta := MetaOf(b1, b1.s.pendingRequest);
    var text := Payload("ka_req", meta);
    var b2 := SendTcp(b1, KEEPALIVE, Ascii(text), env.fate);
    if !Breaks(b1, env.fate) {
      SameShown(v, b, b2);
      RequestShown(v, b2, meta);
      var b3 := Notify(b2, KEEPALIVE, text);
      var b4 := b3.(s := b3.s.(lastTx := env.clock.sent, pending := true, windowStarted := env.clock.armed));
      SameShown(v, b3, b4);
      EnterKeepaliveShown(v, b4, ClientReturn);
      assert b1.s.server == b.s.server && b1.s.client == b.s.client;
    }
  }

  /** So a display in agreement stays so. */
  lemma RequestSim(v: View, b: B.Bridge, reuse: bool, env: Env)
    requires v.skip <= |b.usb.frames|
    requires Live(b.s) && b.s.session != 0 && (b.s.lastCompleted == 0 ==> Shown(v, b).state.Connect?)
    requires Roomy(b.s) && b.s.server == 2 * b.s.lastCompleted
    requires b.s.client == (if b.s.lastCompleted == 0 then 1 else b.s.server - 1)
    ensures Sim(v, SendKeepalive(b, reuse, env.fate, env.clock))
  {
    hide SendKeepalive, Shown;
    RequestStep(v, b, reuse, env);
  }

  lemma SameShown(v: View, b: B.Bridge, r: B.Bridge)
    requires r.usb == b.usb
    ensures Shown(v, r) == Shown(v, b)
  {
  }

  lemma AnsweredCounters(s: Session)
    requires Live(s) && s.state.ClientReturn? && SessionInv(s) && Roomy(s)
    ensures var r := Answered(s, Inc32(s.server));
            && r.server == s.server + 2 && r.client == s.server + 1 && r.server % 2 == 0
            && r.lastCompleted == s.lastCompleted + 1 && r.attached
  {
  }

  /** A completed exchange brings the display to ServerSend, from whatever it showed before. */
  lemma CompleteSim(v: View, b: B.Bridge, f: Frame, env: Env)
    requires v.skip <= |b.usb.frames|
    requires FieldsFit(f) && Live(b.s) && b.s.state.ClientReturn? && SessionInv(b.s) && Roomy(b.s)
    requires f.device == Inc32(b.s.server)
    ensures Sim(v, Complete(b, f, env))
  {
    hide EnterState, Notify, Shown, Payload, SendTcp, DelayMs, ToI32, RealtimePayload, Answered;
    AnsweredCounters(b.s);
    var delay := DelayMs(b.s, env.clock.enter);
    var longest := if delay > b.tele.maxDelay then delay else b.tele.maxDelay;
    var b1 := b.(s := Answered(b.s, f.device), tele := b.tele.(lastDelay := ToI32(delay), maxDelay := longest));
    var b2 := EnterState(b1, ServerSend);
    if !Breaks(b2, env.fate) {
      var meta := MetaOf(b2, b2.s.lastCompleted);
      ResponseShown(v, b2, meta);
      SameShown(v, Notify(b2, KEEPALIVE, Payload("ka_resp", meta)), Complete(b, f, env));
    }
  }

  /** DATA from the host, while the session goes on, leaves the display alone. */
  lemma UsbDataShown(v: View, b: B.Bridge, f: Frame, env: Env)
    requires FieldsFit(f) && Live(HandleUsbData(b, f, env).s)
    ensures HandleUsbData(b, f, env).s == b.s && Shown(v, HandleUsbData(b, f, env)) == Shown(v, b)
  {
    hide EmitUsb, DisableWifi, EnableWifi, EnableFails, SendTcp, PayloadText, CommandOf, Watched, TelemetryText, Harmless;
    HarmlessTexts();
    match CommandOf(PayloadText(f.payload))
    case DisableCommand =>
    case EnableCommand =>
      var b1 := EnableWifi(b, env.wifi);
      CalmShown(v, RecordError(b1), ERROR, f.sequence, UsbPayload.Text("wifi_enable_failed"));
      CalmShown(v, b1, ACK, f.sequence, UsbPayload.Text("wifi_enabled"));
    case ResetTelemetry =>
      var delay := if b.s.state.Keepalive() then b.tele.lastDelay else -1;
      TelemetryReplyShown(v, b.(tele := Telemetry(delay, 0, 0)), f, "telemetry_reset_ack");
    case ResetMaxDelay =>
      TelemetryReplyShown(v, b.(tele := b.tele.(maxDelay := 0)), f, "telemetry_reset_max_delay_ack");
    case NoCommand => ForwardShown(v, b, f, env);
  }

  lemma UsbDataSim(v: View, b: B.Bridge, f: Frame, env: Env)
    requires FieldsFit(f) && Sim(v, b)
    ensures Sim(v, HandleUsbData(b, f, env))
  {
    hide HandleUsbData, Shown;
    if Live(HandleUsbData(b, f, env).s) {
      UsbDataShown(v, b, f, env);
    }
  }

  lemma HarmlessTexts()
    ensures Harmless("wifi_enable_failed") && Harmless("wifi_enabled")
    ensures Harmless("telemetry_reset_ack") && Harmless("telemetry_reset_max_delay_ack")
    ensures Harmless("data_ack") && Harmless("data_forwarded_tcp") && Harmless("data_ignored_not_in_keepalive_session")
    ensures Harmless("usb_keepalive_not_supported") && Harmless("unsupported")
  {
    hide Harmless;
    HarmlessFront("wifi_enable_failed", 'w', 'i');
    HarmlessFront("wifi_enabled", 'w', 'i');
    HarmlessFront("telemetry_reset_ack", 't', 'e');
    HarmlessFront("telemetry_reset_max_delay_ack", 't', 'e');
    HarmlessFront("data_ack", 'd', 'a');
    HarmlessFront("data_forwarded_tcp", 'd', 'a');
    HarmlessFront("data_ignored_not_in_keepalive_session", 'd', 'a');
    HarmlessFront("usb_keepalive_not_supported", 'u', 's');
    HarmlessFront("unsupported", 'u', 'n');
  }

  lemma HarmlessFront(s: string, c: char, d: char)
    requires |s| >= 2 && s[0] == c && s[1] == d && Small(c) && Small(d) && HarmlessPair(c, d)
    ensures Harmless(s)
  {
  }

  lemma TelemetryReplyShown(v: View, b: B.Bridge, f: Frame, text: string)
    requires FieldsFit(f) && Harmless(text)
    ensures Shown(v, TelemetryReply(b, f, text)) == Shown(v, b)
  {
    hide EmitUsb, Notify, Harmless;
    var b1 := EmitUsb(b, ACK, f.sequence, UsbPayload.Text(text));
    CalmShown(v, b, ACK, f.sequence, UsbPayload.Text(text));
    TelemetryShown(v, b1, TelemetryText(b1.tele));
  }

  lemma ForwardShown(v: View, b: B.Bridge, f: Frame, env: Env)
    requires FieldsFit(f) && CommandOf(PayloadText(f.payload)).NoCommand? && Live(HandleUsbData(b, f, env).s)
    ensures HandleUsbData(b, f, env).s == b.s && Shown(v, HandleUsbData(b, f, env)) == Shown(v, b)
  {
    hide EmitUsb, DisableWifi, EnableWifi, EnableFails, TelemetryReply, SendTcp, PayloadText, CommandOf, Watched, Harmless;
    HarmlessTexts();
    CalmShown(v, b, ACK, f.sequence, UsbPayload.Text("data_ack"));
    CalmShown(v, RecordError(b), ACK, f.sequence, UsbPayload.Text("data_ignored_not_in_keepalive_session"));
    CalmShown(v, SendTcp(b, DATA, f.payload, env.fate), ACK, f.sequence, UsbPayload.Text("data_forwarded_tcp"));
  }

  /** And so does DATA from the client. */
  lemma TcpDataShown(v: View, b: B.Bridge, f: Frame, env: Env)
    requires FieldsFit(f) && Live(HandleTcpData(b, f, env).s)
    ensures HandleTcpData(b, f, env).s == b.s && Shown(v, HandleTcpData(b, f, env)) == Shown(v, b)
  {
    hide EmitUsb, SendTcp, Watched, Ascii;
    CalmShown(v, b, DATA, f.sequence, Forwarded(f.payload));
  }

  lemma TcpDataSim(v: View, b: B.Bridge, f: Frame, env: Env)
    requires FieldsFit(f) && Sim(v, b)
    ensures Sim(v, HandleTcpData(b, f, env))
  {
    hide HandleTcpData, Shown;
    if Live(HandleTcpData(b, f, env).s) {
      TcpDataShown(v, b, f, env);
    }
  }

  lemma KeepaliveSim(v: View, b: B.Bridge, transport: Transport, f: Frame, env: Env)
    requires FieldsFit(f) && Sim(v, b) && SessionInv(b.s) && Roomy(b.s) && (transport.Tcp? ==> b.s.attached)
    ensures Sim(v, HandleKeepalive(b, transport, f, env))
  {
    hide EmitUsb, Complete, VersionFault, Judge, Watched, SessionInv, Harmless;
    match transport
    case Usb =>
      HarmlessTexts();
      CalmShown(v, b, ACK, f.sequence, UsbPayload.Text("usb_keepalive_not_supported"));
    case Tcp =>
      JudgeAccepts(b.s, f);
      if Judge(b.s, f).Accepted? {
        CompleteSim(v, b, f, env);
      }
  }

  lemma OtherShown(v: View, b: B.Bridge, transport: Transport, f: Frame, env: Env)
    requires FieldsFit(f) && f.kind !in {RESET, INITIALIZE, CONNECT, DISCONNECT, KEEPALIVE, DATA}
    requires Live(HandleFrame(b, transport, f, env).s)
    ensures HandleFrame(b, transport, f, env).s == b.s && Shown(v, HandleFrame(b, transport, f, env)) == Shown(v, b)
  {
    hide EmitUsb, EnterState, SendTcp, Watched, Harmless, Ascii;
    HarmlessTexts();
    CalmShown(v, RecordError(b), ERROR, f.sequence, UsbPayload.Text("unsupported"));
  }

  lemma OtherSim(v: View, b: B.Bridge, transport: Transport, f: Frame, env: Env)
    requires FieldsFit(f) && Sim(v, b) && f.kind !in {RESET, INITIALIZE, CONNECT, DISCONNECT, KEEPALIVE, DATA}
    ensures Sim(v, HandleFrame(b, transport, f, env))
  {
    hide HandleFrame, Shown;
    if Live(HandleFrame(b, transport, f, env).s) {
      OtherShown(v, b, transport, f, env);
    }
  }

  lemma FrameSim(v: View, b: B.Bridge, transport: Transport, f: Frame, env: Env)
    requires FieldsFit(f) && Sim(v, b) && SessionInv(b.s) && Roomy(b.s) && (transport.Tcp? ==> b.s.attached)
    ensures Sim(v, HandleFrame(b, transport, f, env))
  {
    hide HandleReset, HandleInitialize, HandleConnect, HandleDisconnect, HandleKeepalive, HandleUsbData, HandleTcpData,
         Shown, DataVersion, Judge;
    if f.kind == CONNECT {
      ConnectSim(v, b, transport, f, env.fate);
    } else if f.kind == KEEPALIVE {
      KeepaliveSim(v, b, transport, f, env);
    } else if f.kind == DATA {
      UsbDataSim(v, b, f, env);
      TcpDataSim(v, b, f, env);
    } else if f.kind !in {RESET, INITIALIZE, CONNECT, DISCONNECT, KEEPALIVE, DATA} {
      OtherSim(v, b, transport, f, env);
    }
  }

  lemma ClockWorkSim(v: View, b: B.Bridge, env: Env)
    requires Sim(v, b) && SessionInv(b.s) && Roomy(b.s)
    ensures Sim(v, EngineTick(b, env))
    ensures Sim(v, WatchdogTick(b, env))
  {
    hide SendKeepalive, EnterState, Teardown, Watched, WindowExpired, EvenUp, OddUp;
    if RequestDue(b.s, env.clock.enter) {
      RequestSim(v, b, false, env);
    }
    if Live(b.s) && b.s.state.ClientReturn? {
      var b1 := RecordError(b.(s := b.s.(retries := Inc32(b.s.retries))));
      EnterKeepaliveShown(v, b1, ServerSend);
      RequestSim(v, EnterState(b1, ServerSend), true, env);
    }
  }

  lemma StepSim(v: View, b: B.Bridge, e: Event, env: Env)
    requires GoodEvent(e) && Sim(v, b) && SessionInv(b.s) && Roomy(b.s)
    ensures Sim(v, Step(b, e, env))
  {
    hide HandleFrame, Accept, CloseClient, EngineTick, WatchdogTick, Notify, Shown;
    match e
    case UsbFrameIn(f) => FrameSim(v, b, Usb, f, env);
    case TcpFrame(f) =>
      if b.s.attached {
        FrameSim(v, b, Tcp, f, env);
      }
    case Accepts =>
    case PeerCloses =>
    case BadStream(parseFailed) =>
    case Engine => ClockWorkSim(v, b, env);
    case Watchdog => ClockWorkSim(v, b, env);
  }

  // ----- a session is opened -----

  predicate Connecting(e: Event) {
    (e.UsbFrameIn? || e.TcpFrame?) && e.frame.kind == CONNECT
  }

  predicate OpensSession(s: Session, r: Session) {
    r.session !in {s.session, 0}
  }

  lemma FrameKeepsSession(b: B.Bridge, transport: Transport, f: Frame, env: Env)
    requires FieldsFit(f) && f.kind != CONNECT
    ensures HandleFrame(b, transport, f, env).s.session in {b.s.session, 0}
  {
    hide HandleReset, HandleInitialize, HandleConnect, HandleDisconnect, HandleKeepalive, HandleUsbData, HandleTcpData,
         Reply, EnterState, Judge, PayloadText, DataVersion;
  }

  lemma OnlyConnectOpens(b: B.Bridge, e: Event, env: Env)
    requires GoodEvent(e) && OpensSession(b.s, Step(b, e, env).s)
    ensures Connecting(e)
  {
    hide HandleFrame, Accept, CloseClient, EngineTick, WatchdogTick, Notify;
    if !Connecting(e) {
      match e
      case UsbFrameIn(f) => FrameKeepsSession(b, Usb, f, env);
      case TcpFrame(f) => FrameKeepsSession(b, Tcp, f, env);
      case Accepts =>
      case PeerCloses =>
      case BadStream(_) =>
      case Engine => ClockKeepsSession(b, env);
      case Watchdog => ClockKeepsSession(b, env);
    }
  }

  lemma ClockKeepsSession(b: B.Bridge, env: Env)
    ensures EngineTick(b, env).s.session in {b.s.session, 0}
    ensures WatchdogTick(b, env).s.session in {b.s.session, 0}
  {
    hide SendKeepalive, EnterState, Teardown, WindowExpired, EvenUp, OddUp;
  }

  lemma ConnectAnnounced(b: B.Bridge, transport: Transport, f: Frame, fate: Fate)
    requires FieldsFit(f) && Live(HandleConnect(b, transport, f, fate).s)
    ensures Announced(Arrivals(HandleConnect(b, transport, f, fate).usb.frames[|b.usb.frames|..]))
  {
    var r := HandleConnect(b, transport, f, fate);
    var b2 := EnterState(b, Connect).(s := Opened(EnterState(b, Connect).s));
    var text := ConnectedText(b2.s.session);
    var b3 := Reply(b2, transport, ACK, f, text, fate);
    hide EnterState, Normal, M.ProgressOf, ConnectedText, VersionFault, Reply;
    var n := |b3.usb.frames|;
    assert r == EnterState(Notify(b3, ACK, text), ServerSend);
    assert Notify(b3, ACK, text).usb.frames[n]
           == UsbFrame(ACK, b3.s.server, b3.s.client, b3.usb.sequence, UsbPayload.Text(text));
    ConnectedTextNormal(b2.s.session);
    assert r.usb.frames[|b.usb.frames|..][n - |b.usb.frames|] == r.usb.frames[n] == Notify(b3, ACK, text).usb.frames[n];
    assert Announces(Arrivals(r.usb.frames[|b.usb.frames|..])[n - |b.usb.frames|]);
  }

  /** The step that opens a session brings any display into agreement, and is announced. */
  lemma OpeningSim(v: View, b: B.Bridge, e: Event, env: Env)
    requires GoodEvent(e) && v.skip <= |b.usb.frames| && OpensSession(b.s, Step(b, e, env).s)
    ensures var r := Step(b, e, env);
            Sim(v, r) && (Live(r.s) ==> Announced(Arrivals(r.usb.frames[|b.usb.frames|..])))
  {
    OnlyConnectOpens(b, e, env);
    assert Step(b, e, env) == HandleFrame(b, if e.UsbFrameIn? then Usb else Tcp, e.frame, env);
    hide Step, HandleConnect, Sim, Announced, Arrivals;
    var transport := if e.UsbFrameIn? then Usb else Tcp;
    assert Step(b, e, env) == HandleConnect(b, transport, e.frame, env.fate);
    ConnectSim(v, b, transport, e.frame, env.fate);
    if Live(Step(b, e, env).s) {
      ConnectAnnounced(b, transport, e.frame, env.fate);
    }
  }

  /** A session is live only if it was live before, or is opened now. */
  lemma LiveBefore(s: Session, r: Session, clock: Clock)
    requires SessionInv(s) && Roomy(s) && Moves(s, r, clock) && Live(r) && !OpensSession(s, r)
    ensures Live(s)
  {
    hide LiveInv, EvenUp, OddUp, WindowExpired;
  }

  // ----- what brings a lost display back -----

  /** A step after which the session is live, and that opens it, completes an exchange, or asks after the first one. */
  ghost predicate Restores(s: Session, r: Session) {
    Live(r) && (OpensSession(s, r) || |r.completed| > |s.completed| || (|r.sent| > |s.sent| && s.lastCompleted > 0))
  }

  /** Such steps bring any display into agreement, and the other steps of a live session leave any display alone. */
  ghost predicate RestoresExactly(v: View, b: B.Bridge, r: B.Bridge) {
    if Restores(b.s, r.s) then Sim(v, r) else Shown(v, r) == Shown(v, b)
  }

  lemma KeepaliveStep(v: View, b: B.Bridge, transport: Transport, f: Frame, env: Env)
    requires v.skip <= |b.usb.frames| && FieldsFit(f) && Live(b.s) && SessionInv(b.s) && Roomy(b.s)
    requires Live(HandleKeepalive(b, transport, f, env).s)
    ensures RestoresExactly(v, b, HandleKeepalive(b, transport, f, env))
  {
    hide EmitUsb, Complete, VersionFault, Judge, Watched, SessionInv, Harmless;
    match transport
    case Usb =>
      HarmlessTexts();
      CalmShown(v, b, ACK, f.sequence, UsbPayload.Text("usb_keepalive_not_supported"));
    case Tcp =>
      JudgeAccepts(b.s, f);
      if Judge(b.s, f).Accepted? {
        CompleteSim(v, b, f, env);
      }
  }

  lemma FrameStep(v: View, b: B.Bridge, transport: Transport, f: Frame, env: Env)
    requires v.skip <= |b.usb.frames| && FieldsFit(f) && f.kind != CONNECT && Live(b.s) && SessionInv(b.s) && Roomy(b.s)
    requires Live(HandleFrame(b, transport, f, env).s)
    ensures RestoresExactly(v, b, HandleFrame(b, transport, f, env))
  {
    hide HandleReset, HandleInitialize, HandleConnect, HandleDisconnect, HandleKeepalive, HandleUsbData, HandleTcpData,
         Shown, DataVersion, Judge, Reply, EnterState;
    if f.kind == KEEPALIVE {
      KeepaliveStep(v, b, transport, f, env);
    } else if f.kind == DATA {
      if transport.Usb? {
        UsbDataShown(v, b, f, env);
      } else {
        TcpDataShown(v, b, f, env);
      }
    } else if f.kind !in {RESET, INITIALIZE, CONNECT, DISCONNECT, KEEPALIVE, DATA} {
      OtherShown(v, b, transport, f, env);
    }
  }

  lemma ClockWorkStep(v: View, b: B.Bridge, env: Env)
    requires v.skip <= |b.usb.frames| && Live(b.s) && SessionInv(b.s) && Roomy(b.s)
    ensures Live(EngineTick(b, env).s) ==> RestoresExactly(v, b, EngineTick(b, env))
    ensures Live(WatchdogTick(b, env).s) ==> RestoresExactly(v, b, WatchdogTick(b, env))
  {
    hide SendKeepalive, EnterState, Teardown, Watched, WindowExpired, EvenUp, OddUp;
    if RequestDue(b.s, env.clock.enter) {
      RequestStep(v, b, false, env);
    }
    if b.s.state.ClientReturn? {
      var b1 := RecordError(b.(s := b.s.(retries := Inc32(b.s.retries))));
      EnterKeepaliveShown(v, b1, ServerSend);
      RequestStep(v, EnterState(b1, ServerSend), true, env);
    }
  }

  lemma LiveStep(v: View, b: B.Bridge, e: Event, env: Env)
    requires GoodEvent(e) && v.skip <= |b.usb.frames| && Live(b.s) && SessionInv(b.s) && Roomy(b.s)
    requires Live(Step(b, e, env).s)
    ensures RestoresExactly(v, b, Step(b, e, env))
  {
    hide HandleFrame, Accept, CloseClient, EngineTick, WatchdogTick, Notify, Sim, Watched;
    if Connecting(e) {
      ConnectStep(v, b, e, env);
    } else {
      match e
      case UsbFrameIn(f) => FrameStep(v, b, Usb, f, env);
      case TcpFrame(f) =>
        if b.wifiEnabled {
          FrameStep(v, b, Tcp, f, env);
        }
      case Accepts =>
      case PeerCloses =>
      case BadStream(_) =>
      case Engine => ClockWorkStep(v, b, env);
      case Watchdog => ClockWorkStep(v, b, env);
    }
  }

  lemma ConnectStep(v: View, b: B.Bridge, e: Event, env: Env)
    requires GoodEvent(e) && Connecting(e) && v.skip <= |b.usb.frames| && SessionInv(b.s) && Roomy(b.s)
    requires Live(b.s) && Live(Step(b, e, env).s)
    ensures RestoresExactly(v, b, Step(b, e, env))
  {
    hide HandleConnect, Sim, Watched;
    if OpensSession(b.s, Step(b, e, env).s) {
      OpeningSim(v, b, e, env);
    }
  }

  /** Written in a live session, frames settle the display exactly if the step restores it. */
  lemma SettlesExactly(b: B.Bridge, e: Event, env: Env)
    requires GoodEvent(e) && Live(b.s) && SessionInv(b.s) && Roomy(b.s) && Live(Step(b, e, env).s)
    ensures var r := Step(b, e, env);
            Settled(Arrivals(r.usb.frames[|b.usb.frames|..])) <==> Restores(b.s, r.s)
  {
    var v := View(Still(Error), |b.usb.frames|);
    var r := Step(b, e, env);
    LiveStep(v, b, e, env);
    SettledForgets(Still(Error), Still(Error), Arrivals(r.usb.frames[|b.usb.frames|..]));
    assert Since(v, b.usb.frames) == [];
    hide Step, Settled, Arrivals, After;
  }

  // ----- a run -----

  /** From state j on, what was shown before does not matter: no session is live, or one is opened. */
  ghost predicate Begins(states: seq<B.Bridge>, j: nat)
    requires j < |states|
  {
    !Live(states[j].s) || (j + 1 < |states| && OpensSession(states[j].s, states[j + 1].s))
  }

  lemma {:induction false} FramesGrow(script: seq<Tick>, states: seq<B.Bridge>, j: nat, k: nat)
    requires FromPowerOn(script, states) && j <= k <= |script|
    ensures states[j].usb.frames <= states[k].usb.frames
    decreases k
  {
    hide Step, Boot, Roomy;
    if j < k {
      FramesGrow(script, states, j, k - 1);
      assert states[k] == Step(states[k - 1], script[k - 1].event, script[k - 1].env);
    }
  }

  /** Whoever reads all frames written from there on agrees with the bridge. */
  lemma {:induction false} TraceSim(script: seq<Tick>, states: seq<B.Bridge>, j: nat, k: nat, v: View)
    requires FromPowerOn(script, states) && j <= k <= |script|
    requires Begins(states, j) && (j < k || !Live(states[j].s)) && v.skip <= |states[j].usb.frames|
    ensures Sim(v, states[k])
    decreases k
  {
    hide Step, Boot, Sim, Moves, SessionInv, Roomy;
    if j == k {
      assert Sim(v, states[k]) by { NotLiveSim(v, states[k]); }
    } else {
      var t := script[k - 1];
      FramesGrow(script, states, j, k - 1);
      MoveAt(script, states, k - 1);
      assert states[k] == Step(states[k - 1], t.event, t.env);
      if OpensSession(states[k - 1].s, states[k].s) {
        OpeningSim(v, states[k - 1], t.event, t.env);
      } else {
        TraceSim(script, states, j, k - 1, v);
        StepSim(v, states[k - 1], t.event, t.env);
      }
    }
  }

  lemma NotLiveSim(v: View, b: B.Bridge)
    requires v.skip <= |b.usb.frames| && !Live(b.s)
    ensures Sim(v, b)
  {
  }
}
