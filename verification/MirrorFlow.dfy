/** What the host's actions come to: its automatic flow, its commands to the bridge, and the orders of clients. */
module MirrorFlow {
  import opened Options
  import opened Bytes
  import opened Frames
  import opened Text
  import opened HostText
  import opened KeepaliveText
  import opened B = Bridge
  import opened BridgeRuns
  import opened Simulation
  import opened BridgeTraffic
  import M = Mirror

  // ----- the automatic flow -----

  /** A reset was sent, and INITIALIZE is to follow. */
  ghost predicate Resetting(m: M.Mirror) {
    m.link.state.Reset? && m.next == Some(Initialize)
  }

  /** The frame the next command is sent in. */
  function NextCommand(m: M.Mirror, kind: int, payload: seq<byte>): (f: Frame)
    ensures f.sequence == (m.link.sequence + 1) % 0x1_0000
  {
    Frame(kind, m.link.server, m.link.client, (m.link.sequence + 1) % 0x1_0000, payload)
  }

  predicate Resets(a: M.Action) {
    a.ResetLink? || a.OpenSucceeds?
  }

  /** A reset, by the operator or on opening the port, sends one RESET with counters at 0 and forgets what was received. */
  lemma ResetStarts(m: M.Mirror, a: M.Action, config: seq<byte>, o: M.Outside)
    requires Resets(a) && o.sendOk
    ensures var r := M.Act(m, a, config, o);
            && Resetting(r) && r.inbox == [] && r.flags.wifiEnabled == m.flags.wifiEnabled
            && r.link.server == 0 && r.link.client == 0 && r.link.sequence == (m.link.sequence + 1) % 0x1_0000
            && r.commands == m.commands + [Frame(RESET, 0, 0, r.link.sequence, Ascii("reset"))]
  {
    hide Ascii;
  }

  lemma QuietSnapshot(m: M.Mirror, config: seq<byte>, o: M.Outside)
    requires m.inbox == []
    ensures M.Act(m, M.Snapshot, config, o) == M.Advance(M.CheckPort(m, o), config, o)
  {
    assert m.(inbox := []) == m;
    hide M.Advance, M.CheckPort;
  }

  lemma InitializeFollows(m: M.Mirror, config: seq<byte>, o: M.Outside)
    requires Resetting(m) && m.flags.wifiEnabled && o.portOpen && o.configured && o.sendOk
    ensures var r := M.Advance(M.CheckPort(m, o), config, o);
            && r.link.state.Initialize? && r.next == Some(Connect) && r.flags.wifiReady && r.inbox == m.inbox
            && r.commands == m.commands + [NextCommand(m, INITIALIZE, config)]
  {
  }

  lemma ConnectFollows(m: M.Mirror, config: seq<byte>, o: M.Outside)
    requires m.link.state.Initialize? && m.next == Some(Connect) && m.flags.wifiReady && o.portOpen
    ensures var r := M.Advance(M.CheckPort(m, o), config, o);
            r.link.state.Connect? && r.next.None? && r.commands == m.commands && r.inbox == m.inbox
  {
  }

  /**
   The automatic flow: after a reset the first snapshot sends INITIALIZE with the configuration, the
   second enters Connect, and each shows its stage.
   */
  lemma AutomaticFlow(m: M.Mirror, a: M.Action, config: seq<byte>, reset: M.Outside, first: M.Outside, second: M.Outside)
    requires Resets(a) && m.flags.wifiEnabled && reset.sendOk
    requires first.portOpen && first.configured && first.sendOk && second.portOpen
    ensures var m0 := M.Act(m, a, config, reset);
            var m1 := M.Act(m0, M.Snapshot, config, first);
            var m2 := M.Act(m1, M.Snapshot, config, second);
            && m0.link.state.Reset? && m1.link.state.Initialize? && m2.link.state.Connect? && m2.next.None?
            && m0.commands == m.commands + [Frame(RESET, 0, 0, (m.link.sequence + 1) % 0x1_0000, Ascii("reset"))]
            && m1.commands == m0.commands + [Frame(INITIALIZE, 0, 0, (m.link.sequence + 2) % 0x1_0000, config)]
            && m2.commands == m1.commands
  {
    hide M.Act, M.Advance, M.CheckPort, Ascii;
    ResetStarts(m, a, config, reset);
    var m0 := M.Act(m, a, config, reset);
    QuietSnapshot(m0, config, first);
    InitializeFollows(m0, config, first);
    var m1 := M.Act(m0, M.Snapshot, config, first);
    QuietSnapshot(m1, config, second);
    ConnectFollows(m1, config, second);
  }

  // ----- what is read on the way -----

  /** Commands are only added, and all of these are DATA. */
  ghost predicate AddsData(m: M.Mirror, r: M.Mirror) {
    && |m.commands| <= |r.commands| && r.commands[..|m.commands|] == m.commands
    && forall k :: |m.commands| <= k < |r.commands| ==> r.commands[k].kind == DATA
  }

  /** What reading leaves of the flow. */
  ghost predicate ReadOn(m: M.Mirror, r: M.Mirror) {
    && AddsData(m, r) && r.flags.wifiEnabled == m.flags.wifiEnabled && (r.next == m.next || r.next.None?)
  }

  /** Nothing was read that settles. */
  ghost predicate Unmoved(m: M.Mirror, r: M.Mirror) {
    && r.link.state == m.link.state && r.next == m.next
    && r.link.server == m.link.server && r.link.client == m.link.client
  }

  lemma AddsOn(a: M.Mirror, b: M.Mirror, c: M.Mirror)
    requires ReadOn(a, b) && ReadOn(b, c)
    ensures ReadOn(a, c)
  {
    assert c.commands[..|a.commands|] == c.commands[..|b.commands|][..|a.commands|];
  }

  lemma {:induction false} AnswersAdd(m: M.Mirror, answers: seq<M.Answer>)
    ensures ReadOn(m, M.SendAll(m, answers)) && Unmoved(m, M.SendAll(m, answers))
    decreases |answers|
  {
    if answers != [] {
      var m1 := M.SendCommand(m, DATA, answers[0].payload, answers[0].ok);
      assert ReadOn(m, m1);
      hide ReadOn;
      AnswersAdd(m1, answers[1..]);
      AddsOn(m, m1, M.SendAll(m1, answers[1..]));
    }
  }

  lemma OrdersAdd(m: M.Mirror, order: M.Order, given: seq<M.Answer>)
    ensures ReadOn(m, M.Obey(m, order, given)) && Unmoved(m, M.Obey(m, order, given))
  {
    hide M.AnswersTo, M.SendAll;
    AnswersAdd(m.(orders := m.orders + [order]), M.AnswersTo(order, given));
  }

  lemma TextFlow(m: M.Mirror, text: string)
    ensures var r, p := M.OnText(m, text), M.ProgressOf(text);
            && ReadOn(m, r)
            && (Resetting(r) <==> Resetting(m) && (p.NoProgress? || p.ConnectSuccess?))
            && (Resetting(r) ==> Unmoved(m, r))
            && (p.ResetAck? ==> r.next.None?)
  {
    hide M.ProgressOf;
    match M.ProgressOf(text)
    case ConnectAck =>
    case TcpConnected =>
    case ClientConnected =>
    case DisconnectAck =>
    case ResetAck =>
    case InitializeAck =>
    case ConnectSuccess =>
    case NoProgress =>
  }

  /** The bridge's acknowledgement of a reset. */
  predicate ResetAcked(f: M.HostFrame) {
    f.kind == ACK && M.ProgressOf(f.text).ResetAck?
  }

  lemma ErrorFlow(m: M.Mirror, text: string)
    ensures var r := M.OnError(M.ErrorCounted(m), text);
            && ReadOn(m, r) && r.next == m.next
            && (Resetting(r) <==> Resetting(m) && r.link.state == m.link.state)
            && (Resetting(r) ==> Unmoved(m, r))
  {
    hide StartsWith, ReadText, Tokens;
  }

  lemma ExchangeFlow(m: M.Mirror, f: M.HostFrame)
    ensures var r := M.OnRequest(m, f); ReadOn(m, r) && (if M.RequestFits(f) then !Resetting(r) else r == m)
    ensures var r := M.OnResponse(m, f); ReadOn(m, r) && (if M.RequestFits(f) then !Resetting(r) else r == m)
  {
  }

  lemma NotedFlow(m: M.Mirror, f: M.HostFrame)
    ensures ReadOn(m, M.Noted(m, f)) && Unmoved(m, M.Noted(m, f))
  {
  }

  lemma UnmovedOn(a: M.Mirror, b: M.Mirror, c: M.Mirror)
    requires ReadOn(a, b) && Unmoved(a, b) && ReadOn(b, c)
    ensures ReadOn(a, c) && (Resetting(a) <==> Resetting(b)) && (Unmoved(b, c) ==> Unmoved(a, c))
  {
    hide AddsData;
    AddsOn(a, b, c);
  }

  lemma ReceiveFlow(m: M.Mirror, f: M.HostFrame, given: seq<M.Answer>)
    ensures var r := M.Receive(m, f, given);
            && ReadOn(m, r)
            && (Resetting(r) <==> Resetting(m) && !Settles(f))
            && (Resetting(r) ==> Unmoved(m, r))
            && (ResetAcked(f) ==> r.next.None?)
  {
    hide M.ProgressOf, StartsWith, M.OrderOf, M.Obey, M.OnText, ReadText, Tokens, ReadOn, Unmoved, Resetting, M.Noted,
         M.OnRequest, M.OnResponse, M.OnError;
    var m1 := M.Noted(m, f);
    NotedFlow(m, f);
    UnmovedOn(m, m1, m1) by { ReadNothing(m1); }
    if f.kind == ERROR {
      ErrorFlow(m1, f.text);
      ErrorSettles(m1, f);
    } else if f.kind == DATA {
      var m2 := m1.(counts := m1.counts.(dataFrames := m1.counts.dataFrames + 1));
      OrdersAdd(m2, M.OrderOf(f.command), given);
      CountedFlow(m1, m2);
      UnmovedOn(m1, m2, M.Obey(m2, M.OrderOf(f.command), given));
      StillResetting(m2, M.Obey(m2, M.OrderOf(f.command), given));
    } else {
      TextFlow(m1, f.text);
      ExchangeFlow(m1, f);
    }
    UnmovedOn(m, m1, M.Receive(m, f, given));
    if M.Receive(m, f, given) == m1 {
      StillResetting(m1, m1);
    }
  }

  lemma CountedFlow(m: M.Mirror, r: M.Mirror)
    requires r == m.(counts := r.counts)
    ensures ReadOn(m, r) && Unmoved(m, r)
  {
  }

  lemma StillResetting(m: M.Mirror, r: M.Mirror)
    ensures Unmoved(m, m)
    ensures Unmoved(m, r) ==> (Resetting(r) <==> Resetting(m))
  {
  }

  lemma ErrorSettles(m: M.Mirror, f: M.HostFrame)
    requires f.kind == ERROR
    ensures Settles(f) ==> !Resetting(M.OnError(M.ErrorCounted(m), f.text))
    ensures !Settles(f) ==> M.OnError(M.ErrorCounted(m), f.text).link == m.link
  {
    hide StartsWith, ReadText, Tokens;
  }

  lemma TakeFlow(m: M.Mirror, f: M.HostFrame, given: seq<M.Answer>)
    ensures var r := M.Take(m, f, given);
            && ReadOn(m, r)
            && (!M.Fails(f) ==>
                  && (Resetting(r) <==> Resetting(m) && !Settles(f))
                  && (Resetting(r) ==> Unmoved(m, r))
                  && (ResetAcked(f) ==> r.next.None?))
  {
    hide M.Learned, M.TelemetryFails, M.LogFails, M.Receive, M.OrderOf, Settles, ResetAcked;
    ReceiveFlow(m.(timing := M.Learned(m.timing, f.text)), f, given);
  }

  lemma {:induction false} PollFlow(m: M.Mirror, fs: seq<M.HostFrame>, given: seq<seq<M.Answer>>)
    ensures var p := M.Poll(m, fs, given);
            && ReadOn(m, p.mirror)
            && (AllRead(fs) ==>
                  && (Resetting(p.mirror) <==> Resetting(m) && !Settled(fs))
                  && (Resetting(p.mirror) ==> Unmoved(m, p.mirror)))
    decreases |fs|
  {
    hide M.Fails, M.Take, Settles, ReadOn, Settled;
    if fs == [] {
      assert ReadOn(m, m) by { ReadNothing(m); }
      assert !Settled(fs) by { NothingSettled(); }
    } else {
      var m1 := M.Take(m, fs[0], M.AnswersFrom(given, 0));
      TakeFlow(m, fs[0], M.AnswersFrom(given, 0));
      if !M.Fails(fs[0]) {
        var more := if given == [] then [] else given[1..];
        PollFlow(m1, fs[1..], more);
        AddsOn(m, m1, M.Poll(m1, fs[1..], more).mirror);
        FirstSettled(fs);
        assert AllRead(fs) ==> AllRead(fs[1..]);
      }
    }
  }

  lemma ReadNothing(m: M.Mirror)
    ensures ReadOn(m, m)
  {
  }

  lemma NothingSettled()
    ensures !Settled([])
  {
  }

  lemma FirstSettled(fs: seq<M.HostFrame>)
    requires fs != []
    ensures Settled(fs) <==> Settles(fs[0]) || Settled(fs[1..])
  {
    hide Settles;
    assert fs == [fs[0]] + fs[1..];
    SettledInTwo([fs[0]], fs[1..]);
    assert Settled([fs[0]]) <==> Settles([fs[0]][0]);
  }

  /** INITIALIZE is among the commands added. */
  ghost predicate Initializes(m: M.Mirror, r: M.Mirror) {
    exists k :: |m.commands| <= k < |r.commands| && r.commands[k].kind == INITIALIZE
  }

  /** What the next snapshot needs to go on from Reset. */
  ghost predicate GoesOn(m: M.Mirror, o: M.Outside) {
    && AllRead(m.inbox) && !Settled(m.inbox)
    && m.flags.wifiEnabled && o.portOpen && o.configured && o.sendOk
  }

  /**
   With a reset under way the next snapshot sends INITIALIZE if and only if it can read everything
   received, nothing of it settles the mirror, Wi-Fi is enabled, and port, configuration and send are good.
   */
  lemma InitializeSentExactly(m: M.Mirror, config: seq<byte>, o: M.Outside)
    requires Resetting(m)
    ensures var r := M.Act(m, M.Snapshot, config, o);
            && (Initializes(m, r) <==> GoesOn(m, o))
            && (GoesOn(m, o) ==>
                  && r.link.state.Initialize? && r.next == Some(Connect)
                  && r.commands[|r.commands| - 1]
                     == Frame(INITIALIZE, m.link.server, m.link.client, r.link.sequence, config))
  {
    hide M.PollInbox, AllRead, Settled, M.Advance, M.CheckPort, M.Fault, Resetting, ReadOn, Initializes, Unmoved;
    InboxFlow(m, o.answers);
    var p := M.PollInbox(m, o.answers);
    PendingOf(m, p.mirror);
    WifiOf(m, p.mirror);
    var r := M.Act(m, M.Snapshot, config, o);
    NoneInitialized(m, p.mirror, r);
    if p.raised {
      FaultEnds(p.mirror);
    } else {
      AdvanceEnds(p.mirror, config, o);
    }
  }

  /** What reading everything received leaves of the flow. */
  lemma InboxFlow(m: M.Mirror, given: seq<seq<M.Answer>>)
    ensures var p := M.PollInbox(m, given);
            && ReadOn(m, p.mirror) && (p.raised <==> !AllRead(m.inbox))
            && (!p.raised ==>
                  && (Resetting(p.mirror) <==> Resetting(m) && !Settled(m.inbox))
                  && (Resetting(p.mirror) ==> Unmoved(m, p.mirror)))
  {
    hide M.Poll, AllRead, Settled;
    PollFlow(m.(inbox := []), m.inbox, given);
    PollRaises(m, given);
  }

  lemma PollRaises(m: M.Mirror, given: seq<seq<M.Answer>>)
    ensures M.PollInbox(m, given).raised <==> !AllRead(m.inbox)
  {
    hide M.PollInbox, AllRead, After, Announced, Shows;
    InboxMoves(m, given);
  }

  lemma PendingOf(m: M.Mirror, r: M.Mirror)
    requires Resetting(m)
    ensures ReadOn(m, r) ==> r.next != Some(Connect)
    ensures Unmoved(m, r) ==> r.link.server == m.link.server && r.link.client == m.link.client
  {
  }

  lemma WifiOf(m: M.Mirror, r: M.Mirror)
    ensures ReadOn(m, r) ==> r.flags.wifiEnabled == m.flags.wifiEnabled
  {
  }

  lemma NoneInitialized(m: M.Mirror, p: M.Mirror, r: M.Mirror)
    requires ReadOn(m, p)
    ensures r.commands == p.commands ==> !Initializes(m, r)
    ensures |r.commands| == |p.commands| + 1 && r.commands[|p.commands|].kind == INITIALIZE ==> Initializes(m, r)
  {
  }

  lemma FaultEnds(m: M.Mirror)
    ensures M.Fault(m).next.None? && M.Fault(m).commands == m.commands && M.Fault(m).link.state.Error?
  {
  }

  lemma AdvanceEnds(m: M.Mirror, config: seq<byte>, o: M.Outside)
    requires m.next != Some(Connect)
    ensures var r := M.Advance(M.CheckPort(m, o), config, o);
            if Resetting(m) && m.flags.wifiEnabled && o.portOpen && o.configured && o.sendOk then
              && r.link.state.Initialize? && r.next == Some(Connect)
              && r.commands == m.commands + [Frame(INITIALIZE, m.link.server, m.link.client, r.link.sequence, config)]
            else r.commands == m.commands
    ensures m.next.None? ==> M.Advance(M.CheckPort(m, o), config, o).next.None?
  {
  }

  // ----- the bridge's answer to the reset -----

  predicate AnyResetAcked(fs: seq<M.HostFrame>) {
    exists k :: 0 <= k < |fs| && ResetAcked(fs[k])
  }

  lemma {:induction false} PollEndsFlow(m: M.Mirror, fs: seq<M.HostFrame>, given: seq<seq<M.Answer>>)
    requires m.next.None? || AnyResetAcked(fs)
    ensures AllRead(fs) ==> M.Poll(m, fs, given).mirror.next.None?
    decreases |fs|
  {
    hide M.Fails, M.Take, ResetAcked, ReadOn;
    if fs != [] && !M.Fails(fs[0]) {
      var m1 := M.Take(m, fs[0], M.AnswersFrom(given, 0));
      TakeFlow(m, fs[0], M.AnswersFrom(given, 0));
      assert ReadOn(m, m1) ==> m1.next == m.next || m1.next.None? by { NextOf(m, m1); }
      if m1.next.Some? {
        var k :| 0 <= k < |fs| && ResetAcked(fs[k]);
        assert fs[1..][k - 1] == fs[k];
      }
      PollEndsFlow(m1, fs[1..], if given == [] then [] else given[1..]);
      assert AllRead(fs) ==> AllRead(fs[1..]);
    }
  }

  lemma NextOf(m: M.Mirror, r: M.Mirror)
    ensures ReadOn(m, r) ==> r.next == m.next || r.next.None?
  {
  }

  /** Once no flow is under way, or the acknowledgement of a reset is read, snapshots initialise nothing any more. */
  lemma FlowEnds(m: M.Mirror, config: seq<byte>, o: M.Outside)
    requires m.next.None? || AnyResetAcked(m.inbox)
    ensures var r := M.Act(m, M.Snapshot, config, o); r.next.None? && !Initializes(m, r)
  {
    hide M.PollInbox, AllRead, Settled, M.Advance, M.CheckPort, M.Fault, Resetting, ReadOn, Initializes, Unmoved,
         AnyResetAcked;
    InboxFlow(m, o.answers);
    var p := M.PollInbox(m, o.answers);
    if !p.raised {
      InboxEndsFlow(m, o.answers);
      AdvanceEnds(p.mirror, config, o);
    } else {
      FaultEnds(p.mirror);
    }
    NotResetting(p.mirror);
    NoneInitialized(m, p.mirror, M.Act(m, M.Snapshot, config, o));
  }

  lemma InboxEndsFlow(m: M.Mirror, given: seq<seq<M.Answer>>)
    requires m.next.None? || AnyResetAcked(m.inbox)
    ensures AllRead(m.inbox) ==> M.PollInbox(m, given).mirror.next.None?
  {
    hide M.Poll, AllRead, AnyResetAcked;
    PollEndsFlow(m.(inbox := []), m.inbox, given);
  }

  lemma NotResetting(m: M.Mirror)
    ensures m.next.None? ==> !Resetting(m)
  {
  }

  lemma ResetAckWritten(b: B.Bridge, f: Frame, fate: Fate) returns (k: nat)
    requires FieldsFit(f)
    ensures var us := HandleReset(b, Usb, f, fate).usb.frames;
            |b.usb.frames| <= k < |us| && us[k].kind == ACK && us[k].payload == UsbPayload.Text("reset_ack")
  {
    hide EnterState, CloseClient;
    k := |EnterState(b, Reset).usb.frames|;
  }

  lemma ResetStep(b: B.Bridge, f: Frame, env: Env)
    requires Parsed(f) && f.kind == RESET
    ensures Step(b, UsbFrameIn(f), env) == HandleReset(b, Usb, f, env.fate)
  {
    hide HandleReset, HandleInitialize, HandleConnect, HandleDisconnect, HandleKeepalive, HandleTcpData, HandleUsbData,
         Reply, EnterState, Accept, CloseClient, EngineTick, WatchdogTick, Notify;
  }

  /** The bridge acknowledges a RESET of the host in the step that takes it. */
  lemma ResetAnswered(b: B.Bridge, f: Frame, env: Env)
    requires Parsed(f) && f.kind == RESET
    ensures AnyResetAcked(Arrivals(Step(b, UsbFrameIn(f), env).usb.frames[|b.usb.frames|..]))
  {
    hide HandleReset, ResetAcked, Arrived, Step;
    ResetStep(b, f, env);
    var us, n := Step(b, UsbFrameIn(f), env).usb.frames, |b.usb.frames|;
    var k := ResetAckWritten(b, f, env.fate);
    AckSeen(us[k]);
    assert us[n..][k - n] == us[k];
    assert ResetAcked(Arrivals(us[n..])[k - n]);
  }

  lemma AckSeen(u: UsbFrame)
    requires u.kind == ACK && u.payload == UsbPayload.Text("reset_ack")
    ensures ResetAcked(Arrived(u))
  {
    SmallAck();
    hide AllSmall, Normal, Spells;
    AsciiSpells("reset_ack");
    NormalSmall(Ascii("reset_ack"), "reset_ack");
  }

  lemma SmallAck()
    ensures AllSmall("reset_ack")
  {
  }

  /**
   So the automatic flow depends on who is first. If the host has decoded the bridge's answer to the
   reset before its next snapshot, that snapshot drops the flow, and no later one initialises the link.
   */
  lemma ResetAnswerEndsFlow(m: M.Mirror, a: M.Action, config: seq<byte>, reset: M.Outside, b: B.Bridge, env: Env,
                            o: M.Outside)
    requires Resets(a) && reset.sendOk && 0 <= m.link.sequence
    ensures var m0 := M.Act(m, a, config, reset);
            var f := m0.commands[|m0.commands| - 1];
            && f.kind == RESET && Parsed(f)
            && var m1 := m0.(inbox := Arrivals(Step(b, UsbFrameIn(f), env).usb.frames[|b.usb.frames|..]));
            var m2 := M.Act(m1, M.Snapshot, config, o);
            m2.next.None? && !Initializes(m1, m2)
  {
    hide M.Act, Step, AnyResetAcked, Initializes, Ascii;
    ResetStarts(m, a, config, reset);
    var m0 := M.Act(m, a, config, reset);
    var f := m0.commands[|m0.commands| - 1];
    ResetAnswered(b, f, env);
    FlowEnds(m0.(inbox := Arrivals(Step(b, UsbFrameIn(f), env).usb.frames[|b.usb.frames|..])), config, o);
  }

  // ----- the operator's own INITIALIZE and data -----

  /**
   The operator's INITIALIZE, with nothing left to read: it is sent exactly outside Error, with Wi-Fi enabled, and
   port, configuration and send being good, and Connect is to follow; if it is not sent, Error is shown.
   */
  lemma InitializeLinkExactly(m: M.Mirror, config: seq<byte>, o: M.Outside)
    requires m.inbox == []
    ensures var r := M.Act(m, M.InitializeLink, config, o);
            if !m.link.state.Error? && m.flags.wifiEnabled && o.portOpen && o.configured && o.sendOk then
              && r.commands == m.commands + [NextCommand(m, INITIALIZE, config)]
              && r.link.state.Initialize? && r.next == Some(Connect)
            else r.commands == m.commands && r.link.state.Error?
  {
    assert m.(inbox := []) == m;
    InitializeNowExactly(m, config, o);
    hide M.InitializeNow;
  }

  lemma InitializeNowExactly(m: M.Mirror, config: seq<byte>, o: M.Outside)
    ensures var r := M.InitializeNow(m, config, o);
            if !m.link.state.Error? && m.flags.wifiEnabled && o.portOpen && o.configured && o.sendOk then
              && r.commands == m.commands + [NextCommand(m, INITIALIZE, config)]
              && r.link.state.Initialize? && r.next == Some(Connect)
            else r.commands == m.commands && r.link.state.Error?
  {
  }

  /** The operator's data: in a keepalive state one DATA frame, or Error if the port refuses it; elsewhere nothing. */
  lemma SendDataExactly(m: M.Mirror, payload: seq<byte>, config: seq<byte>, o: M.Outside)
    requires m.inbox == []
    ensures var r := M.Act(m, M.Action.SendData(payload), config, o);
            if !m.link.state.Keepalive() then r == m
            else if o.sendOk then
              r.commands == m.commands + [NextCommand(m, DATA, payload)] && r.link.state == m.link.state
            else r.commands == m.commands && r.link.state.Error?
  {
    assert m.(inbox := []) == m;
    SendDataNowExactly(m, payload, o);
    hide M.SendDataNow;
  }

  lemma SendDataNowExactly(m: M.Mirror, payload: seq<byte>, o: M.Outside)
    ensures var r := M.SendDataNow(m, payload, o);
            if !m.link.state.Keepalive() then r == m
            else if o.sendOk then
              r.commands == m.commands + [NextCommand(m, DATA, payload)] && r.link.state == m.link.state
            else r.commands == m.commands && r.link.state.Error?
  {
  }
}
