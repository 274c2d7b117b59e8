/**
 The bridge, the USB line and the host together: the host's mirror follows the bridge through any
 interleaving, as long as the host can read what clients send.
 */
module LinkSystem {
  import opened Bytes
  import opened B = Bridge
  import opened BridgeMoves
  import opened BridgeInvariant
  import opened BridgeRuns
  import opened Simulation
  import opened BridgeUsb
  import M = Mirror

  /** The bridge, the frames it has written that the host's reader has not decoded yet, and the host. */
  datatype System = System(bridge: B.Bridge, line: seq<UsbFrame>, host: M.Mirror)

  /** What happens next. An action of the host that clears its buffers loses some frames of the line as well. */
  datatype Move =
    | BridgeStep(tick: Tick)
    | Delivery
    | HostAct(action: M.Action, config: seq<byte>, outside: M.Outside, cleared: nat)

  predicate GoodMove(v: Move) {
    match v
    case BridgeStep(t) => GoodEvent(t.event)
    case Delivery => true
    case HostAct(a, _, _, _) => !a.Arrival?
  }

  predicate Clears(a: M.Action) {
    a.ResetLink? || a.OpenFails? || a.OpenSucceeds? || a.CloseTransport? || a.ForceRelease?
  }

  /** What is left of the line. */
  function Remaining(line: seq<UsbFrame>, a: M.Action, cleared: nat): seq<UsbFrame> {
    if !Clears(a) then line else if cleared <= |line| then line[cleared..] else []
  }

  function Received(m: M.Mirror, u: UsbFrame): M.Mirror {
    m.(inbox := m.inbox + [Arrived(u)])
  }

  function Apply(y: System, v: Move): System
    requires GoodMove(v)
  {
    match v
    case BridgeStep(t) =>
      var b := Step(y.bridge, t.event, t.env);
      System(b, y.line + b.usb.frames[|y.bridge.usb.frames|..], y.host)
    case Delivery =>
      if y.line == [] then y else System(y.bridge, y.line[1..], Received(y.host, y.line[0]))
    case HostAct(a, config, o, cleared) =>
      System(y.bridge, Remaining(y.line, a, cleared), M.Act(y.host, a, config, o))
  }

  /** All that the host has not looked at yet, oldest first. */
  function Unread(y: System): seq<M.HostFrame> {
    y.host.inbox + Arrivals(y.line)
  }

  /** An operator's command that changes the host's state, or a port found closed. */
  predicate Operator(v: Move) {
    v.HostAct? &&
    match v.action
    case Snapshot => !v.outside.portOpen
    case SendData(_) => !v.outside.sendOk
    case Arrival(_) | KeepaliveCommand | Command(_) | Downlink(_) | ResetErrors | ResetMaxDelay => false
    case _ => true
  }

  predicate Polls(a: M.Action) {
    a.Snapshot? || a.InitializeLink? || a.KeepaliveCommand? || a.SendData?
  }

  /** The host reads a frame that makes it raise. */
  predicate ReadRaises(y: System, v: Move) {
    v.HostAct? && Polls(v.action) && !AllRead(y.host.inbox)
  }

  // ----- what is kept -----

  /**
   With a live session, reading the rest would bring the display into agreement; and no automatic
   flow of the host is under way, or the announcement that ends it is among what is still to be read.
   */
  ghost predicate InStep(y: System) {
    Live(y.bridge.s) ==>
      && Agrees(y.bridge.s, After(Shows(y.host), Unread(y)))
      && (y.host.next.None? || Announced(Unread(y)))
  }

  lemma ArrivalsInTwo(a: seq<UsbFrame>, b: seq<UsbFrame>)
    ensures Arrivals(a + b) == Arrivals(a) + Arrivals(b)
  {
  }

  lemma AnnouncedInTwo(a: seq<M.HostFrame>, b: seq<M.HostFrame>)
    ensures Announced(a + b) <==> Announced(a) || Announced(b)
  {
    hide Announces;
    if Announced(a) {
      var k :| 0 <= k < |a| && Announces(a[k]);
      assert (a + b)[k] == a[k];
    }
    if Announced(b) {
      var k :| 0 <= k < |b| && Announces(b[k]);
      assert (a + b)[|a| + k] == b[k];
    }
  }

  /** The step that opens a session brings any host in step. */
  lemma OpeningInStep(y: System, t: Tick)
    requires GoodEvent(t.event) && OpensSession(y.bridge.s, Step(y.bridge, t.event, t.env).s)
    ensures InStep(Apply(y, BridgeStep(t)))
  {
    hide Step, Agrees, After, Announced, Arrivals, Shows;
    WrittenRead(y, t);
    OpeningSim(View(After(Shows(y.host), Unread(y)), |y.bridge.usb.frames|), y.bridge, t.event, t.env);
  }

  /** And so does, with no automatic flow under way, a step that completes an exchange or asks after the first one. */
  lemma RestoringInStep(y: System, t: Tick)
    requires GoodEvent(t.event) && SessionInv(y.bridge.s) && Roomy(y.bridge.s)
    requires Moves(y.bridge.s, Step(y.bridge, t.event, t.env).s, t.env.clock)
    requires Restores(y.bridge.s, Step(y.bridge, t.event, t.env).s) && y.host.next.None?
    ensures InStep(Apply(y, BridgeStep(t)))
  {
    if OpensSession(y.bridge.s, Step(y.bridge, t.event, t.env).s) {
      OpeningInStep(y, t);
    } else {
      assert Live(Step(y.bridge, t.event, t.env).s);
      hide Step, Moves, SessionInv, Roomy, Agrees, After, Announced, Arrivals, Shows;
      LiveBefore(y.bridge.s, Step(y.bridge, t.event, t.env).s, t.env.clock);
      WrittenRead(y, t);
      LiveStep(View(After(Shows(y.host), Unread(y)), |y.bridge.usb.frames|), y.bridge, t.event, t.env);
    }
  }

  /** A step of the bridge: the frames it writes bring the display along. */
  lemma BridgeKeeps(y: System, t: Tick)
    requires GoodEvent(t.event) && SessionInv(y.bridge.s) && Roomy(y.bridge.s) && InStep(y)
    requires Moves(y.bridge.s, Step(y.bridge, t.event, t.env).s, t.env.clock)
    ensures InStep(Apply(y, BridgeStep(t)))
  {
    hide Step, Moves, SessionInv, Roomy, Agrees, After, Announced, Arrivals, Shows;
    var b, d := y.bridge, After(Shows(y.host), Unread(y));
    var r, v := Step(b, t.event, t.env), View(After(Shows(y.host), Unread(y)), |y.bridge.usb.frames|);
    WrittenRead(y, t);
    if OpensSession(b.s, r.s) {
      OpeningInStep(y, t);
    } else if Live(r.s) {
      LiveBefore(b.s, r.s, t.env.clock);
      assert Sim(v, b) by { NothingSince(v, b); }
      StepSim(v, b, t.event, t.env);
    }
  }

  lemma NothingSince(v: View, b: B.Bridge)
    requires v.skip == |b.usb.frames|
    ensures Shown(v, b) == v.from
  {
    assert Since(v, b.usb.frames) == [];
  }

  /** What is unread after a step of the bridge, and what it shows. */
  lemma WrittenRead(y: System, t: Tick)
    requires GoodEvent(t.event)
    ensures var b, y1 := y.bridge, Apply(y, BridgeStep(t));
            var written := Arrivals(y1.bridge.usb.frames[|b.usb.frames|..]);
            && Unread(y1) == Unread(y) + written
            && (Announced(Unread(y1)) <==> Announced(Unread(y)) || Announced(written))
            && After(Shows(y1.host), Unread(y1)) == Shown(View(After(Shows(y.host), Unread(y)), |b.usb.frames|), y1.bridge)
  {
    hide Step, After, Announced, Shows, Arrivals;
    var b, y1 := y.bridge, Apply(y, BridgeStep(t));
    var written := y1.bridge.usb.frames[|b.usb.frames|..];
    ArrivalsInTwo(y.line, written);
    assert Unread(y1) == Unread(y) + Arrivals(written);
    AnnouncedInTwo(Unread(y), Arrivals(written));
    AfterInTwo(Shows(y.host), Unread(y), Arrivals(written));
  }

  lemma DeliveryUnread(y: System)
    ensures Unread(Apply(y, Delivery)) == Unread(y)
  {
    hide Step, M.Act, Arrived;
    if y.line != [] {
      OneArrives(y.host.inbox, y.line);
    }
  }

  lemma OneArrives(inbox: seq<M.HostFrame>, line: seq<UsbFrame>)
    requires line != []
    ensures inbox + [Arrived(line[0])] + Arrivals(line[1..]) == inbox + Arrivals(line)
  {
    hide Arrived;
    assert line == [line[0]] + line[1..];
    ArrivalsInTwo([line[0]], line[1..]);
    assert Arrivals([line[0]]) == [Arrived(line[0])];
  }

  lemma DeliveryKeeps(y: System)
    requires InStep(y)
    ensures InStep(Apply(y, Delivery))
  {
    DeliveryUnread(y);
    hide Agrees, After, Announced, Unread;
  }

  /** After a poll that reads everything, the mirror shows it, or the rest of the line announces a session. */
  ghost predicate CaughtUp(y: System, m: M.Mirror) {
    && m.inbox == []
    && (|| (Shows(m) == After(Shows(y.host), y.host.inbox) && m.next.None?)
        || Announced(Arrivals(y.line)))
  }

  lemma CaughtUpKeeps(y: System, m: M.Mirror)
    requires InStep(y) && CaughtUp(y, m)
    ensures InStep(System(y.bridge, y.line, m))
  {
    hide Agrees, After, Announced, Arrivals, Shows;
    var rest := Arrivals(y.line);
    AfterInTwo(Shows(y.host), y.host.inbox, rest);
    AnnouncedInTwo(y.host.inbox, rest);
    assert Unread(System(y.bridge, y.line, m)) == rest;
    if Announced(rest) {
      AnnouncedForgets(Shows(m), After(Shows(y.host), y.host.inbox), rest);
    }
  }

  lemma PollCatchesUp(y: System, given: seq<seq<M.Answer>>)
    requires AllRead(y.host.inbox) && (y.host.next.None? || Announced(Unread(y)))
    ensures !M.PollInbox(y.host, given).raised && CaughtUp(y, M.PollInbox(y.host, given).mirror)
  {
    hide M.PollInbox, After, Announced, Arrivals, AllRead, Shows;
    InboxMoves(y.host, given);
    AnnouncedInTwo(y.host.inbox, Arrivals(y.line));
  }

  lemma SnapshotEnds(m: M.Mirror, config: seq<byte>, o: M.Outside)
    requires o.portOpen
    ensures M.Advance(M.CheckPort(m, o), config, o).inbox == m.inbox
    ensures m.next.None? ==> M.Advance(M.CheckPort(m, o), config, o) == m
  {
  }

  lemma SendEnds(m: M.Mirror, payload: seq<byte>, o: M.Outside)
    requires o.sendOk
    ensures var r := M.SendDataNow(m, payload, o); Shows(r) == Shows(m) && r.inbox == m.inbox && r.next == m.next
  {
  }

  lemma PollingKeeps(y: System, a: M.Action, config: seq<byte>, o: M.Outside)
    requires InStep(y) && Live(y.bridge.s) && AllRead(y.host.inbox)
    requires (a.Snapshot? && o.portOpen) || a.KeepaliveCommand? || (a.SendData? && o.sendOk)
    ensures !M.PollInbox(y.host, o.answers).raised
    ensures CaughtUp(y, M.Polling(y.host, a, config, o))
  {
    hide M.PollInbox, After, Announced, Arrivals, Agrees, AllRead, M.Advance, M.CheckPort, M.SendDataNow;
    PollCatchesUp(y, o.answers);
    var m := M.PollInbox(y.host, o.answers).mirror;
    match a
    case Snapshot => SnapshotEnds(m, config, o);
    case KeepaliveCommand =>
    case SendData(payload) => SendEnds(m, payload, o);
  }

  lemma SideKeeps(y: System, a: M.Action, config: seq<byte>, o: M.Outside)
    requires a.Command? || a.Downlink? || a.ResetErrors? || a.ResetMaxDelay?
    ensures var r := M.Act(y.host, a, config, o);
            Shows(r) == Shows(y.host) && r.inbox == y.host.inbox && r.next == y.host.next
  {
    hide Ascii;
  }

  lemma HostKeeps(y: System, v: Move)
    requires GoodMove(v) && v.HostAct? && !Operator(v) && !ReadRaises(y, v) && InStep(y)
    ensures InStep(Apply(y, v))
  {
    hide After, Announced, Arrivals, Agrees, AllRead, M.Polling, Shows, M.SendCommand, M.Told;
    if Live(y.bridge.s) {
      match v.action
      case Snapshot | KeepaliveCommand | SendData(_) =>
        PollingKeeps(y, v.action, v.config, v.outside);
        CaughtUpKeeps(y, M.Polling(y.host, v.action, v.config, v.outside));
      case Command(_) | Downlink(_) | ResetErrors | ResetMaxDelay => SideKeeps(y, v.action, v.config, v.outside);
    }
  }

  // ----- what an action leaves unread -----

  lemma TakeInbox(m: M.Mirror, f: M.HostFrame, given: seq<M.Answer>)
    ensures M.Take(m, f, given).inbox == m.inbox
  {
    hide M.Learned, M.TelemetryFails, M.LogFails, Moved, Announces, M.Receive;
    ReceiveMoves(m.(timing := M.Learned(m.timing, f.text)), f, given);
  }

  lemma {:induction false} PollInboxLeft(m: M.Mirror, fs: seq<M.HostFrame>, given: seq<seq<M.Answer>>)
    ensures M.Poll(m, fs, given).mirror.inbox == m.inbox
    decreases |fs|
  {
    hide M.Take, M.Fails;
    if fs != [] {
      TakeInbox(m, fs[0], M.AnswersFrom(given, 0));
      PollInboxLeft(M.Take(m, fs[0], M.AnswersFrom(given, 0)), fs[1..], if given == [] then [] else given[1..]);
    }
  }

  lemma SendingInbox(m: M.Mirror, config: seq<byte>, o: M.Outside)
    ensures M.Advance(M.CheckPort(m, o), config, o).inbox == m.inbox
    ensures M.InitializeNow(m, config, o).inbox == m.inbox
    ensures M.Fault(m).inbox == m.inbox
  {
    hide Ascii;
  }

  lemma PollingInbox(m: M.Mirror, a: M.Action, config: seq<byte>, o: M.Outside)
    requires Polls(a)
    ensures M.Polling(m, a, config, o).inbox == []
  {
    PollInboxLeft(m.(inbox := []), m.inbox, o.answers);
    assert M.PollInbox(m, o.answers).mirror.inbox == [];
    hide M.PollInbox, M.Advance, M.CheckPort, M.InitializeNow, M.Fault;
    SendingInbox(M.PollInbox(m, o.answers).mirror, config, o);
  }

  /** An action leaves everything unread or nothing. */
  lemma ActInbox(m: M.Mirror, a: M.Action, config: seq<byte>, o: M.Outside)
    requires !a.Arrival?
    ensures M.Act(m, a, config, o).inbox in {m.inbox, []}
  {
    hide M.Polling, Ascii;
    if Polls(a) {
      PollingInbox(m, a, config, o);
    }
  }

  /** A poll that raises leaves the host in Error, with nothing under way and nothing unread but the line. */
  lemma RaiseFaults(y: System, v: Move)
    requires GoodMove(v) && ReadRaises(y, v)
    ensures var r := Apply(y, v);
            && r.host.link.state.Error? && r.host.next.None? && r.host.inbox == []
            && r.line == y.line && r.bridge == y.bridge
  {
    PollingInbox(y.host, v.action, v.config, v.outside);
    InboxMoves(y.host, v.outside.answers);
    hide M.PollInbox, AllRead, After, Announced, Shows;
  }

  // ----- runs -----

  /** The systems one after the other. */
  ghost predicate Passes(moves: seq<Move>, systems: seq<System>) {
    && |systems| == |moves| + 1
    && (forall i :: 0 <= i < |moves| ==> GoodMove(moves[i]))
    && (forall i :: 0 <= i < |moves| ==> systems[i + 1] == Apply(systems[i], moves[i]))
  }

  /** The bridge's clock does not go back from step to step, whatever the host does between. */
  ghost predicate ClockedMoves(moves: seq<Move>) {
    && (forall i :: 0 <= i < |moves| && moves[i].BridgeStep? ==> moves[i].tick.env.clock.Ordered())
    && (forall i, j :: 0 <= i < j < |moves| && moves[i].BridgeStep? && moves[j].BridgeStep? ==>
          moves[i].tick.env.clock.armed <= moves[j].tick.env.clock.enter)
  }

  /** A run from the bridge's power-on, with a host in any condition and anything on the line. */
  ghost predicate LinkRun(moves: seq<Move>, systems: seq<System>) {
    && Passes(moves, systems) && ClockedMoves(moves)
    && systems[0].bridge == Boot()
    && forall i :: 0 <= i < |moves| ==> Roomy(systems[i].bridge.s)
  }

  /** The bridge's last clock reading before move k. */
  function LastReading(moves: seq<Move>, k: nat): int
    requires k <= |moves|
  {
    if k == 0 then 0 else if moves[k - 1].BridgeStep? then moves[k - 1].tick.env.clock.armed else LastReading(moves, k - 1)
  }

  lemma {:induction false} LastReadingBounds(moves: seq<Move>, k: nat, j: nat)
    requires ClockedMoves(moves) && k <= j < |moves| && moves[j].BridgeStep?
    ensures LastReading(moves, k) <= moves[j].tick.env.clock.enter
  {
    if k > 0 && !moves[k - 1].BridgeStep? {
      LastReadingBounds(moves, k - 1, j);
    }
  }

  lemma BridgeMoveKeeps(moves: seq<Move>, systems: seq<System>, k: nat)
    requires LinkRun(moves, systems) && k < |moves| && moves[k].BridgeStep?
    requires Kept(systems[k].bridge.s, LastReading(moves, k))
    ensures GoodEvent(moves[k].tick.event)
    ensures var y, t := systems[k], moves[k].tick;
            && systems[k + 1] == Apply(y, BridgeStep(t)) && Roomy(y.bridge.s)
            && Moves(y.bridge.s, Step(y.bridge, t.event, t.env).s, t.env.clock)
            && Kept(Step(y.bridge, t.event, t.env).s, t.env.clock.armed)
  {
    hide Step, Moves, Roomy, Boot, Kept;
    var t := moves[k].tick;
    assert GoodMove(moves[k]);
    LastReadingBounds(moves, k, k);
    StepKeeps(systems[k].bridge, t.event, t.env, LastReading(moves, k));
  }

  lemma {:induction false} BridgeKept(moves: seq<Move>, systems: seq<System>, k: nat)
    requires LinkRun(moves, systems) && k <= |moves|
    ensures Kept(systems[k].bridge.s, LastReading(moves, k))
  {
    hide Step, Moves, Roomy, Kept, M.Act;
    if k == 0 {
      BootKept();
    } else {
      hide Boot;
      BridgeKept(moves, systems, k - 1);
      if moves[k - 1].BridgeStep? {
        BridgeMoveKeeps(moves, systems, k - 1);
      }
    }
  }

  /**
   From system j on what was shown, sent and commanded before does not matter: no session is live,
   or the next step opens one; or it restores the display of a host with no automatic flow under way.
   */
  ghost predicate StartsAt(systems: seq<System>, j: nat)
    requires j < |systems|
  {
    || !Live(systems[j].bridge.s)
    || (j + 1 < |systems|
        && (|| OpensSession(systems[j].bridge.s, systems[j + 1].bridge.s)
            || (Restores(systems[j].bridge.s, systems[j + 1].bridge.s) && systems[j].host.next.None?)))
  }

  /** The operator does nothing to the link, and nothing raises, from move j to move k. */
  ghost predicate Undisturbed(moves: seq<Move>, systems: seq<System>, j: nat, k: nat)
    requires |systems| == |moves| + 1 && k <= |moves|
  {
    forall i :: j <= i < k ==> !Operator(moves[i]) && !ReadRaises(systems[i], moves[i])
  }

  lemma MoveInStep(moves: seq<Move>, systems: seq<System>, k: nat)
    requires LinkRun(moves, systems) && k < |moves| && InStep(systems[k])
    requires !Operator(moves[k]) && !ReadRaises(systems[k], moves[k])
    ensures InStep(systems[k + 1])
  {
    BridgeKept(moves, systems, k);
    assert SessionInv(systems[k].bridge.s);
    hide Step, Moves, Roomy, Kept, M.Act, InStep, Boot, SessionInv, Operator, ReadRaises;
    assert systems[k + 1] == Apply(systems[k], moves[k]);
    match moves[k]
    case BridgeStep(t) =>
      BridgeMoveKeeps(moves, systems, k);
      BridgeKeeps(systems[k], t);
    case Delivery => DeliveryKeeps(systems[k]);
    case HostAct(_, _, _, _) => HostKeeps(systems[k], moves[k]);
  }

  lemma OpensAt(moves: seq<Move>, systems: seq<System>, k: nat)
    requires LinkRun(moves, systems) && k < |moves|
    requires OpensSession(systems[k].bridge.s, systems[k + 1].bridge.s)
    ensures InStep(systems[k + 1])
  {
    hide Step, Roomy, M.Act, InStep, Boot;
    assert systems[k + 1] == Apply(systems[k], moves[k]) && GoodMove(moves[k]);
    if moves[k].BridgeStep? {
      OpeningInStep(systems[k], moves[k].tick);
    }
  }

  lemma RestoresAt(moves: seq<Move>, systems: seq<System>, k: nat)
    requires LinkRun(moves, systems) && k < |moves| && systems[k].host.next.None?
    requires Restores(systems[k].bridge.s, systems[k + 1].bridge.s)
    ensures InStep(systems[k + 1])
  {
    assert systems[k + 1] == Apply(systems[k], moves[k]) && GoodMove(moves[k]);
    BridgeKept(moves, systems, k);
    assert SessionInv(systems[k].bridge.s);
    if moves[k].BridgeStep? {
      hide Step, Roomy, M.Act, InStep, Boot, Kept, Moves, Restores, SessionInv;
      BridgeMoveKeeps(moves, systems, k);
      RestoringInStep(systems[k], moves[k].tick);
    } else {
      hide Step, M.Act, InStep, Boot, Kept, Moves, SessionInv, Roomy;
    }
  }

  lemma {:induction false} StaysInStep(moves: seq<Move>, systems: seq<System>, j: nat, k: nat)
    requires |systems| == |moves| + 1
    requires LinkRun(moves, systems) && j <= k <= |moves| && StartsAt(systems, j) && Undisturbed(moves, systems, j, k)
    requires j < k || !Live(systems[j].bridge.s)
    ensures InStep(systems[k])
    decreases k
  {
    hide LinkRun, InStep, Operator, ReadRaises, Undisturbed, Live, OpensSession, Restores, Apply;
    if j == k {
      assert InStep(systems[k]) by { NotLiveInStep(systems[k]); }
    } else if OpensSession(systems[k - 1].bridge.s, systems[k].bridge.s) {
      OpensAt(moves, systems, k - 1);
    } else if j == k - 1 && Live(systems[j].bridge.s) {
      RestoresAt(moves, systems, k - 1);
    } else {
      LessDisturbed(moves, systems, j, k);
      StaysInStep(moves, systems, j, k - 1);
      MoveInStep(moves, systems, k - 1);
    }
  }

  lemma LessDisturbed(moves: seq<Move>, systems: seq<System>, j: nat, k: nat)
    requires |systems| == |moves| + 1 && j < k <= |moves| && Undisturbed(moves, systems, j, k)
    ensures Undisturbed(moves, systems, j, k - 1)
    ensures !Operator(moves[k - 1]) && !ReadRaises(systems[k - 1], moves[k - 1])
  {
    hide Operator, ReadRaises;
  }

  lemma NotLiveInStep(y: System)
    requires !Live(y.bridge.s)
    ensures InStep(y)
  {
  }

  lemma InStepRead(y: System)
    requires InStep(y) && Unread(y) == []
    ensures Agrees(y.bridge.s, Shows(y.host))
  {
    hide Shows, Announced;
  }

  /**
   The mirror follows the bridge. Take any run from the bridge's power-on, with a host in any
   condition: actions of the operator, automatic flow, whatever was on the line, whatever it could
   not read. Take in it any point j without a live session, or at the step that opens one, or, if no
   automatic flow is under way, at a step that completes an exchange or asks after the first one.
   From there on let the operator do nothing to the link and nothing the host reads make it raise.
   Then, whenever all that was written is read, a client attached and the bridge in a keepalive state,
   the mirror shows that state and those counters, or Connect before the session's first completed exchange.
   */
  lemma MirrorFollowsBridge(moves: seq<Move>, systems: seq<System>, j: nat, k: nat)
    requires LinkRun(moves, systems) && j <= k <= |moves| && StartsAt(systems, j) && Undisturbed(moves, systems, j, k)
    requires j < k || !Live(systems[j].bridge.s)
    ensures var y := systems[k];
            Unread(y) == [] ==> Agrees(y.bridge.s, Shows(y.host))
  {
    assert |systems| == |moves| + 1;
    hide Agrees, Shows, Unread, LinkRun, Undisturbed, InStep;
    StaysInStep(moves, systems, j, k);
    if Unread(systems[k]) == [] {
      InStepRead(systems[k]);
    }
  }

  /**
   And that nothing raises is exactly what it takes: the snapshot that reads the last frames leaves
   the mirror in agreement with a live session if and only if it can read all of them.
   */
  lemma SnapshotAgreesExactly(moves: seq<Move>, systems: seq<System>, j: nat, k: nat, config: seq<byte>, o: M.Outside)
    requires LinkRun(moves, systems) && j <= k <= |moves| && StartsAt(systems, j) && Undisturbed(moves, systems, j, k)
    requires j < k || !Live(systems[j].bridge.s)
    requires Live(systems[k].bridge.s) && systems[k].line == [] && o.portOpen
    ensures var y := Apply(systems[k], HostAct(M.Snapshot, config, o, 0));
            Agrees(y.bridge.s, Shows(y.host)) <==> AllRead(systems[k].host.inbox)
  {
    assert |systems| == |moves| + 1;
    hide Apply, Agrees, Shows, AllRead, LinkRun, Undisturbed, InStep;
    StaysInStep(moves, systems, j, k);
    SnapshotExact(systems[k], config, o);
  }

  /**
   A snapshot only reads, if the port is open, nothing raises, and no automatic flow is left to
   advance once everything is read.
   */
  lemma SnapshotReads(m: M.Mirror, config: seq<byte>, o: M.Outside)
    requires o.portOpen && AllRead(m.inbox) && (m.next.None? || Announced(m.inbox))
    ensures var r := M.Act(m, M.Snapshot, config, o);
            Shows(r) == After(Shows(m), m.inbox) && r.inbox == [] && r.next.None?
  {
    hide M.PollInbox, M.Advance, M.CheckPort, After, Announced, AllRead, Shows;
    InboxMoves(m, o.answers);
    SnapshotEnds(M.PollInbox(m, o.answers).mirror, config, o);
  }

  lemma SnapshotExact(y: System, config: seq<byte>, o: M.Outside)
    requires InStep(y) && Live(y.bridge.s) && y.line == [] && o.portOpen
    ensures var r := Apply(y, HostAct(M.Snapshot, config, o, 0));
            Agrees(r.bridge.s, Shows(r.host)) <==> AllRead(y.host.inbox)
  {
    hide M.PollInbox, M.Advance, M.CheckPort, After, Announced;
    assert Arrivals(y.line) == [] && Unread(y) == y.host.inbox;
    InboxMoves(y.host, o.answers);
    if AllRead(y.host.inbox) {
      SnapshotReads(y.host, config, o);
    }
  }

  lemma NoneAnnounced()
    ensures !Announced([])
  {
  }
}
