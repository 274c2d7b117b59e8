/**
 What clients may send: payloads the host can read keep its mirror with the bridge, and one that it
 cannot read takes it away.
 */
module HostReading {
  import opened Options
  import opened Bytes
  import opened Frames
  import opened B = Bridge
  import opened BridgeMoves
  import opened BridgeInvariant
  import opened BridgeRuns
  import opened Simulation
  import opened BridgeUsb
  import opened HostText
  import opened KeepaliveText
  import opened LinkSystem
  import M = Mirror
  import Text

  // ----- clients the host can read -----

  /** Payloads the host can read. */
  ghost function Readable(): Payloads {
    iset p: seq<byte> | !Poisonous(p)
  }

  /** No client sends anything else. */
  ghost predicate ReadableClients(moves: seq<Move>) {
    forall i :: 0 <= i < |moves| && moves[i].BridgeStep? ==> Knows(Readable(), moves[i].tick.event)
  }

  /** Everything written is readable, and everything unread was written. */
  ghost predicate Clean(y: System) {
    AllWritable(Readable(), y.bridge) && AllRead(Unread(y))
  }

  lemma WritableReads(us: seq<UsbFrame>)
    requires forall i :: 0 <= i < |us| ==> Writable(Readable(), us[i])
    ensures AllRead(Arrivals(us))
  {
    hide M.Fails, Arrived, Poisonous, Sayable;
    forall i | 0 <= i < |us|
      ensures !M.Fails(Arrivals(us)[i])
    {
      assert Writable(Readable(), us[i]);
      FailsExactly(Readable(), us[i]);
    }
  }

  lemma AllReadInTwo(a: seq<M.HostFrame>, b: seq<M.HostFrame>)
    ensures AllRead(a + b) <==> AllRead(a) && AllRead(b)
  {
    hide M.Fails;
    if AllRead(a + b) {
      assert forall k :: 0 <= k < |a| ==> a[k] == (a + b)[k];
      assert forall k :: 0 <= k < |b| ==> b[k] == (a + b)[|a| + k];
    }
  }

  lemma StepClean(y: System, t: Tick)
    requires GoodEvent(t.event) && Clean(y) && Knows(Readable(), t.event)
    ensures Clean(Apply(y, BridgeStep(t)))
  {
    hide Step, After, Announced, Writable, AllRead, Knows, Shows;
    StepWritable(Readable(), y.bridge, t.event, t.env);
    WrittenRead(y, t);
    var r := Step(y.bridge, t.event, t.env);
    var written := r.usb.frames[|y.bridge.usb.frames|..];
    assert forall i :: 0 <= i < |written| ==> written[i] == r.usb.frames[|y.bridge.usb.frames| + i];
    WritableReads(written);
    AllReadInTwo(Unread(y), Arrivals(written));
  }

  lemma ActClean(y: System, v: Move)
    requires GoodMove(v) && v.HostAct? && Clean(y)
    ensures Clean(Apply(y, v))
  {
    hide M.Act, AllWritable, AllRead, Arrivals, Clears;
    ActInbox(y.host, v.action, v.config, v.outside);
    var inbox, line := y.host.inbox, Remaining(y.line, v.action, v.cleared);
    var n := |y.line| - |line|;
    AllReadInTwo(inbox, Arrivals(y.line));
    assert y.line == y.line[..n] + line;
    ArrivalsInTwo(y.line[..n], line);
    AllReadInTwo(Arrivals(y.line[..n]), Arrivals(line));
    AllReadInTwo(inbox, Arrivals(line));
    AllReadInTwo([], Arrivals(line));
    NothingToRead();
  }

  lemma NothingToRead()
    ensures AllRead([])
  {
  }

  lemma {:induction false} RunClean(moves: seq<Move>, systems: seq<System>, k: nat)
    requires LinkRun(moves, systems) && k <= |moves| && Unread(systems[0]) == [] && ReadableClients(moves)
    ensures Clean(systems[k])
  {
    if k == 0 {
      BootWritable(Readable());
    } else {
      hide Step, Clean, Apply, Unread, Boot, Knows;
      RunClean(moves, systems, k - 1);
      var v := moves[k - 1];
      assert systems[k] == Apply(systems[k - 1], v) && GoodMove(v);
      match v
      case BridgeStep(t) => StepClean(systems[k - 1], t);
      case Delivery => DeliveryClean(systems[k - 1]);
      case HostAct(_, _, _, _) => ActClean(systems[k - 1], v);
    }
  }

  lemma DeliveryClean(y: System)
    requires Clean(y)
    ensures Clean(Apply(y, Delivery))
  {
    DeliveryUnread(y);
    hide AllWritable, AllRead, Unread;
  }

  /**
   So with clients whose payloads the host can read, the mirror follows the bridge from the point
   where a session is opened, if only the operator leaves the link alone.
   */
  lemma MirrorFollowsReadableClients(moves: seq<Move>, systems: seq<System>, j: nat, k: nat)
    requires LinkRun(moves, systems) && j <= k <= |moves| && StartsAt(systems, j)
    requires j < k || !Live(systems[j].bridge.s)
    requires Unread(systems[0]) == [] && ReadableClients(moves)
    requires forall i :: j <= i < k ==> !Operator(moves[i])
    ensures var y := systems[k];
            Unread(y) == [] ==> Agrees(y.bridge.s, Shows(y.host))
  {
    hide LinkRun, StartsAt, Operator, ReadableClients, Agrees, Shows, Live, Unread, Clean;
    assert |systems| == |moves| + 1 by { LinkRunLength(moves, systems); }
    forall i | j <= i < k
      ensures !ReadRaises(systems[i], moves[i])
    {
      RunClean(moves, systems, i);
      CleanReads(systems[i], moves[i]);
    }
    hide ReadRaises;
    MirrorFollowsBridge(moves, systems, j, k);
  }

  lemma LinkRunLength(moves: seq<Move>, systems: seq<System>)
    requires LinkRun(moves, systems)
    ensures |systems| == |moves| + 1
  {
  }

  lemma CleanReads(y: System, v: Move)
    requires Clean(y)
    ensures !ReadRaises(y, v)
  {
    hide M.Fails, AllWritable;
    AllReadInTwo(y.host.inbox, Arrivals(y.line));
  }

  // ----- one payload -----

  /** What one step, one delivery and one snapshot make of a client's DATA frame. */
  function Passed(y: System, f: Frame, env: Env, config: seq<byte>, o: M.Outside): System
    requires Parsed(f)
  {
    Apply(Apply(Apply(y, BridgeStep(Tick(TcpFrame(f), env))), Delivery), HostAct(M.Snapshot, config, o, 0))
  }

  lemma ForwardedOn(b: B.Bridge, f: Frame, env: Env)
    requires Parsed(f) && f.kind == DATA && |f.payload| > 0 && env.fate.Sent?
    requires Live(b.s) && b.s.session != 0 && b.wifiEnabled
    ensures var r := Step(b, TcpFrame(f), env);
            && r.s == b.s
            && r.usb.frames == b.usb.frames + [UsbFrame(DATA, b.s.server, b.s.client, f.sequence, Forwarded(f.payload))]
  {
    DataStep(b, f, env);
    hide Step, SendTcp, Ascii;
  }

  lemma DataStep(b: B.Bridge, f: Frame, env: Env)
    requires Parsed(f) && f.kind == DATA && b.s.attached && b.wifiEnabled
    ensures Step(b, TcpFrame(f), env) == HandleTcpData(b, f, env)
  {
    hide HandleReset, HandleInitialize, HandleConnect, HandleDisconnect, HandleKeepalive, HandleTcpData, HandleUsbData,
         Reply, EnterState, Accept, CloseClient, EngineTick, WatchdogTick, Notify;
  }

  /**
   From a system where everything is read and the mirror agrees with a live session: a client's
   DATA frame, forwarded, delivered and read, leaves the session as it is, and the mirror in
   agreement with it, if and only if its payload is not poisonous. If it is, the host is in Error
   with nothing left to read.
   */
  lemma PayloadExactly(y: System, f: Frame, env: Env, config: seq<byte>, o: M.Outside)
    requires Parsed(f) && f.kind == DATA && |f.payload| > 0 && env.fate.Sent? && o.portOpen
    requires InStep(y) && Live(y.bridge.s) && y.bridge.s.session != 0 && y.bridge.wifiEnabled
    requires y.line == [] && y.host.inbox == []
    ensures var r := Passed(y, f, env, config, o);
            && r.bridge.s == y.bridge.s && Unread(r) == []
            && (Agrees(r.bridge.s, Shows(r.host)) <==> !Poisonous(f.payload))
            && (Poisonous(f.payload) ==> r.host.link.state.Error? && r.host.next.None?)
  {
    var u := UsbFrame(DATA, y.bridge.s.server, y.bridge.s.client, f.sequence, Forwarded(f.payload));
    ForwardedOn(y.bridge, f, env);
    hide Step, InStep, Poisonous, M.Act, Agrees, Shows, Live, Parsed;
    var y1 := Apply(y, BridgeStep(Tick(TcpFrame(f), env)));
    assert y1.line == [u];
    var y2 := Apply(y1, Delivery);
    assert y2.line == [] && y2.host == Received(y.host, u) && y2.host.inbox == [Arrived(u)];
    ForwardFails(u);
    ReadAndShown(y, y2, u, config, o);
  }

  lemma ForwardFails(u: UsbFrame)
    requires u.kind == DATA && u.payload.Forwarded?
    ensures M.Fails(Arrived(u)) <==> Poisonous(u.payload.bytes)
  {
    hide Normal, CommandText, FieldU32, M.OrderOf;
    EmptyOrder();
  }

  lemma ReadAndShown(y: System, y2: System, u: UsbFrame, config: seq<byte>, o: M.Outside)
    requires InStep(y) && Live(y.bridge.s) && y.line == [] && y.host.inbox == [] && o.portOpen && u.kind == DATA
    requires y2.bridge.s == y.bridge.s && y2.line == [] && y2.host == Received(y.host, u)
    ensures var r := Apply(y2, HostAct(M.Snapshot, config, o, 0));
            && r.bridge.s == y.bridge.s && Unread(r) == []
            && (Agrees(r.bridge.s, Shows(r.host)) <==> !M.Fails(Arrived(u)))
            && (M.Fails(Arrived(u)) ==> r.host.link.state.Error? && r.host.next.None?)
  {
    hide M.Fails, Arrived, M.Polling;
    var f := Arrived(u);
    assert f.kind == DATA by { SeenKind(u); }
    assert y2.host.inbox == [f];
    assert Unread(y) == [] && Unread(y2) == [f];
    assert After(Shows(y.host), [f]) == After(Moved(Shows(y.host), f), [f][1..]) == Shows(y.host);
    NoneAnnounced();
    assert InStep(y2);
    SnapshotExact(y2, config, o);
    PollingInbox(y2.host, M.Snapshot, config, o);
    assert AllRead([f]) <==> !M.Fails(f);
    FailedSnapshot(y2.host, config, o);
  }

  lemma SeenKind(u: UsbFrame)
    ensures Arrived(u).kind == u.kind
  {
    hide Normal, CommandText;
  }

  lemma FailedSnapshot(m: M.Mirror, config: seq<byte>, o: M.Outside)
    ensures !AllRead(m.inbox) ==>
              M.Polling(m, M.Snapshot, config, o).link.state.Error? && M.Polling(m, M.Snapshot, config, o).next.None?
  {
    hide M.PollInbox, M.Advance, M.CheckPort, AllRead, After, Announced;
    InboxMoves(m, o.answers);
  }

  /**
   The Error lasts until the bridge opens a session, completes an exchange or asks again: from such
   a step on the mirror is in step, whatever the payload was.
   */
  lemma NextExchangeRestores(y: System, f: Frame, env: Env, config: seq<byte>, o: M.Outside, t: Tick)
    requires Parsed(f) && f.kind == DATA && |f.payload| > 0 && env.fate.Sent? && o.portOpen
    requires InStep(y) && Live(y.bridge.s) && y.bridge.s.session != 0 && y.bridge.wifiEnabled
    requires y.line == [] && y.host.inbox == [] && Poisonous(f.payload)
    requires SessionInv(y.bridge.s) && Roomy(y.bridge.s) && GoodEvent(t.event) && t.env.clock.Ordered()
    requires Restores(y.bridge.s, Step(Passed(y, f, env, config, o).bridge, t.event, t.env).s)
    ensures InStep(Apply(Passed(y, f, env, config, o), BridgeStep(t)))
  {
    PayloadExactly(y, f, env, config, o);
    var r := Passed(y, f, env, config, o);
    assert LiveInv(r.bridge.s);
    hide Passed, InStep, Step, Poisonous, Restores, SessionInv, Roomy, LiveInv, Parsed, Moves;
    StepMoves(r.bridge, t.event, t.env);
    RestoringInStep(r, t);
  }

  function ResponseFrame(meta: Meta, server: u32, sequence: u16): UsbFrame
    requires server > 0
  {
    UsbFrame(KEEPALIVE, server, server - 1, sequence, UsbPayload.Text(Payload("ka_resp", meta)))
  }

  lemma ResponseMoves(d: Display, meta: Meta, server: u32, sequence: u16)
    requires server % 2 == 0 && server > 0
    ensures Moved(d, Arrived(ResponseFrame(meta, server, sequence))) == Display(ServerSend, server, server - 1)
  {
    hide Payload, Normal, CommandText, MovedByError, MovedByText, Ascii, Text.StartsWith;
    TagNormal("ka_resp", meta);
  }

  lemma ResponseReads(meta: Meta, server: u32, sequence: u16)
    requires server > 0
    ensures !M.Fails(Arrived(ResponseFrame(meta, server, sequence)))
  {
    hide Payload, Arrived, Sayable, Poisonous, M.Fails;
    PayloadSayable("ka_resp", meta);
    FailsExactly(Readable(), ResponseFrame(meta, server, sequence));
  }

  /** For instance: any keepalive response of the bridge with counters that fit takes any mirror out of Error. */
  lemma ResponseLeavesError(m: M.Mirror, meta: Meta, server: u32, sequence: u16, given: seq<M.Answer>)
    requires m.link.state.Error? && server % 2 == 0 && server > 0
    ensures Shows(M.Take(m, Arrived(ResponseFrame(meta, server, sequence)), given))
            == Display(ServerSend, server, server - 1)
  {
    hide Arrived, ResponseFrame, M.Fails, M.Take, Moved, Shows;
    ResponseReads(meta, server, sequence);
    TakeMoves(m, Arrived(ResponseFrame(meta, server, sequence)), given);
    ResponseMoves(Shows(m), meta, server, sequence);
  }

  // ----- an example -----

  /** "terr=" and a superscript two in UTF-8: a digit to isdigit, but not to int. */
  const SQUARED: seq<byte> := [0x74, 0x65, 0x72, 0x72, 0x3D, 0xC2, 0xB2]

  const TWO: char := '\U{00B2}'

  lemma TwoDecoded()
    ensures Utf8([0xC2, 0xB2], "") == [TWO]
  {
    var b: seq<byte> := [0xC2, 0xB2];
    assert FirstPiece(b) == Piece(2, Some(TWO));
    assert b[2..] == [];
  }

  lemma SquaredDecoded()
    ensures Utf8(SQUARED, "") == "terr=" + [TWO]
  {
    var a: seq<byte> := [0x74, 0x65, 0x72, 0x72, 0x3D];
    assert Spells(a, "terr=");
    hide FirstPiece, Utf8, Spells;
    TwoDecoded();
    assert SQUARED == a + [0xC2, 0xB2];
    DecodedThen(a, "terr=", [0xC2, 0xB2], "");
  }

  lemma SquaredNormal()
    ensures Normal(SQUARED) == "terr=" + [TWO]
  {
    SquaredDecoded();
    hide Utf8;
    var t := "terr=" + [TWO];
    assert Strip(t) == t;
    LoweredTwo(t);
  }

  lemma LoweredTwo(t: string)
    requires t == "terr=" + [TWO]
    ensures Lower(t) == t
  {
    assert t[1..][1..][1..][1..][1..] == [TWO];
    assert Lower([TWO]) == [TWO] + Lower([TWO][1..]);
    assert Lower(t[1..][1..][1..][1..]) == ['='] + [TWO];
    assert Lower(t[1..][1..][1..]) == ['r'] + (['='] + [TWO]);
    assert Lower(t[1..][1..]) == ['r'] + (['r'] + (['='] + [TWO]));
    assert Lower(t[1..]) == ['e'] + (['r'] + (['r'] + (['='] + [TWO])));
  }

  lemma TwoIsNoDecimal()
    ensures DigitLike(TWO) && DecimalDigit(TWO) == -1
  {
    assert ScriptDigit(0xB2) == -1;
  }

  lemma SquaredRaises()
    ensures FieldU32("terr=" + [TWO], "terr").Raises?
  {
    var t := "terr=" + [TWO];
    TwoIsNoDecimal();
    hide DigitLike, DecimalDigit;
    Text.OneTokenAlone(t);
    assert Strip(t) == t;
    assert t[..5] == "terr" + "=" && t[5..] == [TWO];
    assert Strip([TWO]) == [TWO];
    assert FieldValue(t, "terr") == [TWO];
    assert AllDigitLike([TWO]) && !AllDecimal([TWO]);
  }

  /** Such a payload exists. */
  lemma SquaredIsPoisonous()
    ensures Poisonous(SQUARED)
  {
    SquaredNormal();
    SquaredRaises();
    hide Normal, FieldU32;
  }
}
