/**
 After the host has failed to read a frame: exactly when its mirror agrees with the bridge again,
 in any run.
 */
module LinkRecovery {
  import opened Bytes
  import opened B = Bridge
  import opened BridgeMoves
  import opened BridgeInvariant
  import opened BridgeRuns
  import opened Simulation
  import opened LinkSystem
  import M = Mirror

  // ----- the line is the end of what was written -----

  ghost predicate EndOf<T>(end: seq<T>, whole: seq<T>) {
    |end| <= |whole| && end == whole[|whole| - |end|..]
  }

  lemma EndGrows<T>(end: seq<T>, whole: seq<T>, more: seq<T>)
    requires EndOf(end, whole)
    ensures EndOf(end + more, whole + more)
  {
    assert (whole + more)[|whole| - |end|..] == whole[|whole| - |end|..] + more;
  }

  /** Of two ends of one whole, one is an end of the other. */
  lemma EndsNest<T>(a: seq<T>, b: seq<T>, whole: seq<T>)
    requires EndOf(a, whole) && EndOf(b, whole) && |a| <= |b|
    ensures b == b[..|b| - |a|] + a
  {
    assert a == b[|b| - |a|..];
  }

  lemma {:induction false} LineIsEnd(moves: seq<Move>, systems: seq<System>, k: nat)
    requires LinkRun(moves, systems) && k <= |moves|
    ensures EndOf(systems[k].line, systems[0].line + systems[k].bridge.usb.frames)
  {
    if k == 0 {
      assert systems[0].line + [] == systems[0].line;
    } else {
      hide Step, Roomy, M.Act, Boot;
      LineIsEnd(moves, systems, k - 1);
      assert systems[k] == Apply(systems[k - 1], moves[k - 1]) && GoodMove(moves[k - 1]);
      MoveKeepsEnd(systems[k - 1], moves[k - 1], systems[0].line);
    }
  }

  lemma MoveKeepsEnd(y: System, v: Move, first: seq<UsbFrame>)
    requires GoodMove(v) && EndOf(y.line, first + y.bridge.usb.frames)
    ensures EndOf(Apply(y, v).line, first + Apply(y, v).bridge.usb.frames)
  {
    hide Step, M.Act, Received, Clears;
    match v
    case BridgeStep(t) =>
      var before, after := y.bridge.usb.frames, Step(y.bridge, t.event, t.env).usb.frames;
      EndGrows(y.line, first + before, after[|before|..]);
      assert first + before + after[|before|..] == first + after;
    case Delivery =>
    case HostAct(a, _, _, cleared) =>
  }

  // ----- the frames of the live session -----

  /** The frames from the n-th on bring any display into agreement, and begin with the session's announcement. */
  ghost predicate SessionFrom(b: B.Bridge, n: nat) {
    && n <= |b.usb.frames|
    && Announced(Arrivals(b.usb.frames[n..]))
    && forall d: Display :: Agrees(b.s, After(d, Arrivals(b.usb.frames[n..])))
  }

  lemma OpenedFrom(b: B.Bridge, e: Event, env: Env)
    requires GoodEvent(e) && OpensSession(b.s, Step(b, e, env).s) && Live(Step(b, e, env).s)
    ensures SessionFrom(Step(b, e, env), |b.usb.frames|)
  {
    var r, n := Step(b, e, env), |b.usb.frames|;
    hide Step, Agrees, Announced, Arrivals, After;
    forall d: Display
      ensures Agrees(r.s, After(d, Arrivals(r.usb.frames[n..])))
    {
      OpeningSim(View(d, n), b, e, env);
    }
    OpeningSim(View(Still(Error), n), b, e, env);
  }

  lemma GoesOnAgrees(b: B.Bridge, e: Event, env: Env, n: nat, d: Display)
    requires GoodEvent(e) && SessionInv(b.s) && Roomy(b.s) && n <= |b.usb.frames|
    requires Agrees(b.s, After(d, Arrivals(b.usb.frames[n..])))
    ensures Agrees(Step(b, e, env).s, After(d, Arrivals(Step(b, e, env).usb.frames[n..])))
  {
    hide Step, Agrees, Arrivals, After, SessionInv, Roomy;
    StepSim(View(d, n), b, e, env);
  }

  lemma StillAnnounced(before: seq<UsbFrame>, after: seq<UsbFrame>, n: nat)
    requires n <= |before| && before <= after && Announced(Arrivals(before[n..]))
    ensures Announced(Arrivals(after[n..]))
  {
    hide Announced, Arrivals;
    assert after[n..] == before[n..] + after[|before|..];
    ArrivalsInTwo(before[n..], after[|before|..]);
    AnnouncedInTwo(Arrivals(before[n..]), Arrivals(after[|before|..]));
  }

  lemma GoesOnFrom(b: B.Bridge, e: Event, env: Env, n: nat)
    requires GoodEvent(e) && SessionInv(b.s) && Roomy(b.s) && SessionFrom(b, n)
    ensures SessionFrom(Step(b, e, env), n)
  {
    var r := Step(b, e, env);
    hide Step, Agrees, Announced, Arrivals, After, SessionInv, Roomy;
    forall d: Display
      ensures Agrees(r.s, After(d, Arrivals(r.usb.frames[n..])))
    {
      GoesOnAgrees(b, e, env, n, d);
    }
    StillAnnounced(b.usb.frames, r.usb.frames, n);
  }

  /** One step: a live session goes on, or begins. */
  lemma StepFrom(b: B.Bridge, t: Tick, n: nat) returns (from: nat)
    requires GoodEvent(t.event) && SessionInv(b.s) && Roomy(b.s) && (Live(b.s) ==> SessionFrom(b, n))
    requires Moves(b.s, Step(b, t.event, t.env).s, t.env.clock) && Live(Step(b, t.event, t.env).s)
    ensures SessionFrom(Step(b, t.event, t.env), from)
  {
    hide Step, Moves, SessionFrom, Live, OpensSession, SessionInv, Roomy;
    if OpensSession(b.s, Step(b, t.event, t.env).s) {
      from := |b.usb.frames|;
      OpenedFrom(b, t.event, t.env);
    } else {
      from := n;
      LiveBefore(b.s, Step(b, t.event, t.env).s, t.env.clock);
      GoesOnFrom(b, t.event, t.env, n);
    }
  }

  lemma BootIsNotLive()
    ensures !Live(Boot().s)
  {
  }

  lemma SessionInvAt(moves: seq<Move>, systems: seq<System>, k: nat)
    requires LinkRun(moves, systems) && k <= |moves|
    ensures SessionInv(systems[k].bridge.s)
  {
    BridgeKept(moves, systems, k);
  }

  /** A live session was opened at some point, from which on its frames tell all about it. */
  lemma {:induction false} SessionBegan(moves: seq<Move>, systems: seq<System>, k: nat) returns (n: nat)
    requires LinkRun(moves, systems) && k <= |moves| && Live(systems[k].bridge.s)
    ensures SessionFrom(systems[k].bridge, n)
    decreases k
  {
    hide Step, M.Act, Boot, Kept, Moves, SessionFrom, Live, SessionInv, Roomy;
    BootIsNotLive();
    var y, v := systems[k - 1], moves[k - 1];
    assert systems[k] == Apply(y, v) && GoodMove(v);
    n := 0;
    if Live(y.bridge.s) {
      n := SessionBegan(moves, systems, k - 1);
    }
    if v.BridgeStep? {
      BridgeKept(moves, systems, k - 1);
      SessionInvAt(moves, systems, k - 1);
      BridgeMoveKeeps(moves, systems, k - 1);
      n := StepFrom(y.bridge, v.tick, n);
    }
  }

  // ----- what the host reads after it has failed -----

  /** The host reads in turn what there is: nothing raises, no flow goes on, and the operator stays away. */
  lemma HostReadsOn(y: System, v: Move)
    requires GoodMove(v) && v.HostAct? && !Operator(v) && !ReadRaises(y, v) && y.host.next.None?
    ensures var r := Apply(y, v);
            && r.bridge == y.bridge && r.line == y.line && r.host.next.None?
            && After(Shows(r.host), Unread(r)) == After(Shows(y.host), Unread(y))
  {
    hide After, Announced, Arrivals, AllRead, M.Polling, Shows, M.SendCommand, M.Told;
    match v.action
    case Snapshot | KeepaliveCommand | SendData(_) =>
      PollReadsOn(y, v.action, v.config, v.outside);
      AfterInTwo(Shows(y.host), y.host.inbox, Arrivals(y.line));
      assert [] + Arrivals(y.line) == Arrivals(y.line);
    case Command(_) | Downlink(_) | ResetErrors | ResetMaxDelay => SideKeeps(y, v.action, v.config, v.outside);
  }

  lemma PollReadsOn(y: System, a: M.Action, config: seq<byte>, o: M.Outside)
    requires AllRead(y.host.inbox) && y.host.next.None?
    requires (a.Snapshot? && o.portOpen) || a.KeepaliveCommand? || (a.SendData? && o.sendOk)
    ensures var r := M.Polling(y.host, a, config, o);
            r.inbox == [] && r.next.None? && Shows(r) == After(Shows(y.host), y.host.inbox)
  {
    hide M.PollInbox, After, Announced, AllRead, M.Advance, M.CheckPort, M.SendDataNow;
    InboxMoves(y.host, o.answers);
    var m := M.PollInbox(y.host, o.answers).mirror;
    match a
    case Snapshot => SnapshotEnds(m, config, o);
    case KeepaliveCommand =>
    case SendData(payload) => SendEnds(m, payload, o);
  }

  /** What the host has to read from system i on: the rest of the line, and what is written. */
  function ToRead(systems: seq<System>, i: nat, k: nat): seq<UsbFrame>
    requires i <= k < |systems|
  {
    systems[i].line + Since(View(Still(Reset), |systems[i].bridge.usb.frames|), systems[k].bridge.usb.frames)
  }

  lemma MoveGrows(y: System, v: Move)
    requires GoodMove(v)
    ensures y.bridge.usb.frames <= Apply(y, v).bridge.usb.frames
  {
    hide Step, M.Act, Received, Remaining;
  }

  lemma NextSystem(moves: seq<Move>, systems: seq<System>, k: nat)
    requires LinkRun(moves, systems) && k < |moves|
    ensures |systems| == |moves| + 1 && GoodMove(moves[k]) && systems[k + 1] == Apply(systems[k], moves[k])
  {
    hide Step, M.Act, Boot, Roomy;
  }

  lemma {:induction false} BridgeGrows(moves: seq<Move>, systems: seq<System>, i: nat, k: nat)
    requires |systems| == |moves| + 1
    requires LinkRun(moves, systems) && i <= k <= |moves|
    ensures systems[i].bridge.usb.frames <= systems[k].bridge.usb.frames
    decreases k
  {
    hide LinkRun, Apply;
    if i < k {
      BridgeGrows(moves, systems, i, k - 1);
      NextSystem(moves, systems, k - 1);
      MoveGrows(systems[k - 1], moves[k - 1]);
    }
  }

  /** The frames written by move k. */
  function Written(systems: seq<System>, k: nat): seq<UsbFrame>
    requires k + 1 < |systems|
  {
    Since(View(Still(Reset), |systems[k].bridge.usb.frames|), systems[k + 1].bridge.usb.frames)
  }

  lemma MoreToRead(moves: seq<Move>, systems: seq<System>, i: nat, k: nat)
    requires LinkRun(moves, systems) && i <= k < |moves|
    ensures ToRead(systems, i, k + 1) == ToRead(systems, i, k) + Written(systems, k)
  {
    BridgeGrows(moves, systems, i, k);
    BridgeGrows(moves, systems, k, k + 1);
    hide LinkRun;
  }

  /** From system i on, nothing under way and nothing disturbing: what will be shown is what reading on makes of it. */
  lemma {:induction false} ReadsOn(moves: seq<Move>, systems: seq<System>, i: nat, k: nat)
    requires |systems| == |moves| + 1
    requires LinkRun(moves, systems) && i <= k <= |moves| && Undisturbed(moves, systems, i, k)
    requires systems[i].host.next.None? && systems[i].host.inbox == []
    ensures var y := systems[k];
            && y.host.next.None?
            && After(Shows(y.host), Unread(y)) == After(Shows(systems[i].host), Arrivals(ToRead(systems, i, k)))
    decreases k
  {
    hide LinkRun, Undisturbed, Operator, ReadRaises, After, Shows, Apply, Arrivals;
    if i == k {
      assert ToRead(systems, i, i) == systems[i].line;
      assert [] + Arrivals(systems[i].line) == Arrivals(systems[i].line);
    } else {
      LessDisturbed(moves, systems, i, k);
      ReadsOn(moves, systems, i, k - 1);
      MoreToRead(moves, systems, i, k - 1);
      ArrivalsInTwo(ToRead(systems, i, k - 1), Written(systems, k - 1));
      AfterInTwo(Shows(systems[i].host), Arrivals(ToRead(systems, i, k - 1)), Arrivals(Written(systems, k - 1)));
      OneMoveReads(moves, systems, k - 1);
    }
  }

  lemma OneMoveReads(moves: seq<Move>, systems: seq<System>, k: nat)
    requires LinkRun(moves, systems) && k < |moves| && systems[k].host.next.None?
    requires !Operator(moves[k]) && !ReadRaises(systems[k], moves[k])
    ensures var y, r := systems[k], systems[k + 1];
            && r.host.next.None?
            && After(Shows(r.host), Unread(r)) == After(After(Shows(y.host), Unread(y)), Arrivals(Written(systems, k)))
  {
    var y, v := systems[k], moves[k];
    assert systems[k + 1] == Apply(y, v) && GoodMove(v);
    BridgeGrows(moves, systems, k, k + 1);
    hide LinkRun, Operator, ReadRaises, After, Shows, Arrivals, Step, M.Act, Unread;
    match v
    case BridgeStep(t) => WrittenRead(y, t);
    case Delivery =>
      DeliveryUnread(y);
      NothingWritten(systems, k);
    case HostAct(_, _, _, _) =>
      HostReadsOn(y, v);
      NothingWritten(systems, k);
  }

  lemma NothingWritten(systems: seq<System>, k: nat)
    requires k + 1 < |systems| && systems[k + 1].bridge == systems[k].bridge
    ensures Written(systems, k) == [] && forall d: Display :: After(d, Arrivals(Written(systems, k))) == d
  {
    assert Arrivals(Written(systems, k)) == [];
  }

  // ----- when it agrees again -----

  /** Shown from Error on, the end of what was written agrees with a live session exactly if one of its frames settles. */
  lemma EndAgreesExactly(b: B.Bridge, n: nat, first: seq<UsbFrame>, end: seq<UsbFrame>)
    requires Live(b.s) && SessionFrom(b, n) && EndOf(end, first + b.usb.frames)
    ensures Agrees(b.s, After(Still(Error), Arrivals(end))) <==> Settled(Arrivals(end))
  {
    var session := b.usb.frames[n..];
    assert EndOf(session, first + b.usb.frames);
    SettledForgets(Still(Error), Still(Error), Arrivals(end));
    if |end| >= |session| {
      var before := end[..|end| - |session|];
      EndsNest(session, end, first + b.usb.frames);
      ArrivalsInTwo(before, session);
      AfterInTwo(Still(Error), Arrivals(before), Arrivals(session));
      AnnouncedSettles(Arrivals(session));
      SettledInTwo(Arrivals(before), Arrivals(session));
    } else if Settled(Arrivals(end)) {
      var lost := session[..|session| - |end|];
      EndsNest(end, session, first + b.usb.frames);
      ArrivalsInTwo(lost, end);
      AfterInTwo(Still(Error), Arrivals(lost), Arrivals(end));
      SettledForgets(Still(Error), After(Still(Error), Arrivals(lost)), Arrivals(end));
    }
  }

  ghost predicate RestoredBetween(systems: seq<System>, i: nat, k: nat)
    requires k < |systems|
  {
    exists m :: i <= m < k && Restores(systems[m].bridge.s, systems[m + 1].bridge.s)
  }

  /** With a live session at the end, what was written since system i settles the display exactly if a step restored it. */
  lemma {:induction false} WrittenSettlesExactly(moves: seq<Move>, systems: seq<System>, i: nat, k: nat)
    requires |systems| == |moves| + 1
    requires LinkRun(moves, systems) && i <= k <= |moves| && Live(systems[k].bridge.s)
    ensures Settled(Arrivals(ToRead(systems, i, k))) <==>
              Settled(Arrivals(systems[i].line)) || RestoredBetween(systems, i, k)
    decreases k
  {
    hide LinkRun, Settled, Arrivals, Restores, Live;
    if i == k {
      assert ToRead(systems, i, i) == systems[i].line;
    } else {
      var s, r := systems[k - 1].bridge.s, systems[k].bridge.s;
      MoreToRead(moves, systems, i, k - 1);
      ArrivalsInTwo(ToRead(systems, i, k - 1), Written(systems, k - 1));
      SettledInTwo(Arrivals(ToRead(systems, i, k - 1)), Arrivals(Written(systems, k - 1)));
      OneMoveSettles(moves, systems, k - 1);
      if Live(s) {
        WrittenSettlesExactly(moves, systems, i, k - 1);
      }
      assert RestoredBetween(systems, i, k) <==> RestoredBetween(systems, i, k - 1) || Restores(s, r);
    }
  }

  lemma OneMoveSettles(moves: seq<Move>, systems: seq<System>, k: nat)
    requires LinkRun(moves, systems) && k < |moves| && Live(systems[k + 1].bridge.s)
    ensures Settled(Arrivals(Written(systems, k))) <==> Restores(systems[k].bridge.s, systems[k + 1].bridge.s)
    ensures Live(systems[k].bridge.s) || Restores(systems[k].bridge.s, systems[k + 1].bridge.s)
  {
    var y, v := systems[k], moves[k];
    assert systems[k + 1] == Apply(y, v) && GoodMove(v);
    SessionInvAt(moves, systems, k);
    BridgeKept(moves, systems, k);
    BridgeGrows(moves, systems, k, k + 1);
    if v.BridgeStep? {
      var t := v.tick;
      BridgeMoveKeeps(moves, systems, k);
      hide LinkRun, Step, M.Act, Kept, Moves, Settled, Announced, Arrivals, SessionInv, Roomy;
      if OpensSession(y.bridge.s, systems[k + 1].bridge.s) {
        OpeningSim(View(Still(Error), |y.bridge.usb.frames|), y.bridge, t.event, t.env);
        AnnouncedSettles(Arrivals(Written(systems, k)));
      } else {
        LiveBefore(y.bridge.s, systems[k + 1].bridge.s, t.env.clock);
        SettlesExactly(y.bridge, t.event, t.env);
      }
    } else {
      hide LinkRun, Step, M.Act, Kept, Moves, SessionInv, Roomy;
      NothingWritten(systems, k);
      assert Arrivals(Written(systems, k)) == [];
    }
  }

  /**
   After a failure. Take any run, with anything the operator does, and in it any action i at which
   the host reads a frame that makes it raise, after which nothing raises and the operator does
   nothing to the link. Whenever all is read with a live session, the mirror agrees with the bridge
   if and only if a frame that was still on the line settles the display, or the bridge has opened
   a session, completed an exchange or, after the session's first exchange, sent a request since;
   else it still shows Error.
   */
  lemma MirrorRecoversExactly(moves: seq<Move>, systems: seq<System>, i: nat, k: nat)
    requires |systems| == |moves| + 1
    requires LinkRun(moves, systems) && i < k <= |moves| && ReadRaises(systems[i], moves[i])
    requires Undisturbed(moves, systems, i + 1, k)
    requires Live(systems[k].bridge.s) && Unread(systems[k]) == []
    ensures Agrees(systems[k].bridge.s, Shows(systems[k].host)) <==>
              Settled(Arrivals(systems[i + 1].line)) || RestoredBetween(systems, i + 1, k)
    ensures Agrees(systems[k].bridge.s, Shows(systems[k].host)) || systems[k].host.link.state.Error?
  {
    FaultedAt(moves, systems, i);
    ReadsOn(moves, systems, i + 1, k);
    WrittenSettlesExactly(moves, systems, i + 1, k);
    var end, b := ToRead(systems, i + 1, k), systems[k].bridge;
    assert Shows(systems[k].host) == After(Still(Error), Arrivals(end));
    ToReadIsEnd(moves, systems, i + 1, k);
    var n := SessionBegan(moves, systems, k);
    hide LinkRun, Undisturbed, Arrivals, Settled, Agrees, Live, SessionFrom, RestoredBetween, ReadRaises;
    EndAgreesExactly(b, n, systems[0].line, end);
    SettledForgets(Still(Error), Still(Error), Arrivals(end));
  }

  lemma FaultedAt(moves: seq<Move>, systems: seq<System>, i: nat)
    requires LinkRun(moves, systems) && i < |moves| && ReadRaises(systems[i], moves[i])
    ensures var y := systems[i + 1];
            y.host.next.None? && y.host.inbox == [] && Shows(y.host) == Still(Error)
  {
    assert systems[i + 1] == Apply(systems[i], moves[i]) && GoodMove(moves[i]);
    hide LinkRun, ReadRaises, Apply;
    RaiseFaults(systems[i], moves[i]);
  }

  lemma ToReadIsEnd(moves: seq<Move>, systems: seq<System>, i: nat, k: nat)
    requires LinkRun(moves, systems) && i <= k <= |moves|
    ensures EndOf(ToRead(systems, i, k), systems[0].line + systems[k].bridge.usb.frames)
  {
    LineIsEnd(moves, systems, i);
    BridgeGrows(moves, systems, i, k);
    hide LinkRun;
    var first, before, after := systems[0].line, systems[i].bridge.usb.frames, systems[k].bridge.usb.frames;
    EndGrows(systems[i].line, first + before, after[|before|..]);
    assert first + before + after[|before|..] == first + after;
  }
}
