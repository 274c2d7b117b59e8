/** Whole runs of the bridge from power-on, under any client, host, network and clock that does not run backwards. */
module BridgeRuns {
  import opened Frames
  import opened KeepaliveText
  import opened Bridge
  import opened BridgeMoves
  import opened BridgeInvariant

  datatype Tick = Tick(event: Event, env: Env)

  predicate GoodEvents(script: seq<Tick>) {
    forall k :: 0 <= k < |script| ==> GoodEvent(script[k].event)
  }

  lemma KeptLive(s: Session, now: int)
    requires Kept(s, now) && Live(s)
    ensures LiveInv(s)
  {
  }

  // ----- traces -----

  /** The states one after the other, from b on. */
  ghost predicate Trace(b: Bridge, script: seq<Tick>, states: seq<Bridge>) {
    && GoodEvents(script)
    && |states| == |script| + 1
    && states[0] == b
    && forall i :: 0 <= i < |script| ==> states[i + 1] == Step(states[i], script[i].event, script[i].env)
  }

  ghost predicate Clocked(script: seq<Tick>) {
    && (forall i :: 0 <= i < |script| ==> script[i].env.clock.Ordered())
    && (forall i :: 0 < i < |script| ==> script[i - 1].env.clock.armed <= script[i].env.clock.enter)
  }

  /**
   A run from power-on, of any length. No session completes 2^31 - 1 exchanges, and no 2^32 - 2
   sessions are opened, so that no 32-bit counter wraps.
   */
  ghost predicate FromPowerOn(script: seq<Tick>, states: seq<Bridge>) {
    && Trace(Boot(), script, states) && Clocked(script)
    && forall i :: 0 <= i < |script| ==> Roomy(states[i].s)
  }

  /** The last clock reading of a run. */
  function Latest(script: seq<Tick>): int {
    if script == [] then 0 else script[|script| - 1].env.clock.armed
  }

  lemma BootKept()
    ensures Kept(Boot().s, 0)
  {
  }

  lemma StepKeeps(b: Bridge, e: Event, env: Env, now: int)
    requires GoodEvent(e) && Kept(b.s, now) && Roomy(b.s) && env.clock.Ordered() && now <= env.clock.enter
    ensures Moves(b.s, Step(b, e, env).s, env.clock)
    ensures Kept(Step(b, e, env).s, env.clock.armed)
  {
    if Live(b.s) {
      KeptLive(b.s, now);
    }
    hide Step, Kept, Moves, Roomy, LiveInv;
    StepMoves(b, e, env);
    MoveKeeps(b.s, Step(b, e, env).s, now, env.clock);
  }

  /** Every state reached from power-on keeps the three invariants. */
  lemma {:induction false} EveryRunKeeps(script: seq<Tick>, states: seq<Bridge>)
    requires FromPowerOn(script, states)
    ensures Kept(states[|script|].s, Latest(script))
    decreases |script|
  {
    BootKept();
    hide Step, Boot, Kept, Moves, Roomy;
    if script != [] {
      var n := |script| - 1;
      PrefixFromPowerOn(script, states, n);
      EveryRunKeeps(script[..n], states[..n + 1]);
      StepKeeps(states[n], script[n].event, script[n].env, Latest(script[..n]));
    }
  }

  lemma PrefixFromPowerOn(script: seq<Tick>, states: seq<Bridge>, k: nat)
    requires FromPowerOn(script, states) && k <= |script|
    ensures FromPowerOn(script[..k], states[..k + 1])
  {
    hide Step, Boot, Roomy;
  }

  /**
   The keepalive invariant: in every reachable state with a client attached and a keepalive
   state, the server counter is twice the number of exchanges completed, the client counter is
   1 or one less, and a response is awaited exactly in ClientReturn, for the next request. So
   the next request corrects no parity.
   */
  lemma LiveSessionsAgree(script: seq<Tick>, states: seq<Bridge>)
    requires FromPowerOn(script, states)
    ensures var s := states[|script|].s;
            Live(s) ==>
              && LiveInv(s)
              && (s.state.ClientReturn? <==> s.pending)
              && EvenUp(s.server) == s.server && OddUp(s.client) == s.client
  {
    hide Step, Boot;
    EveryRunKeeps(script, states);
  }

  // ----- exactly once -----

  lemma {:induction false} CompletedAscend(completed: seq<Exchange>, i: nat, j: nat)
    requires CompletedInOrder(completed) && i < j < |completed|
    ensures completed[i].session <= completed[j].session
    ensures completed[i].session == completed[j].session ==> completed[j].request == completed[i].request + (j - i)
  {
    if i + 1 < j {
      CompletedAscend(completed, i, j - 1);
    }
  }

  lemma {:induction false} NoGap(completed: seq<Exchange>, j: nat, request: int)
    requires CompletedInOrder(completed) && j < |completed| && 1 <= request <= completed[j].request
    ensures 0 <= j - (completed[j].request - request)
    ensures completed[j - (completed[j].request - request)] == Exchange(completed[j].session, request)
  {
    if request < completed[j].request {
      NoGap(completed, j - 1, request);
    }
  }

  /**
   Exactly once: over a whole run no exchange is completed twice, session ids never go back, and
   the requests completed in a session are 1, 2, 3 and so on, one after the other.
   */
  lemma ExactlyOnce(script: seq<Tick>, states: seq<Bridge>, i: nat, j: nat)
    requires FromPowerOn(script, states)
    requires i < j < |states[|script|].s.completed|
    ensures var c := states[|script|].s.completed;
            && c[i] != c[j]
            && c[i].session <= c[j].session
            && (c[i].session == c[j].session ==> c[j].request - c[i].request == j - i)
  {
    hide Step, Boot;
    EveryRunKeeps(script, states);
    CompletedAscend(states[|script|].s.completed, i, j);
  }

  /** And none is skipped: before request n of a session, its requests 1 to n - 1 were completed. */
  lemma NoneSkipped(script: seq<Tick>, states: seq<Bridge>, j: nat, request: int)
    requires FromPowerOn(script, states)
    requires j < |states[|script|].s.completed| && 1 <= request <= states[|script|].s.completed[j].request
    ensures Exchange(states[|script|].s.completed[j].session, request) in states[|script|].s.completed[..j + 1]
  {
    hide Step, Boot;
    EveryRunKeeps(script, states);
    var c := states[|script|].s.completed;
    NoGap(c, j, request);
    assert c[..j + 1][j - (c[j].request - request)] == Exchange(c[j].session, request);
  }

  // ----- session ids -----

  /** A run can go on with any event. */
  lemma GoOn(script: seq<Tick>, states: seq<Bridge>, t: Tick) returns (more: seq<Tick>, after: seq<Bridge>)
    requires FromPowerOn(script, states) && Roomy(states[|script|].s)
    requires GoodEvent(t.event) && t.env.clock.Ordered() && Latest(script) <= t.env.clock.enter
    ensures FromPowerOn(more, after) && Latest(more) == t.env.clock.armed
    ensures |more| == |script| + 1 && |after| == |states| + 1
    ensures more == script + [t] && after == states + [Step(states[|script|], t.event, t.env)]
  {
    hide Step, Boot, Roomy;
    more, after := script + [t], states + [Step(states[|script|], t.event, t.env)];
  }

  lemma NoSteps()
    ensures FromPowerOn([], [Boot()]) && Latest([]) == 0
  {
    hide Boot;
  }

  lemma SessionAt(script: seq<Tick>, states: seq<Bridge>, k: nat)
    requires FromPowerOn(script, states) && k <= |script|
    ensures SessionInv(states[k].s)
  {
    PrefixFromPowerOn(script, states, k);
    EveryRunKeeps(script[..k], states[..k + 1]);
  }

  /** What one step of a run does to the session: one move, from a state that keeps the invariants. */
  lemma MoveAt(script: seq<Tick>, states: seq<Bridge>, k: nat)
    requires FromPowerOn(script, states) && k < |script|
    ensures SessionInv(states[k].s) && Roomy(states[k].s)
    ensures Moves(states[k].s, states[k + 1].s, script[k].env.clock)
  {
    PrefixFromPowerOn(script, states, k);
    EveryRunKeeps(script[..k], states[..k + 1]);
    hide Step, Boot, Moves, Trace, SentInv, CompletedInv, LiveInv;
    assert states[k + 1] == Step(states[k], script[k].event, script[k].env);
    StepKeeps(states[k], script[k].event, script[k].env, Latest(script[..k]));
  }

  lemma NextSessionMoves(s: Session, r: Session, clock: Clock)
    requires SessionInv(s) && Roomy(s) && Moves(s, r, clock)
    ensures s.nextSession <= r.nextSession
    ensures r.session !in {s.session, 0} ==> r.session == s.nextSession
  {
    hide LiveInv, EvenUp, OddUp, RequestDue, RetryDue, WindowExpired;
  }

  lemma {:induction false} NextSessionGrows(script: seq<Tick>, states: seq<Bridge>, i: nat, k: nat)
    requires FromPowerOn(script, states) && i <= k <= |script|
    ensures states[i].s.nextSession <= states[k].s.nextSession
    decreases k
  {
    hide Step, Boot, Moves, SessionInv;
    if i < k {
      NextSessionGrows(script, states, i, k - 1);
      MoveAt(script, states, k - 1);
      NextSessionMoves(states[k - 1].s, states[k].s, script[k - 1].env.clock);
    }
  }

  /** A session opened in a run has an id greater than that of every session before it. */
  lemma SessionsAreFresh(script: seq<Tick>, states: seq<Bridge>, i: nat, k: nat)
    requires FromPowerOn(script, states) && i <= k < |script|
    requires states[k + 1].s.session !in {states[k].s.session, 0}
    ensures states[i].s.session < states[k + 1].s.session
  {
    hide Step, Boot, Moves, LiveInv;
    MoveAt(script, states, k);
    NextSessionMoves(states[k].s, states[k + 1].s, script[k].env.clock);
    MoveAt(script, states, i);
    NextSessionGrows(script, states, i, k);
  }

  // ----- retries -----

  lemma {:induction false} SentAscend(sent: seq<Transmission>, i: nat, j: nat)
    requires SentInOrder(sent) && i < j < |sent|
    ensures sent[i].session <= sent[j].session
    ensures sent[i].session == sent[j].session ==>
              && sent[i].request <= sent[j].request
              && sent[j].begin - sent[i].end >= (j - i) * KEEPALIVE_PERIOD_US
              && (sent[i].request == sent[j].request ==> sent[j].attempt == sent[i].attempt + (j - i))
  {
    if i + 1 < j {
      SentAscend(sent, i, j - 1);
    }
  }

  /**
   Over a whole run, each request is put on the wire at most three times, attempts 0, 1 and 2
   in that order; two requests of one session are at least 300 ms apart and two tries of one
   request at least 500 ms, from the end of one to the beginning of the next.
   */
  lemma RetriesBounded(script: seq<Tick>, states: seq<Bridge>, i: nat, j: nat)
    requires FromPowerOn(script, states)
    requires i < j < |states[|script|].s.sent|
    ensures var t := states[|script|].s.sent;
            && t[i].attempt <= 2 && t[j].attempt <= 2
            && (t[i].session == t[j].session ==>
                  t[j].begin - t[i].end >= (j - i) * KEEPALIVE_PERIOD_US)
            && (t[i].session == t[j].session && t[i].request == t[j].request ==>
                  && t[j].attempt - t[i].attempt == j - i <= 2
                  && t[j].begin - t[j - 1].end >= RETRY_GAP_US)
  {
    hide Step, Boot;
    EveryRunKeeps(script, states);
    SentAscend(states[|script|].s.sent, i, j);
    if i < j - 1 {
      SentAscend(states[|script|].s.sent, i, j - 1);
    }
  }

  /** The watchdog gives the session up in b. */
  ghost predicate GivesUp(b: Bridge, now: int) {
    && b.s.attached && b.s.pending && b.s.lastTx > 0 && b.s.state.ClientReturn? && b.s.windowStarted > 0
    && WindowExpired(b.s, now) && Inc32(b.s.retries) >= RETRY_LIMIT
  }

  /** That is when, and the only time when, a turn of the watchdog leads to Initialize; the client is closed then. */
  lemma GivesUpExactly(b: Bridge, env: Env)
    ensures var r := Step(b, Watchdog, env).s;
            && (b.wifiEnabled && GivesUp(b, env.clock.enter) <==> r.state.Initialize? && !b.s.state.Initialize?)
            && (b.wifiEnabled && GivesUp(b, env.clock.enter) ==>
                  !r.attached && !r.pending && r.session == 0 && r.server == 0 && r.client == DEVICE_LIVE_START)
  {
    hide SendKeepalive, Teardown, EnterState, WindowExpired;
  }

  ghost predicate TryOf(s: Session, k: int, attempt: nat) {
    && 0 <= k < |s.sent|
    && s.sent[k].session == s.session && s.sent[k].request == s.pendingRequest && s.sent[k].attempt == attempt
  }

  /**
   The watchdog tears a session down only after three tries, and no earlier than 1500 ms after
   the first of them: the last three transmissions are tries 0, 1 and 2 of the pending request.
   */
  lemma TeardownNotEarly(script: seq<Tick>, states: seq<Bridge>, env: Env)
    requires FromPowerOn(script, states)
    requires env.clock.Ordered() && Latest(script) <= env.clock.enter
    requires GivesUp(states[|script|], env.clock.enter)
    ensures var s := states[|script|].s;
            var n := |s.sent|;
            && n >= 3
            && TryOf(s, n - 3, 0) && TryOf(s, n - 2, 1) && TryOf(s, n - 1, 2)
            && env.clock.enter - s.sent[n - 3].end >= 1_500_000
  {
    hide Step, Boot;
    EveryRunKeeps(script, states);
    var s := states[|script|].s;
    var n := |s.sent|;
    assert s.retries == 2;
    SentAscend(s.sent, n - 3, n - 1);
    assert Follows(s.sent[n - 3], s.sent[n - 2]);
    assert Follows(s.sent[n - 2], s.sent[n - 1]);
    assert (env.clock.enter - s.windowStarted) / 1000 >= 500;
  }

  // ----- how long a run may be -----

  predicate ClientKeepalive(e: Event) {
    e.TcpFrame? && e.frame.kind == KEEPALIVE
  }

  predicate ConnectRequest(e: Event) {
    (e.TcpFrame? || e.UsbFrameIn?) && e.frame.kind == CONNECT
  }

  function One(p: bool): nat {
    if p then 1 else 0
  }

  function ClientKeepalives(script: seq<Tick>): nat {
    if script == [] then 0
    else ClientKeepalives(script[..|script| - 1]) + One(ClientKeepalive(script[|script| - 1].event))
  }

  function ConnectRequests(script: seq<Tick>): nat {
    if script == [] then 0
    else ConnectRequests(script[..|script| - 1]) + One(ConnectRequest(script[|script| - 1].event))
  }

  lemma FrameCounts(b: Bridge, transport: Transport, f: Frame, env: Env)
    requires FieldsFit(f)
    ensures var r := HandleFrame(b, transport, f, env).s;
            && (f.kind != KEEPALIVE ==> r.lastCompleted in {b.s.lastCompleted, 0})
            && (f.kind != CONNECT ==> r.nextSession == b.s.nextSession)
            && (f.kind == CONNECT ==> r.nextSession == Inc32(b.s.nextSession))
  {
    hide HandleReset, HandleInitialize, HandleConnect, HandleDisconnect, HandleKeepalive, HandleUsbData, HandleTcpData,
         Reply, EnterState, Judge, PayloadText, DataVersion;
  }

  lemma StepCounts(b: Bridge, e: Event, env: Env)
    requires GoodEvent(e) && (Live(b.s) ==> LiveInv(b.s)) && Roomy(b.s)
    ensures var r := Step(b, e, env).s;
            && r.lastCompleted <= b.s.lastCompleted + One(ClientKeepalive(e))
            && r.nextSession <= b.s.nextSession + One(ConnectRequest(e))
  {
    hide HandleFrame, Accept, CloseClient, EngineTick, WatchdogTick, Notify;
    match e
    case UsbFrameIn(f) =>
      FrameCounts(b, Usb, f, env);
      UsbKeepalive(b, f, env);
    case TcpFrame(f) =>
      FrameCounts(b, Tcp, f, env);
      if b.s.attached {
        TcpKeepalive(b, f, env);
      }
    case Accepts =>
    case PeerCloses =>
    case BadStream(_) =>
    case Engine => ClockCounts(b, env);
    case Watchdog => ClockCounts(b, env);
  }

  lemma UsbKeepalive(b: Bridge, f: Frame, env: Env)
    requires FieldsFit(f)
    ensures f.kind == KEEPALIVE ==> HandleFrame(b, Usb, f, env).s == b.s
  {
    hide HandleReset, HandleInitialize, HandleConnect, HandleDisconnect, HandleUsbData, HandleTcpData, Judge, PayloadText,
         HandleKeepalive, Reply, EnterState, DataVersion;
  }

  lemma AcceptedIsNext(s: Session, f: Frame)
    requires FieldsFit(f) && s.attached && (Live(s) ==> LiveInv(s)) && Judge(s, f).Accepted?
    ensures s.pendingRequest == s.lastCompleted + 1
  {
    hide Judge, PayloadText;
    JudgeAccepts(s, f);
  }

  lemma ResponseCounts(b: Bridge, f: Frame, env: Env)
    requires FieldsFit(f) && b.s.attached && (Live(b.s) ==> LiveInv(b.s))
    ensures HandleKeepalive(b, Tcp, f, env).s.lastCompleted <= b.s.lastCompleted + 1
  {
    hide HandleKeepalive, Judge, PayloadText, EvenUp, Inc32, LiveInv, Live, Breaks;
    match Judge(b.s, f)
    case Ignored(_) =>
    case WrongVersion =>
    case Accepted => AcceptedIsNext(b.s, f);
  }

  lemma TcpKeepalive(b: Bridge, f: Frame, env: Env)
    requires FieldsFit(f) && b.s.attached && (Live(b.s) ==> LiveInv(b.s))
    ensures f.kind == KEEPALIVE ==> HandleFrame(b, Tcp, f, env).s.lastCompleted <= b.s.lastCompleted + 1
  {
    ResponseCounts(b, f, env);
    hide HandleReset, HandleInitialize, HandleConnect, HandleDisconnect, HandleUsbData, HandleTcpData, Judge, PayloadText,
         HandleKeepalive, Reply, EnterState, DataVersion, LiveInv, Live;
  }

  lemma ClockCounts(b: Bridge, env: Env)
    ensures forall r :: r in {EngineTick(b, env).s, WatchdogTick(b, env).s} ==>
              r.lastCompleted in {b.s.lastCompleted, 0} && r.nextSession == b.s.nextSession
  {
    hide SendKeepalive, EnterState, Teardown, WindowExpired, EvenUp, OddUp;
  }

  lemma {:induction false} Counted(script: seq<Tick>, states: seq<Bridge>)
    requires FromPowerOn(script, states)
    ensures states[|script|].s.lastCompleted <= ClientKeepalives(script)
    ensures states[|script|].s.nextSession <= 1 + ConnectRequests(script)
    decreases |script|
  {
    hide Step, Boot, Roomy, LiveInv, ClientKeepalive, ConnectRequest;
    var n := |script|;
    if n == 0 {
      FreshCounts();
    } else {
      PrefixFromPowerOn(script, states, n - 1);
      Counted(script[..n - 1], states[..n]);
      MoveAt(script, states, n - 1);
      assert states[n] == Step(states[n - 1], script[n - 1].event, script[n - 1].env);
      StepCounts(states[n - 1], script[n - 1].event, script[n - 1].env);
    }
  }

  lemma FreshCounts()
    ensures Boot().s.lastCompleted == 0 && Boot().s.nextSession == 1
  {
  }

  lemma {:induction false} PrefixCounts(script: seq<Tick>, k: nat)
    requires k <= |script|
    ensures ClientKeepalives(script[..k]) <= ClientKeepalives(script)
    ensures ConnectRequests(script[..k]) <= ConnectRequests(script)
    decreases |script| - k
  {
    hide ClientKeepalive, ConnectRequest;
    if k < |script| {
      PrefixCounts(script, k + 1);
      assert script[..k + 1][..k] == script[..k];
    } else {
      assert script[..k] == script;
    }
  }

  /**
   No counter wraps in a run, however long, in which clients send fewer than 2^31 - 1 keepalive
   frames and fewer than 2^32 - 2 CONNECT requests are made.
   */
  lemma {:induction false} RunsHaveRoom(script: seq<Tick>, states: seq<Bridge>)
    requires Trace(Boot(), script, states) && Clocked(script)
    requires ClientKeepalives(script) < 0x7FFF_FFFF && ConnectRequests(script) < 0xFFFF_FFFE
    ensures FromPowerOn(script, states)
    decreases |script|
  {
    hide Step, Boot, Roomy, ClientKeepalive, ConnectRequest;
    var n := |script|;
    if n > 0 {
      var before, earlier := script[..n - 1], states[..n];
      PrefixCounts(script, n - 1);
      assert Trace(Boot(), before, earlier) && Clocked(before);
      RunsHaveRoom(before, earlier);
      Counted(before, earlier);
      assert Roomy(states[n - 1].s) by { EnoughRoom(states[n - 1].s); }
      assert forall i :: 0 <= i < n - 1 ==> Roomy(earlier[i].s);
      forall i | 0 <= i < n
        ensures Roomy(states[i].s)
      {
        if i < n - 1 {
          assert earlier[i] == states[i];
        }
      }
    }
  }

  lemma EnoughRoom(s: Session)
    requires s.lastCompleted < 0x7FFF_FFFF && s.nextSession < 0xFFFF_FFFF
    ensures Roomy(s)
  {
  }
}
