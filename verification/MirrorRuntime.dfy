/** The mirror as the host runs it: one object, its loop over received frames, and its locked actions. */
module MirrorRuntime {
  import opened Options
  import opened Bytes
  import opened Frames
  import opened B = Bridge
  import opened M = Mirror
  import opened Text
  import opened HostText

  // ----- the token parsers -----

  method TryParseU32(text: string, key: string) returns (r: Reading)
    ensures r == FieldU32(text, key)
  {
    hide FieldValue, AllDigitLike, AllDecimal, IntOf;
    var tokens := Tokens(text);
    for k := 0 to |tokens|
      invariant ReadU32(tokens, key) == ReadU32(tokens[k..], key)
    {
      var raw := FieldValue(tokens[k], key);
      assert tokens[k..][1..] == tokens[k + 1..];
      if AllDigitLike(raw) {
        return if AllDecimal(raw) then Found(IntOf(raw)) else Raises;
      }
    }
    return Missing;
  }

  method TryParseI32(text: string, key: string) returns (r: Option<int>)
    ensures r == FieldI32(text, key)
  {
    hide FieldValue, AllDigitLike, AllDecimal, IntOf;
    var tokens := Tokens(text);
    for k := 0 to |tokens|
      invariant ReadI32(tokens, key) == ReadI32(tokens[k..], key)
    {
      var raw := FieldValue(tokens[k], key);
      assert tokens[k..][1..] == tokens[k + 1..];
      var minus := |raw| > 0 && raw[0] == '-';
      var digits := if minus then raw[1..] else raw;
      if AllDigitLike(digits) {
        if !AllDecimal(digits) {
          return None;
        }
        return Some(if minus then 0 - IntOf(digits) as int else IntOf(digits) as int);
      }
    }
    return None;
  }

  method TryParseText(text: string, key: string) returns (r: Option<string>)
    ensures r == ReadText(Tokens(text), key)
  {
    hide FieldValue;
    var tokens := Tokens(text);
    for k := 0 to |tokens|
      invariant ReadText(tokens, key) == ReadText(tokens[k..], key)
    {
      var raw := FieldValue(tokens[k], key);
      assert tokens[k..][1..] == tokens[k + 1..];
      if raw != "" {
        return Some(raw);
      }
    }
    return None;
  }

  class LinkRuntime {
    var link: Link
    var flags: Flags
    var counts: Counts
    var timing: Timing
    var next: Option<State>
    var lastPeer: Option<int>
    var inbox: seq<HostFrame>
    var commands: seq<Frame>
    var orders: seq<Order>

    ghost function Snap(): (m: M.Mirror)
      reads this
    {
      M.Mirror(link, flags, counts, timing, next, lastPeer, inbox, commands, orders)
    }

    ghost predicate Valid()
      reads this
    {
      MirrorInv(Snap())
    }

    constructor ()
      ensures Valid() && Snap() == Start()
    {
      link, flags := Link(Reset, 0, 0, 0), Flags(false, false, true, false, false, false, false, false, false, false);
      counts, timing, next, lastPeer := Counts(0, 0, 0, 0, 0, 0, 0, 0), Timing(0, 0, 0, false, 0, false), None, None;
      inbox, commands, orders := [], [], [];
      new;
      StartInv();
    }

    method ClearRuntimeFlow()
      modifies this
      ensures Snap() == ClearFlow(old(Snap()))
    {
      flags := flags.(watchdogArmed := false, initializeCompleted := false, connectCompleted := false, seeded := false);
      next := None;
      counts := counts.(connectStreak := 0);
      lastPeer := None;
    }

    method RecordTotalError()
      modifies this`timing
      ensures Snap() == ErrorCounted(old(Snap()))
    {
      if !timing.reported {
        timing := timing.(errors := timing.errors + 1);
      }
    }

    method SetRuntimeFault()
      modifies this
      ensures Snap() == Fault(old(Snap()))
    {
      RecordTotalError();
      ClearRuntimeFlow();
      flags := flags.(tcpConnected := false, wifiConnected := false, fault := true);
      link := link.(state := Error);
    }

    method ClearConnectionFault()
      modifies this`flags, this`counts
      ensures Snap() == ClearFault(old(Snap()))
    {
      flags := flags.(fault := false);
      counts := counts.(keepaliveFailures := 0, topFailures := 0);
    }

    // ----- received frames -----

    method NoteExchange()
      modifies this`flags, this`counts
      ensures Snap() == Proven(old(Snap()))
    {
      flags := flags.(seeded := true, watchdogArmed := true, wifiConnected := true, tcpConnected := true,
                      bridgeReady := true, initializeCompleted := true, connectCompleted := true);
      ClearConnectionFault();
      counts := counts.(bottomRetries := 0);
    }

    method HandleRequest(f: HostFrame)
      modifies this
      ensures Snap() == OnRequest(old(Snap()), f)
    {
      if f.host % 2 != 0 || f.device % 2 == 0 || f.device + 1 != f.host {
        return;
      }
      NoteExchange();
      counts := counts.(requests := counts.requests + 1);
      link := link.(server := f.host, client := f.host + 1);
      next := None;
      link := link.(state := ClientReturn);
    }

    method HandleResponse(f: HostFrame)
      modifies this
      ensures Snap() == OnResponse(old(Snap()), f)
    {
      if f.host % 2 != 0 || f.device % 2 == 0 || f.host != f.device + 1 {
        return;
      }
      NoteExchange();
      counts := counts.(responses := counts.responses + 1);
      link := link.(server := f.host, client := f.device);
      link := link.(state := ServerSend);
    }

    method HandleError(text: string)
      modifies this`flags, this`link
      ensures Snap() == OnError(old(Snap()), text)
    {
      hide StartsWith, ReadText, Tokens;
      if text == "keepalive_retry_exhausted" {
        flags := flags.(watchdogArmed := false, seeded := false, wifiConnected := false, tcpConnected := false);
        link := link.(state := Initialize);
        return;
      }
      if !StartsWith(text, "realtime_data_halted") {
        return;
      }
      var reason := TryParseText(text, "reason");
      if reason == Some("tcp_client_closed") {
        flags := flags.(watchdogArmed := false, seeded := false, tcpConnected := false, connectCompleted := false);
        link := link.(state := Connect);
      }
    }

    method HandleText(text: string)
      modifies this
      ensures Snap() == OnText(old(Snap()), text)
    {
      hide ProgressOf;
      match ProgressOf(text)
      case ConnectAck =>
        flags := flags.(wifiConnected := true, tcpConnected := false, bridgeReady := true);
        link := link.(state := Connect);
      case TcpConnected =>
        flags := flags.(wifiConnected := true, tcpConnected := true, bridgeReady := true);
        link := link.(state := Connect);
      case ClientConnected =>
        next := None;
        flags := flags.(connectCompleted := true, watchdogArmed := false, wifiConnected := true, tcpConnected := true,
                        bridgeReady := true);
        link := link.(state := Connect);
      case DisconnectAck =>
        flags := flags.(tcpConnected := false, watchdogArmed := false);
        link := link.(state := Disconnect);
      case ResetAck =>
        ClearRuntimeFlow();
        flags := flags.(wifiReady := false, wifiConnected := false, tcpConnected := false, bridgeReady := true);
        link := link.(state := Reset);
      case InitializeAck =>
        flags := flags.(wifiReady := true, wifiConnected := false, tcpConnected := false, bridgeReady := true,
                        initializeCompleted := true);
        link := link.(state := Initialize);
      case ConnectSuccess =>
        if link.state.Connect? {
          next := None;
          flags := flags.(connectCompleted := true, watchdogArmed := false, wifiConnected := true, tcpConnected := true,
                          bridgeReady := true);
        }
      case NoProgress =>
    }

    /** Raises, before anything is stored, when a number in the text cannot be converted. */
    method IngestTelemetry(text: string) returns (raised: bool)
      modifies this`timing
      ensures raised == TelemetryFails(text)
      ensures Snap() == if raised then old(Snap()) else old(Snap()).(timing := Learned(old(timing), text))
    {
      var last := TryParseI32(text, "td_last_ms");
      var longest := TryParseU32(text, "td_max_ms");
      if longest.Raises? {
        return true;
      }
      var errors := TryParseU32(text, "terr");
      if errors.Raises? {
        return true;
      }
      if last.Some? {
        timing := timing.(last := last.value);
        if last.value >= 0 {
          if !timing.timed || last.value < timing.shortest {
            timing := timing.(shortest := last.value);
          }
          timing := timing.(timed := true);
        }
      }
      if longest.Found? {
        timing := timing.(longest := longest.n);
      }
      if errors.Found? {
        timing := timing.(errors := errors.n, reported := true);
      }
      return false;
    }

    /** The log line names session and request of a keepalive frame; looking for them can raise. */
    method DescribeFrame(f: HostFrame) returns (raised: bool)
      ensures raised == LogFails(f)
    {
      if f.kind != KEEPALIVE {
        return false;
      }
      var session := TryParseU32(f.text, "sid");
      if session.Raises? {
        return true;
      }
      var request := TryParseU32(f.text, "req");
      return request.Raises?;
    }

    method SendAnswers(answers: seq<Answer>)
      modifies this`link, this`commands
      ensures Snap() == SendAll(old(Snap()), answers)
    {
      hide M.SendCommand;
      ghost var before := Snap();
      for k := 0 to |answers|
        invariant SendAll(before, answers) == SendAll(Snap(), answers[k..])
        invariant flags == old(flags) && counts == old(counts) && timing == old(timing) && next == old(next)
        invariant lastPeer == old(lastPeer) && inbox == old(inbox) && orders == old(orders)
      {
        assert answers[k..][1..] == answers[k + 1..];
        SendCommand(DATA, answers[k].payload, answers[k].ok);
      }
    }

    method HandleClientCommand(command: string, given: seq<Answer>) returns (raised: bool)
      modifies this`link, this`commands, this`orders
      ensures raised == OrderOf(command).Malformed?
      ensures Snap() == Obey(old(Snap()), OrderOf(command), given)
    {
      hide OrderOf, AnswersTo, SendAll;
      var order := OrderOf(command);
      if order.Malformed? {
        return true;
      }
      if order.NoOrder? {
        return false;
      }
      orders := orders + [order];
      SendAnswers(AnswersTo(order, given));
      return false;
    }

    /** The body of the loop: one frame, which may raise before, while or after it takes effect. */
    method ReceiveFrame(f: HostFrame, given: seq<Answer>) returns (raised: bool)
      modifies this
      ensures raised == Fails(f)
      ensures Snap() == Take(old(Snap()), f, given)
    {
      hide OnError, OnRequest, OnResponse, OnText, StartsWith, TelemetryFails, LogFails, Learned, OrderOf, Obey;
      raised := IngestTelemetry(f.text);
      if raised {
        return;
      }
      raised := DescribeFrame(f);
      if raised {
        return;
      }
      if link.state.Keepalive() && lastPeer.Some? && f.sequence != (lastPeer.value + 1) % 0x1_0000 {
        counts := counts.(sequenceErrors := counts.sequenceErrors + 1);
      }
      lastPeer := Some(f.sequence);
      if f.kind == ERROR {
        RecordTotalError();
        HandleError(f.text);
      } else if f.kind == DATA {
        counts := counts.(dataFrames := counts.dataFrames + 1);
        raised := HandleClientCommand(f.command, given);
      } else if f.kind == KEEPALIVE && StartsWith(f.text, REQUEST_TAG) {
        HandleRequest(f);
      } else if f.kind == KEEPALIVE && StartsWith(f.text, RESPONSE_TAG) {
        HandleResponse(f);
      } else {
        HandleText(f.text);
      }
    }

    /** All that was received is taken; what stands behind a frame that raises is lost. */
    method PollReceivedFrames(given: seq<seq<Answer>>) returns (raised: bool)
      requires Valid()
      modifies this
      ensures Valid()
      ensures raised == PollInbox(old(Snap()), given).raised && Snap() == PollInbox(old(Snap()), given).mirror
    {
      PollInboxInv(Snap(), given);
      hide Take, Fails, MirrorInv;
      var frames, answers := inbox, given;
      inbox := [];
      ghost var whole := Poll(Snap(), frames, given);
      for i := 0 to |frames|
        invariant whole == Poll(Snap(), frames[i..], answers)
      {
        assert frames[i..][1..] == frames[i + 1..];
        raised := ReceiveFrame(frames[i], AnswersFrom(answers, 0));
        if raised {
          return;
        }
        answers := if answers == [] then [] else answers[1..];
      }
      raised := false;
    }

    // ----- commands -----

    method SendCommand(kind: int, payload: seq<byte>, ok: bool)
      modifies this`link, this`commands
      ensures Snap() == M.SendCommand(old(Snap()), kind, payload, ok)
    {
      link := link.(sequence := (link.sequence + 1) % 0x1_0000);
      if ok {
        commands := commands + [Frame(kind, link.server, link.client, link.sequence, payload)];
      }
    }

    method TrySendCommand(kind: int, payload: seq<byte>, ok: bool)
      modifies this
      ensures Snap() == M.TrySendCommand(old(Snap()), kind, payload, ok)
    {
      hide M.SendCommand;
      SendCommand(kind, payload, ok);
      if !ok {
        SetRuntimeFault();
      }
    }

    method BeginInitialize(config: seq<byte>, o: Outside)
      modifies this
      ensures Snap() == M.BeginInitialize(old(Snap()), config, o)
    {
      hide M.TrySendCommand;
      if !o.configured || !flags.wifiEnabled {
        SetRuntimeFault();
        return;
      }
      if !o.portOpen {
        SetRuntimeFault();
        return;
      }
      flags := flags.(wifiReady := true, wifiConnected := false, tcpConnected := false, bridgeReady := true);
      link := link.(state := Initialize);
      TrySendCommand(INITIALIZE, config, o.sendOk);
      if o.sendOk {
        next := Some(Connect);
      }
    }

    method BeginConnect()
      modifies this
      ensures Snap() == M.BeginConnect(old(Snap()))
    {
      if !flags.wifiReady {
        SetRuntimeFault();
        return;
      }
      next := None;
      flags := flags.(initializeCompleted := true, wifiConnected := false, tcpConnected := false);
      link := link.(state := Connect);
    }

    method AdvanceAutomaticFlow(config: seq<byte>, o: Outside)
      modifies this
      ensures Snap() == Advance(old(Snap()), config, o)
    {
      hide M.BeginInitialize, M.BeginConnect;
      if link.state.Reset? && next == Some(Initialize) {
        BeginInitialize(config, o);
      } else if link.state.Initialize? && next == Some(Connect) {
        BeginConnect();
      }
    }

    method CheckPortAlive(o: Outside)
      modifies this
      ensures Snap() == CheckPort(old(Snap()), o)
    {
      if link.state.Reset? || link.state.Error? || link.state.Disconnect? {
        return;
      }
      if !o.portOpen {
        SetRuntimeFault();
      }
    }

    /** What reset, force release and the Wi-Fi switch share. */
    method ReturnToReset(bridgeReady: bool)
      modifies this
      ensures Snap() == BackToReset(old(Snap()), bridgeReady)
    {
      ClearRuntimeFlow();
      flags := flags.(wifiReady := false, wifiConnected := false, tcpConnected := false, bridgeReady := bridgeReady);
      ClearConnectionFault();
      counts := counts.(bottomRetries := 0);
      link := link.(state := Reset);
    }

    // ----- the public actions, each under the lock -----

    /** The reader of the port has decoded a frame. */
    method FrameArrives(f: HostFrame, o: Outside)
      requires Valid() && GoodFrame(f)
      modifies this
      ensures Valid() && Snap() == Act(old(Snap()), Arrival(f), [], o)
    {
      hide MirrorInv;
      ActInv(Snap(), Arrival(f), [], o);
      inbox := inbox + [f];
    }

    method GetSnapshot(config: seq<byte>, o: Outside)
      requires Valid()
      modifies this
      ensures Valid() && Snap() == Act(old(Snap()), Action.Snapshot, config, o)
    {
      hide MirrorInv, PollInbox, CheckPort, Advance, Fault;
      ActInv(Snap(), Action.Snapshot, config, o);
      var raised := PollReceivedFrames(o.answers);
      if raised {
        SetRuntimeFault();
        return;
      }
      CheckPortAlive(o);
      AdvanceAutomaticFlow(config, o);
    }

    method ResetRuntime(o: Outside)
      modifies this
      ensures Snap() == ResetLinkNow(old(Snap()), o)
    {
      hide BackToReset, M.TrySendCommand, Ascii;
      inbox := [];
      link := link.(server := 0, client := 0);
      ReturnToReset(false);
      counts := counts.(requests := 0, responses := 0, dataFrames := 0);
      timing := timing.(shortest := 0, timed := false);
      TrySendCommand(RESET, Ascii("reset"), o.sendOk);
      if o.sendOk {
        next := Some(Initialize);
      }
    }

    method ResetCommunication(o: Outside)
      requires Valid()
      modifies this
      ensures Valid() && Snap() == Act(old(Snap()), ResetLink, [], o)
    {
      hide MirrorInv, ResetLinkNow;
      ActInv(Snap(), ResetLink, [], o);
      ResetRuntime(o);
    }

    method InitializeLinkNow(config: seq<byte>, o: Outside)
      requires Valid()
      modifies this
      ensures Valid() && Snap() == Act(old(Snap()), InitializeLink, config, o)
    {
      hide MirrorInv, PollInbox, M.BeginInitialize, ClearFlow, Fault;
      ActInv(Snap(), InitializeLink, config, o);
      var raised := PollReceivedFrames(o.answers);
      if raised {
        SetRuntimeFault();
        return;
      }
      if link.state.Error? {
        return;
      }
      ClearRuntimeFlow();
      BeginInitialize(config, o);
    }

    method SendKeepalive(o: Outside)
      requires Valid()
      modifies this
      ensures Valid() && Snap() == Act(old(Snap()), KeepaliveCommand, [], o)
    {
      hide MirrorInv, PollInbox, Fault;
      ActInv(Snap(), KeepaliveCommand, [], o);
      var raised := PollReceivedFrames(o.answers);
      if raised {
        SetRuntimeFault();
      }
    }

    method SendDataText(payload: seq<byte>, o: Outside)
      requires Valid()
      modifies this
      ensures Valid() && Snap() == Act(old(Snap()), Action.SendData(payload), [], o)
    {
      hide MirrorInv, PollInbox, M.TrySendCommand, Fault;
      ActInv(Snap(), Action.SendData(payload), [], o);
      var raised := PollReceivedFrames(o.answers);
      if raised {
        SetRuntimeFault();
        return;
      }
      if !link.state.Keepalive() {
        return;
      }
      if !flags.initializeCompleted || !flags.connectCompleted {
        flags := flags.(initializeCompleted := true, connectCompleted := true);
      }
      TrySendCommand(DATA, payload, o.sendOk);
    }

    method SendDownlink(payload: seq<byte>, o: Outside)
      requires Valid()
      modifies this
      ensures Valid() && Snap() == Act(old(Snap()), Downlink(payload), [], o)
    {
      hide MirrorInv, M.SendCommand;
      ActInv(Snap(), Downlink(payload), [], o);
      if link.state.Keepalive() {
        SendCommand(DATA, payload, o.sendOk);
      }
    }

    method TellBridge(text: string, o: Outside)
      modifies this`link, this`commands
      ensures Snap() == Told(old(Snap()), text, o)
    {
      hide M.SendCommand, Ascii;
      if o.portOpen {
        SendCommand(DATA, Ascii(text), o.sendOk);
      }
    }

    method ResetTotalErrors(o: Outside)
      requires Valid()
      modifies this
      ensures Valid() && Snap() == Act(old(Snap()), ResetErrors, [], o)
    {
      hide MirrorInv, Told;
      ActInv(Snap(), ResetErrors, [], o);
      TellBridge("telemetry_reset", o);
      timing := timing.(errors := 0);
    }

    method ResetTransportMaxDelay(o: Outside)
      requires Valid()
      modifies this
      ensures Valid() && Snap() == Act(old(Snap()), Action.ResetMaxDelay, [], o)
    {
      hide MirrorInv, Told;
      ActInv(Snap(), Action.ResetMaxDelay, [], o);
      TellBridge("telemetry_reset_max_delay", o);
      timing := timing.(longest := 0);
    }

    /** The last part of open_transport, once the port was opened or not. */
    method OpenTransport(success: bool, o: Outside)
      requires Valid()
      modifies this
      ensures Valid() && Snap() == Act(old(Snap()), if success then OpenSucceeds else OpenFails, [], o)
    {
      hide MirrorInv, ResetLinkNow, Fault;
      ActInv(Snap(), if success then OpenSucceeds else OpenFails, [], o);
      if !success {
        SetRuntimeFault();
        flags := flags.(bridgeReady := false);
        return;
      }
      BesideInv(Snap(), HostFrame(0, 0, 0, 0, "", ""), timing);
      flags := flags.(bridgeReady := true);
      ResetRuntime(o);
    }

    method ClosePort(o: Outside)
      requires Valid()
      modifies this
      ensures Valid() && Snap() == Act(old(Snap()), CloseTransport, [], o)
    {
      hide MirrorInv;
      ActInv(Snap(), CloseTransport, [], o);
      ClearRuntimeFlow();
      flags := flags.(bridgeReady := false, wifiReady := false, wifiConnected := false, tcpConnected := false);
      link := link.(state := Reset);
    }

    method ForceReleasePort(o: Outside)
      requires Valid()
      modifies this
      ensures Valid() && Snap() == Act(old(Snap()), ForceRelease, [], o)
    {
      hide MirrorInv, BackToReset;
      ActInv(Snap(), ForceRelease, [], o);
      ReturnToReset(false);
    }

    method ToggleWifiEnabled(o: Outside)
      requires Valid()
      modifies this
      ensures Valid() && Snap() == Act(old(Snap()), ToggleWifi, [], o)
    {
      hide MirrorInv, BackToReset, Told;
      ActInv(Snap(), ToggleWifi, [], o);
      flags := flags.(wifiEnabled := !flags.wifiEnabled);
      TellBridge(if flags.wifiEnabled then "wifi_enable" else "wifi_disable", o);
      ReturnToReset(o.portOpen);
    }
  }
}
