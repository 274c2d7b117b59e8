/** What the host's mirror shows after the steps that end a session or set the link up anew. */
module BridgeEndings {
  import opened Options
  import opened Bytes
  import opened Frames
  import opened Text
  import opened HostText
  import opened KeepaliveText
  import opened B = Bridge
  import opened BridgeRuns
  import opened BridgeWires
  import opened Simulation
  import opened BridgeUsb
  import opened BridgeTraffic
  import M = Mirror

  /** What the host shows after the frames the step writes, whatever it showed before. */
  function Left(d: Display, b: B.Bridge, r: B.Bridge): Display {
    Shown(View(d, |b.usb.frames|), r)
  }

  lemma LeftAtOnce(d: Display, b: B.Bridge)
    ensures Left(d, b, b) == d
  {
    assert Since(View(d, |b.usb.frames|), b.usb.frames) == [];
  }

  // ----- the texts -----

  lemma Reads(text: string)
    requires Sayable(text)
    ensures Normal(Ascii(text)) == text
  {
    hide AllSmall, Normal, Spells;
    AsciiSpells(text);
    NormalSmall(Ascii(text), text);
  }

  /** The host finds the reason in the notice that the stream is halted. */
  lemma ReasonRead(reason: string, session: u32)
    requires OneToken(reason) && Trim(reason)
    ensures StartsWith(HaltedText(reason, session), "realtime_data_halted")
    ensures ReadText(Tokens(HaltedText(reason, session)), "reason") == Some(reason)
  {
    hide Decimal, Tokens, OneToken, FieldValue, StartsWith;
    HaltedTokens(reason, session);
    var f := Field("reason", reason);
    assert FieldValue(f.Text(), "reason") == reason by {
      assert Trim(f.Text());
      FieldCut(f);
    }
    assert FieldValue("realtime_data_halted", "reason") == "" by { NoReason(); }
    assert ["realtime_data_halted", f.Text(), Field("sid", Decimal(session)).Text()][1..][0] == f.Text();
  }

  lemma NoReason()
    ensures FieldValue("realtime_data_halted", "reason") == ""
  {
    hide StartsWith;
    TrimmedStrip("realtime_data_halted");
    NotThisField("realtime_data_halted", "reason");
  }

  lemma HaltedTokens(reason: string, session: u32)
    requires OneToken(reason)
    ensures Tokens(HaltedText(reason, session))
            == ["realtime_data_halted", Field("reason", reason).Text(), Field("sid", Decimal(session)).Text()]
    ensures StartsWith(HaltedText(reason, session), "realtime_data_halted")
  {
    var ts := ["realtime_data_halted", Field("reason", reason).Text(), Field("sid", Decimal(session)).Text()];
    HaltedJoined(reason, session);
    assert OneToken(Field("sid", Decimal(session)).Text()) by {
      hide Decimal;
      NumberToken("sid", session);
    }
    hide Decimal;
    TokensOfJoin(ts);
  }

  lemma HaltedJoined(reason: string, session: u32)
    ensures var ts := ["realtime_data_halted", Field("reason", reason).Text(), Field("sid", Decimal(session)).Text()];
            HaltedText(reason, session) == JoinFields(ts)
    ensures StartsWith(HaltedText(reason, session), "realtime_data_halted")
  {
    hide Decimal;
    var ts := ["realtime_data_halted", Field("reason", reason).Text(), Field("sid", Decimal(session)).Text()];
    assert ts[1..] == [ts[1], ts[2]] && ts[1..][1..] == [ts[2]];
    hide Field.Text;
    JoinThree(ts[0], ts[1], ts[2]);
  }

  lemma JoinThree(a: string, b: string, c: string)
    ensures JoinFields([a, b, c]) == a + ";" + (b + ";" + c)
  {
    assert [a, b, c][1..] == [b, c] && [b, c][1..] == [c];
    assert JoinFields([b, c]) == b + ";" + c;
  }

  lemma HaltReasons()
    ensures OneToken("tcp_client_closed") && Trim("tcp_client_closed")
    ensures OneToken("not_in_keepalive_state") && Trim("not_in_keepalive_state")
  {
  }

  // ----- what is shown of each part of a step -----

  lemma NotifyShown(v: View, b: B.Bridge, kind: byte, text: string)
    requires v.skip <= |b.usb.frames|
    ensures var u := UsbFrame(kind, b.s.server, b.s.client, b.usb.sequence, UsbPayload.Text(text));
            Shown(v, Notify(b, kind, text)) == Moved(Shown(v, b), Arrived(u))
  {
    hide EmitUsb, Moved, Arrived, Shown;
    EmitShown(v, b, kind, b.usb.sequence, UsbPayload.Text(text));
    SameFrames(v, EmitUsb(b, kind, b.usb.sequence, UsbPayload.Text(text)), Notify(b, kind, text));
  }

  lemma SameFrames(v: View, b: B.Bridge, r: B.Bridge)
    requires r.usb.frames == b.usb.frames
    ensures Shown(v, r) == Shown(v, b)
  {
  }

  /** The end of a running stream moves the display to Connect if the client is gone, and otherwise not at all. */
  lemma HaltShown(v: View, b: B.Bridge, reason: string)
    requires v.skip <= |b.usb.frames| && (reason == "tcp_client_closed" || reason == "not_in_keepalive_state")
    ensures Shown(v, HaltRealtime(b, reason))
            == if b.rt.active && reason == "tcp_client_closed" then Still(Connect) else Shown(v, b)
  {
    if b.rt.active {
      hide Notify, Shown, HaltedText, AllSmall, Sayable;
      var text := HaltedText(reason, b.s.session);
      NotifyShown(v, b, ERROR, text);
      HaltReasons();
      Reasons();
      HaltedSayable(reason, b.s.session);
      Reads(text);
      ReasonRead(reason, b.s.session);
      HaltedMoves(Shown(v, b), UsbFrame(ERROR, b.s.server, b.s.client, b.usb.sequence, UsbPayload.Text(text)), reason);
      SameFrames(v, Notify(b, ERROR, text), HaltRealtime(b, reason));
    }
  }

  lemma HaltedMoves(d: Display, u: UsbFrame, reason: string)
    requires u.kind == ERROR && u.payload.Text? && Normal(Ascii(u.payload.text)) == u.payload.text
    requires StartsWith(u.payload.text, "realtime_data_halted")
    requires ReadText(Tokens(u.payload.text), "reason") == Some(reason)
    ensures Moved(d, Arrived(u)) == if reason == "tcp_client_closed" then Still(Connect) else d
  {
    hide Normal, Tokens, ReadText;
    assert u.payload.text[..20][0] == 'r';
    assert u.payload.text != "keepalive_retry_exhausted" by { assert "keepalive_retry_exhausted"[0] == 'k'; }
  }

  lemma CloseShown(v: View, b: B.Bridge)
    requires v.skip <= |b.usb.frames|
    ensures Shown(v, CloseClient(b)) == if b.rt.active then Still(Connect) else Shown(v, b)
  {
    hide HaltRealtime, Shown;
    var b1 := b.(s := Closed(b.s), tcp := b.tcp.(sequence := 0));
    HaltShown(v, b1, "tcp_client_closed");
    SameFrames(v, b, b1);
  }

  /** A change of state alone is not shown. */
  lemma EnterShown(v: View, b: B.Bridge, next: State)
    requires v.skip <= |b.usb.frames|
    ensures Shown(v, EnterState(b, next)) == Shown(v, b)
    ensures EnterState(b, next).rt.active ==> b.rt.active
  {
    hide HaltRealtime, Notify, Shown, TelemetryText;
    var b1 := LeaveKeepalive(b, next);
    HaltShown(v, b, "not_in_keepalive_state");
    assert Shown(v, b1) == Shown(v, b);
    var delay := if next.Keepalive() then b1.tele.lastDelay else -1;
    var shown := b1.(s := b1.s.(state := next), tele := b1.tele.(lastDelay := delay));
    SameFrames(v, b1, shown);
    TelemetryShown(v, shown, TelemetryText(shown.tele));
    SameFrames(v, ShowState(b1, next), EnterState(b, next));
    HaltQuiet(b, "not_in_keepalive_state");
  }

  lemma HaltQuiet(b: B.Bridge, reason: string)
    ensures HaltRealtime(b, reason).rt.active ==> b.rt.active
  {
  }

  // ----- the ends -----

  lemma AckMoves(d: Display, u: UsbFrame, text: string)
    requires u.kind == ACK && u.payload == UsbPayload.Text(text) && Sayable(text)
    ensures Moved(d, Arrived(u)) == MovedByText(d, text)
  {
    hide Normal, Sayable, CommandText, M.ProgressOf, Ascii;
    Reads(text);
  }

  lemma Acknowledgements(d: Display)
    ensures MovedByText(d, "reset_ack") == Still(Reset) && MovedByText(d, "initialize_ack") == Still(Initialize)
    ensures MovedByText(d, "disconnect_ack") == Still(Disconnect) && MovedByText(d, "tcp_connected") == Still(Connect)
    ensures MovedByText(d, "wifi_disabled") == d && MovedByText(d, "error_ack") == d
  {
    hide Still;
    assert !StartsWith("reset_ack", "client_connected") && !StartsWith("initialize_ack", "client_connected");
    assert !StartsWith("disconnect_ack", "client_connected") && !StartsWith("wifi_disabled", "client_connected");
    assert !StartsWith("error_ack", "client_connected");
  }

  lemma ReplyShown(v: View, b: B.Bridge, f: Frame, text: string)
    requires v.skip <= |b.usb.frames| && FieldsFit(f) && Sayable(text)
    ensures Shown(v, Reply(b, Usb, ACK, f, text, Sent)) == MovedByText(Shown(v, b), text)
  {
    hide EmitUsb, Moved, Arrived, Shown, MovedByText, Sayable;
    EmitShown(v, b, ACK, f.sequence, UsbPayload.Text(text));
    AckMoves(Shown(v, b), UsbFrame(ACK, b.s.server, b.s.client, f.sequence, UsbPayload.Text(text)), text);
  }

  /** The host's RESET puts the mirror in Reset. */
  lemma ResetLeaves(d: Display, b: B.Bridge, f: Frame)
    requires FieldsFit(f)
    ensures Left(d, b, HandleReset(b, Usb, f, Sent)) == Still(Reset)
  {
    hide EnterState, CloseClient, Reply, Shown, MovedByText, Sayable;
    var v := View(d, |b.usb.frames|);
    var b1 := EnterState(b, Reset);
    var b2 := b1.(
      s := b1.s.(server := 0, client := 0, retries := 0, lastTx := 0, pending := false, windowStarted := 0,
                 session := 0, pendingRequest := 0, lastCompleted := 0, nextRequest := 1,
                 peerVersion := 0, peerVersionValid := false),
      tcp := b1.tcp.(sequence := 0),
      rt := Realtime(0, false));
    HandshakeTexts();
    ReplyShown(v, b2, f, "reset_ack");
    Acknowledgements(Shown(v, b2));
    var r := Reply(b2, Usb, ACK, f, "reset_ack", Sent);
    assert !r.rt.active by { ReplyStreams(b2, f, "reset_ack"); }
    CloseShown(v, r);
  }

  lemma ReplyStreams(b: B.Bridge, f: Frame, text: string)
    requires FieldsFit(f)
    ensures Reply(b, Usb, ACK, f, text, Sent).rt == b.rt
  {
  }

  /** The host's DISCONNECT puts the mirror in Disconnect; the session, if there is one, is not ended by it. */
  lemma DisconnectLeaves(d: Display, b: B.Bridge, f: Frame)
    requires FieldsFit(f)
    ensures Left(d, b, HandleDisconnect(b, Usb, f, Sent)) == Still(Disconnect)
  {
    hide EnterState, Reply, Shown, MovedByText, Sayable;
    var v := View(d, |b.usb.frames|);
    var b1 := EnterState(b, Disconnect);
    HandshakeTexts();
    ReplyShown(v, b1, f, "disconnect_ack");
    Acknowledgements(Shown(v, b1));
  }

  /** The host's INITIALIZE puts the mirror in Initialize if the version is accepted, and else leaves it. */
  lemma InitializeLeaves(d: Display, b: B.Bridge, f: Frame)
    requires FieldsFit(f)
    ensures Left(d, b, HandleInitialize(b, Usb, f, Sent))
            == if DataVersion(f) == Some(INTERFACE_VERSION) then Still(Initialize) else d
  {
    hide EnterState, Reply, Shown, MovedByText, Sayable, DataVersion, VersionFault;
    var v := View(d, |b.usb.frames|);
    var b1 := EnterState(b, Initialize);
    EnterShown(v, b, Initialize);
    LeftAtOnce(d, b);
    var b2 := b1.(s := Idle(b1.s), rt := Realtime(0, false));
    SameFrames(v, b1, b2);
    if DataVersion(f) == Some(INTERFACE_VERSION) {
      var b3 := b2.(s := b2.s.(peerVersion := INTERFACE_VERSION, peerVersionValid := true));
      HandshakeTexts();
      ReplyShown(v, b3, f, "initialize_ack");
      Acknowledgements(Shown(v, b3));
    } else {
      FaultShown(v, b2, f);
    }
  }

  /** A version mismatch, critical as it is, does not move the mirror. */
  lemma FaultShown(v: View, b: B.Bridge, f: Frame)
    requires FieldsFit(f) && v.skip <= |b.usb.frames|
    ensures Shown(v, VersionFault(b, Usb, f, Sent)) == Shown(v, b)
  {
    hide EnterState, Shown, EmitUsb, Notify, Harmless;
    FaultHarmless();
    var b0 := RecordError(b);
    SameFrames(v, b, b0);
    EnterShown(v, b0, Error);
    var b1 := EnterState(b0, Error);
    CalmShown(v, b1, ERROR, f.sequence, UsbPayload.Text("data_interface_version_mismatch"));
    var b2 := EmitUsb(b1, ERROR, f.sequence, UsbPayload.Text("data_interface_version_mismatch"));
    NotifyCalm(v, b2, ERROR, "critical_error_data_interface_version_mismatch");
  }

  lemma NotifyCalm(v: View, b: B.Bridge, kind: byte, text: string)
    requires Calm(kind, UsbPayload.Text(text))
    ensures Shown(v, Notify(b, kind, text)) == Shown(v, b)
  {
    hide EmitUsb, Shown, Calm;
    CalmShown(v, b, kind, b.usb.sequence, UsbPayload.Text(text));
    SameFrames(v, EmitUsb(b, kind, b.usb.sequence, UsbPayload.Text(text)), Notify(b, kind, text));
  }

  lemma FaultHarmless()
    ensures Harmless("data_interface_version_mismatch")
    ensures Harmless("critical_error_data_interface_version_mismatch")
  {
    hide Harmless;
    HarmlessFront("data_interface_version_mismatch", 'd', 'a');
    HarmlessFront("critical_error_", 'c', 'r');
    FaultJoined();
    HarmlessMore("critical_error_", "data_interface_version_mismatch");
  }

  lemma HarmlessMore(s: string, t: string)
    requires Harmless(s)
    ensures Harmless(s + t)
  {
  }

  /** A client taken on puts the mirror in Connect. */
  lemma AcceptLeaves(d: Display, b: B.Bridge)
    ensures Left(d, b, Accept(b, Sent)) == Still(Connect)
  {
    hide CloseClient, EnterState, Notify, Shown, SendTcp, MovedByText, Sayable, Moved, Arrived;
    var v := View(d, |b.usb.frames|);
    var b1 := if b.s.attached then CloseClient(b) else b;
    var joined := b1.(s := b1.s.(attached := true, lastTx := 0),
                      tcp := b1.tcp.(wires := b1.tcp.wires + [Wire([], [])]));
    var b2 := EnterState(joined, Connect);
    var b3 := b2.(s := Attached(b2.s), tcp := b2.tcp.(sequence := 0));
    var b4 := SendTcp(b3, ACK, Ascii("tcp_connected"), Sent);
    HandshakeTexts();
    NotifyShown(v, b4, ACK, "tcp_connected");
    AckMoves(Shown(v, b4), UsbFrame(ACK, b4.s.server, b4.s.client, b4.usb.sequence, UsbPayload.Text("tcp_connected")),
             "tcp_connected");
    Acknowledgements(Shown(v, b4));
  }

  /**
   A client that is lost puts the mirror in Connect exactly if the stream of realtime packets was running;
   otherwise the host is told nothing that it shows.
   */
  lemma LossLeaves(d: Display, b: B.Bridge, parseFailed: bool)
    ensures Left(d, b, CloseClient(b)) == if b.rt.active then Still(Connect) else d
    ensures var b1 := RecordError(b);
            var b2 := if parseFailed then Notify(b1, ERROR, "tcp_frame_parse_failed") else b1;
            Left(d, b, CloseClient(b2)) == if b.rt.active then Still(Connect) else d
  {
    hide CloseClient, Notify, Shown, Moved, Arrived;
    var v := View(d, |b.usb.frames|);
    LeftAtOnce(d, b);
    CloseShown(v, b);
    var b1 := RecordError(b);
    SameFrames(v, b, b1);
    CloseShown(v, b1);
    NotifyShown(v, b1, ERROR, "tcp_frame_parse_failed");
    var u := UsbFrame(ERROR, b1.s.server, b1.s.client, b1.usb.sequence, UsbPayload.Text("tcp_frame_parse_failed"));
    ParseFailedMoves(d, u);
    CloseShown(v, Notify(b1, ERROR, "tcp_frame_parse_failed"));
  }

  lemma ParseFailedMoves(d: Display, u: UsbFrame)
    requires u.kind == ERROR && u.payload == UsbPayload.Text("tcp_frame_parse_failed")
    ensures Moved(d, Arrived(u)) == d
  {
    hide Normal, CommandText, Ascii, AllSmall, StartsWith;
    LossTexts();
    Reads("tcp_frame_parse_failed");
    OtherFront("tcp_frame_parse_failed", "keepalive_retry_exhausted", 0);
    OtherFront("tcp_frame_parse_failed", "realtime_data_halted", 0);
  }

  /**
   Giving up on a client puts the bridge in Initialize. The mirror follows it there only if no stream was
   running: otherwise the notice that the stream is halted is read behind, and the mirror shows Connect.
   */
  lemma TeardownLeaves(d: Display, b: B.Bridge)
    ensures Teardown(b).s.state.Initialize?
    ensures Left(d, b, Teardown(b)) == Still(if b.rt.active then Connect else Initialize)
  {
    hide CloseClient, Notify, Shown, EnterState, Moved, Arrived;
    var v := View(d, |b.usb.frames|);
    var b0 := RecordError(b);
    NotifyShown(v, b0, ERROR, "keepalive_retry_exhausted");
    var u := UsbFrame(ERROR, b0.s.server, b0.s.client, b0.usb.sequence, UsbPayload.Text("keepalive_retry_exhausted"));
    ExhaustedMoves(Shown(v, b0), u);
    var b1 := Notify(b0, ERROR, "keepalive_retry_exhausted");
    CloseShown(v, b1);
    EnterShown(v, CloseClient(b1), Initialize);
    SameFrames(v, EnterState(CloseClient(b1), Initialize), Teardown(b));
  }

  lemma ExhaustedMoves(d: Display, u: UsbFrame)
    requires u.kind == ERROR && u.payload == UsbPayload.Text("keepalive_retry_exhausted")
    ensures Moved(d, Arrived(u)) == Still(Initialize)
  {
    hide Normal, CommandText, Ascii, AllSmall;
    LossTexts();
    Reads("keepalive_retry_exhausted");
  }

  /** Switching Wi-Fi off puts the bridge in Reset; the mirror goes to Connect if a stream was running, and else stays. */
  lemma WifiOffLeaves(d: Display, b: B.Bridge, f: Frame)
    requires FieldsFit(f)
    ensures var r := EmitUsb(DisableWifi(b), ACK, f.sequence, UsbPayload.Text("wifi_disabled"));
            r.s.state.Reset? && Left(d, b, r) == if b.rt.active then Still(Connect) else d
  {
    hide CloseClient, Shown, EnterState, EmitUsb, MovedByText, Sayable;
    var v := View(d, |b.usb.frames|);
    LeftAtOnce(d, b);
    CloseShown(v, b);
    var b1 := CloseClient(b).(listening := false, wifiEnabled := false);
    SameFrames(v, CloseClient(b), b1);
    EnterShown(v, b1, Reset);
    WifiTexts();
    ReplyShown(v, DisableWifi(b), f, "wifi_disabled");
    Acknowledgements(Shown(v, DisableWifi(b)));
  }

  // ----- by steps -----

  lemma HostStep(b: B.Bridge, f: Frame, env: Env)
    requires Parsed(f) && env.fate.Sent?
    ensures f.kind == RESET ==> Step(b, UsbFrameIn(f), env) == HandleReset(b, Usb, f, Sent)
    ensures f.kind == INITIALIZE ==> Step(b, UsbFrameIn(f), env) == HandleInitialize(b, Usb, f, Sent)
    ensures f.kind == DISCONNECT ==> Step(b, UsbFrameIn(f), env) == HandleDisconnect(b, Usb, f, Sent)
    ensures f.kind == DATA && PayloadText(f.payload) == "wifi_disable" ==>
              Step(b, UsbFrameIn(f), env) == EmitUsb(DisableWifi(b), ACK, f.sequence, UsbPayload.Text("wifi_disabled"))
  {
    hide HandleReset, HandleInitialize, HandleConnect, HandleDisconnect, HandleKeepalive, HandleTcpData,
         Reply, EnterState, Accept, CloseClient, EngineTick, WatchdogTick, Notify, PayloadText, DisableWifi, EmitUsb,
         EnableWifi, TelemetryReply, SendTcp, DataVersion;
  }

  lemma WatchdogLeaves(d: Display, b: B.Bridge, env: Env)
    requires b.s.state.ClientReturn? && WatchdogTick(b, env).s.state.Initialize?
    ensures Left(d, b, WatchdogTick(b, env)) == Still(if b.rt.active then Connect else Initialize)
  {
    hide Teardown, SendKeepalive, EnterState, Shown, WindowExpired;
    var b1 := RecordError(b.(s := b.s.(retries := Inc32(b.s.retries))));
    TeardownLeaves(d, b1);
  }

  /** What the step makes of the host's requests to start anew or to end. */
  ghost predicate RequestsShown(d: Display, b: B.Bridge, f: Frame, r: B.Bridge)
    requires FieldsFit(f)
  {
    && (f.kind == RESET ==> Left(d, b, r) == Still(Reset))
    && (f.kind == INITIALIZE ==>
          Left(d, b, r) == if DataVersion(f) == Some(INTERFACE_VERSION) then Still(Initialize) else d)
    && (f.kind == DISCONNECT ==> Left(d, b, r) == Still(Disconnect))
    && (f.kind == DATA && PayloadText(f.payload) == "wifi_disable" ==>
          r.s.state.Reset? && Left(d, b, r) == if b.rt.active then Still(Connect) else d)
  }

  /**
   What the mirror shows, whatever it showed before, once it has read the frames of a step that starts the
   link anew or ends a session: the host's own requests are followed; a client taken on is Connect; and a
   client lost or given up is Connect if realtime packets were running, although the bridge is then where
   it was or in Initialize; without them giving up is followed and a loss is not shown.
   */
  lemma EndingsShown(d: Display, b: B.Bridge, e: Event, env: Env)
    requires GoodEvent(e) && env.fate.Sent?
    ensures var r := Step(b, e, env);
            && (e.UsbFrameIn? ==> RequestsShown(d, b, e.frame, r))
            && (b.wifiEnabled ==>
                  && (e.Accepts? && b.listening ==> Left(d, b, r) == Still(Connect))
                  && ((e.PeerCloses? || e.BadStream?) && b.s.attached ==>
                        Left(d, b, r) == if b.rt.active then Still(Connect) else d)
                  && (e.Watchdog? && b.s.state.ClientReturn? && r.s.state.Initialize? ==>
                        Left(d, b, r) == Still(if b.rt.active then Connect else Initialize)))
  {
    hide HandleFrame, HandleReset, HandleInitialize, HandleDisconnect, Accept, CloseClient, EngineTick, WatchdogTick, Left,
         Notify, PayloadText, DisableWifi, EmitUsb, DataVersion;
    match e
    case UsbFrameIn(f) =>
      HostStep(b, f, env);
      ResetLeaves(d, b, f);
      InitializeLeaves(d, b, f);
      DisconnectLeaves(d, b, f);
      WifiOffLeaves(d, b, f);
    case Accepts => AcceptLeaves(d, b);
    case PeerCloses => LossLeaves(d, b, false);
    case BadStream(parseFailed) => LossLeaves(d, b, parseFailed);
    case Watchdog =>
      if b.wifiEnabled && b.s.state.ClientReturn? && WatchdogTick(b, env).s.state.Initialize? {
        WatchdogLeaves(d, b, env);
      }
    case TcpFrame(_) =>
    case Engine =>
  }
}
