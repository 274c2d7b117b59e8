/** Commands on their way: the operator's to the bridge, and a client's through the bridge to the host and back. */
module MirrorOrders {
  import opened Options
  import opened Bytes
  import opened Frames
  import opened Text
  import opened HostText
  import opened KeepaliveText
  import opened B = Bridge
  import opened BridgeMoves
  import opened BridgeRuns
  import opened BridgeResponses
  import opened Simulation
  import opened BridgeTraffic
  import opened MirrorFlow
  import M = Mirror
  import UsbStream

  // ----- the operator's commands -----

  lemma ReadAsIs(text: string)
    requires AllSmall(text) && |text| <= TEXT_MAX
    ensures PayloadText(Ascii(text)) == text
  {
    hide AllSmall, PayloadText, Ascii;
    SmallText(text);
    PayloadTextOf(text);
  }

  lemma CommandFits(m: M.Mirror, text: string)
    requires M.MirrorInv(m) && |text| <= TEXT_MAX
    ensures Parsed(NextCommand(m, DATA, Ascii(text)))
  {
    hide Ascii;
  }

  lemma SwitchTexts()
    ensures AllSmall("wifi_disable") && AllSmall("wifi_enable")
    ensures AllSmall("telemetry_reset") && AllSmall("telemetry_reset_max_delay")
  {
  }

  lemma ToggleSends(m: M.Mirror, config: seq<byte>, o: M.Outside)
    requires o.portOpen && o.sendOk
    ensures var r := M.Act(m, M.ToggleWifi, config, o);
            && r.flags.wifiEnabled == !m.flags.wifiEnabled && r.link.state.Reset? && r.next.None?
            && r.commands
               == m.commands + [NextCommand(m, DATA, Ascii(if r.flags.wifiEnabled then "wifi_enable" else "wifi_disable"))]
  {
    hide Ascii;
  }

  lemma SwitchObeyed(b: B.Bridge, f: Frame, env: Env)
    requires Parsed(f) && f.kind == DATA
    ensures var s := Step(b, UsbFrameIn(f), env);
            && (PayloadText(f.payload) == "wifi_disable" ==>
                  !s.wifiEnabled && !s.listening && !s.s.attached && s.s.state.Reset?)
            && (PayloadText(f.payload) == "wifi_enable" ==>
                  && (s.wifiEnabled <==> b.wifiEnabled || !env.wifi.SoftApFailed?)
                  && (s.listening <==> b.listening || env.wifi.WifiOk?))
  {
    hide Step, PayloadText;
    UsbDataStep(b, f, env);
  }

  /**
   Switching Wi-Fi at the host sends one command, and when the bridge has taken it, the bridge is
   switched as the host shows: off always, on exactly if it was on or the access point comes up.
   */
  lemma ToggleReachesBridge(m: M.Mirror, config: seq<byte>, o: M.Outside, b: B.Bridge, env: Env)
    requires M.MirrorInv(m) && o.portOpen && o.sendOk
    ensures var r := M.Act(m, M.ToggleWifi, config, o);
            && r.flags.wifiEnabled == !m.flags.wifiEnabled && |r.commands| == |m.commands| + 1
            && var f := r.commands[|m.commands|];
            && f.kind == DATA && Parsed(f)
            && var s := Step(b, UsbFrameIn(f), env);
            && (s.wifiEnabled == r.flags.wifiEnabled <==>
                  !r.flags.wifiEnabled || b.wifiEnabled || !env.wifi.SoftApFailed?)
            && (!r.flags.wifiEnabled ==> !s.listening && !s.s.attached && s.s.state.Reset?)
  {
    hide M.Act, Step, Ascii, AllSmall, M.MirrorInv, PayloadText;
    var text := if m.flags.wifiEnabled then "wifi_disable" else "wifi_enable";
    SwitchTexts();
    ToggleSends(m, config, o);
    CommandFits(m, text);
    ReadAsIs(text);
    SwitchObeyed(b, NextCommand(m, DATA, Ascii(text)), env);
  }

  lemma TelemetryObeyed(b: B.Bridge, f: Frame, env: Env)
    requires Parsed(f) && f.kind == DATA
    ensures var s := Step(b, UsbFrameIn(f), env);
            && (PayloadText(f.payload) == "telemetry_reset" ==> s.tele.errors == 0 && s.tele.maxDelay == 0)
            && (PayloadText(f.payload) == "telemetry_reset_max_delay" ==> s.tele == b.tele.(maxDelay := 0))
  {
    hide Step, PayloadText, TelemetryText;
    UsbDataStep(b, f, env);
  }

  lemma TelemetrySends(m: M.Mirror, config: seq<byte>, o: M.Outside)
    requires o.portOpen && o.sendOk
    ensures var r := M.Act(m, M.ResetErrors, config, o);
            r.timing.errors == 0 && r.commands == m.commands + [NextCommand(m, DATA, Ascii("telemetry_reset"))]
    ensures var r := M.Act(m, M.Action.ResetMaxDelay, config, o);
            r.timing.longest == 0 && r.commands == m.commands + [NextCommand(m, DATA, Ascii("telemetry_reset_max_delay"))]
  {
    hide Ascii;
  }

  /** Resetting the errors or the longest delay at the host resets it at the bridge too. */
  lemma TelemetryReachesBridge(m: M.Mirror, a: M.Action, config: seq<byte>, o: M.Outside, b: B.Bridge, env: Env)
    requires M.MirrorInv(m) && o.portOpen && o.sendOk && (a.ResetErrors? || a.ResetMaxDelay?)
    ensures var r := M.Act(m, a, config, o);
            && |r.commands| == |m.commands| + 1
            && var f := r.commands[|m.commands|];
            && f.kind == DATA && Parsed(f)
            && var s := Step(b, UsbFrameIn(f), env);
            && (if a.ResetErrors? then r.timing.errors == 0 && s.tele.errors == 0 && s.tele.maxDelay == 0
                else r.timing.longest == 0 && s.tele == b.tele.(maxDelay := 0))
  {
    hide M.Act, Step, Ascii, AllSmall, M.MirrorInv, PayloadText;
    var text := if a.ResetErrors? then "telemetry_reset" else "telemetry_reset_max_delay";
    SwitchTexts();
    TelemetrySends(m, config, o);
    CommandFits(m, text);
    ReadAsIs(text);
    TelemetryObeyed(b, NextCommand(m, DATA, Ascii(text)), env);
  }

  // ----- the text of a client's order -----

  lemma {:induction false} LowerInTwo(s: string, t: string)
    ensures Lower(s + t) == Lower(s) + Lower(t)
  {
    if s == "" {
      assert s + t == t;
    } else {
      assert (s + t)[1..] == s[1..] + t;
      LowerInTwo(s[1..], t);
    }
  }

  /** Text in capital and small letters, as the host takes it for a command. */
  lemma CommandLowered(text: string)
    requires AsciiText(text) && Trim(text)
    ensures CommandText(Ascii(text)) == Lower(text)
  {
    assert AsciiBytes(Ascii(text));
    AsciiDecoded(Ascii(text), REPLACEMENT);
    assert Utf8(Ascii(text), REPLACEMENT) == text;
    TrimmedStrip(text);
    hide Strip, Utf8, Lower;
  }

  /** What follows the tag. */
  function Rest(key: string, n: nat): string {
    ";" + Field(key, Decimal(n)).Text()
  }

  lemma RestSmall(key: string, n: nat)
    requires AllSmall(key)
    ensures AllSmall(Rest(key, n)) && AsciiText(Rest(key, n))
  {
    hide Decimal, Field.Text;
    SmallNumber(key, n);
    SmallJoined(";", Field(key, Decimal(n)).Text());
    SmallIsAscii(Rest(key, n));
  }

  lemma SmallJoined(s: string, t: string)
    requires AllSmall(t) && s == ";"
    ensures AllSmall(s + t)
  {
  }

  lemma SmallIsAscii(s: string)
    requires AllSmall(s)
    ensures AsciiText(s)
  {
    forall k | 0 <= k < |s|
      ensures s[k] as int < 0x80
    {
      assert Small(s[k]);
    }
  }

  lemma RestAt(tag: string, key: string, n: nat)
    ensures Numbered(tag, key, n) == tag + Rest(key, n) && StartsWith(Numbered(tag, key, n), tag)
  {
    hide Decimal, Field.Text;
  }

  /** A text that ends in a digit and does not begin with a blank has nothing to strip. */
  lemma NumberedTrim(tag: string, key: string, n: nat)
    requires Trim(tag)
    ensures Trim(Numbered(tag, key, n))
  {
    hide Decimal;
    var digits, t := Decimal(n), Numbered(tag, key, n);
    assert t[|t| - 1] == digits[|digits| - 1] && IsDigit(digits[|digits| - 1]) && t[0] == tag[0];
  }

  lemma AsciiInTwo(s: string, t: string)
    requires AsciiText(s) && AsciiText(t)
    ensures AsciiText(s + t)
  {
  }

  lemma NumberedLowered(tag: string, key: string, n: nat)
    requires AsciiText(tag) && Trim(tag) && AllSmall(key)
    ensures CommandText(Ascii(Numbered(tag, key, n))) == Numbered(Lower(tag), key, n)
    ensures AsciiText(Numbered(tag, key, n))
  {
    hide AllSmall, AsciiText, Trim, Numbered, Rest, Lower, Ascii, CommandText;
    var rest := Rest(key, n);
    RestSmall(key, n);
    RestAt(tag, key, n);
    RestAt(Lower(tag), key, n);
    AsciiInTwo(tag, rest);
    NumberedTrim(tag, key, n);
    CommandLowered(Numbered(tag, key, n));
    LowerInTwo(tag, rest);
    LoweredWhole(rest);
  }

  lemma LoweredWhole(s: string)
    requires AllSmall(s)
    ensures Lower(s) == s
  {
    assert StartsWith(s, s);
    LoweredFront(s, s);
  }

  lemma StartTag(t: string)
    requires StartsWith(t, "startbrew")
    ensures M.OrderOf(t) == M.StartOf(t)
  {
    hide M.StartOf, M.SelectionOf;
    assert t[0] == t[..9][0] == 's';
    hide StartsWith;
    OtherFront(t, "lcdprotoinit", 0);
    OtherFront(t, "lcdprotoprofiledatasetget", 0);
    OtherFront(t, "lcdprotoprofilecatalogget", 0);
    OtherFront(t, "profileselection", 0);
  }

  lemma SelectionTag(t: string)
    requires StartsWith(t, "profileselection")
    ensures M.OrderOf(t) == M.SelectionOf(t)
  {
    hide M.StartOf, M.SelectionOf;
    assert t[0] == t[..16][0] == 'p';
    hide StartsWith;
    OtherFront(t, "lcdprotoinit", 0);
    OtherFront(t, "lcdprotoprofiledatasetget", 0);
    OtherFront(t, "lcdprotoprofilecatalogget", 0);
  }

  lemma StopTag(t: string)
    requires StartsWith(t, "stopbrew")
    ensures M.OrderOf(t) == M.StopBrew
  {
    hide M.StartOf, M.SelectionOf;
    assert t[0] == t[..8][0] == 's' && t[2] == t[..8][2] == 'o';
    assert "startbrew"[2] == 'a';
    hide StartsWith;
    OtherFront(t, "lcdprotoinit", 0);
    OtherFront(t, "lcdprotoprofiledatasetget", 0);
    OtherFront(t, "lcdprotoprofilecatalogget", 0);
    OtherFront(t, "profileselection", 0);
    OtherFront(t, "startbrew", 2);
  }

  /** A profile number as the host reads it from an order. */
  lemma OrderNumber(t: string, key: string, n: nat)
    requires key == "profile" || key == "id"
    requires FieldU32(t, "profile") == if key == "profile" then Found(n) else Missing
    requires FieldU32(t, "id") == if key == "id" then Found(n) else Missing
    requires FieldU32(t, "packet_interval_ms") == FieldU32(t, "int_ms") == FieldU32(t, "offline") == Missing
    ensures M.SelectionOf(t) == M.SelectProfile(Some(n))
    ensures key == "profile" ==> M.StartOf(t) == M.StartBrew(Some(n))
  {
    hide FieldU32;
  }

  lemma GoodTags()
    ensures forall t :: t in {"startbrew", "profileselection", "profile", "id"} ==> OneToken(t) && Trim(t) && NoEquals(t)
    ensures AllSmall("profile") && AllSmall("id")
  {
  }

  lemma OtherKeys()
    ensures NoEquals("packet_interval_ms") && NoEquals("int_ms") && NoEquals("offline")
  {
  }

  lemma NumberOfOrder(tag: string, key: string, n: nat)
    requires (tag == "startbrew" || tag == "profileselection") && (key == "profile" || key == "id")
    ensures var t := Numbered(tag, key, n);
            && M.SelectionOf(t) == M.SelectProfile(Some(n))
            && (key == "profile" ==> M.StartOf(t) == M.StartBrew(Some(n)))
  {
    hide Numbered, OneToken, Trim, NoEquals, FieldU32, M.SelectionOf, M.StartOf, AllSmall;
    GoodTags();
    OtherKeys();
    NumberedReads(tag, key, n, "profile");
    NumberedReads(tag, key, n, "id");
    NumberedReads(tag, key, n, "packet_interval_ms");
    NumberedReads(tag, key, n, "int_ms");
    NumberedReads(tag, key, n, "offline");
    OrderNumber(Numbered(tag, key, n), key, n);
  }

  lemma CapitalTags()
    ensures AsciiText("StartBrew") && Trim("StartBrew") && AsciiText("ProfileSelection") && Trim("ProfileSelection")
    ensures AsciiText("StopBrew") && Trim("StopBrew")
  {
  }

  lemma LoweredTwo(a: string, b: string)
    requires AllSmall(b) && |a| == 1 && 'A' <= a[0] <= 'Z'
    ensures Lower(a + b) == [((a[0] as int) + 32) as char] + b
  {
    hide AllSmall;
    LowerInTwo(a, b);
    LoweredWhole(b);
    assert a[1..] == "";
  }

  lemma TagParts()
    ensures AllSmall("tart") && AllSmall("rew") && AllSmall("top") && AllSmall("rofile") && AllSmall("election")
    ensures "StartBrew" == ("S" + "tart") + ("B" + "rew") && "StopBrew" == ("S" + "top") + ("B" + "rew")
    ensures "ProfileSelection" == ("P" + "rofile") + ("S" + "election")
  {
  }

  lemma LoweredTags()
    ensures Lower("StartBrew") == "startbrew" && Lower("ProfileSelection") == "profileselection"
    ensures Lower("StopBrew") == "stopbrew"
  {
    hide Lower, AllSmall;
    TagParts();
    LoweredTwo("S", "tart");
    LoweredTwo("B", "rew");
    LoweredTwo("S", "top");
    LoweredTwo("P", "rofile");
    LoweredTwo("S", "election");
    LowerInTwo("S" + "tart", "B" + "rew");
    LowerInTwo("S" + "top", "B" + "rew");
    LowerInTwo("P" + "rofile", "S" + "election");
  }

  /** The orders of the brew simulation as a client writes them, with a profile number. */
  lemma OrdersUnderstood(n: nat)
    ensures M.OrderOf(CommandText(Ascii(Numbered("StartBrew", "profile", n)))) == M.StartBrew(Some(n))
    ensures M.OrderOf(CommandText(Ascii(Numbered("ProfileSelection", "profile", n)))) == M.SelectProfile(Some(n))
    ensures M.OrderOf(CommandText(Ascii(Numbered("ProfileSelection", "id", n)))) == M.SelectProfile(Some(n))
    ensures M.OrderOf(CommandText(Ascii("StopBrew"))) == M.StopBrew
  {
    hide M.OrderOf, M.StartOf, M.SelectionOf, CommandText, Ascii, Lower, Numbered, StartsWith, AllSmall, AsciiText, Trim;
    LoweredTags();
    CapitalTags();
    GoodTags();
    NumberedLowered("StartBrew", "profile", n);
    NumberedLowered("ProfileSelection", "profile", n);
    NumberedLowered("ProfileSelection", "id", n);
    CommandLowered("StopBrew");
    NumberOfOrder("startbrew", "profile", n);
    NumberOfOrder("profileselection", "profile", n);
    NumberOfOrder("profileselection", "id", n);
    RestAt("startbrew", "profile", n);
    RestAt("profileselection", "profile", n);
    RestAt("profileselection", "id", n);
    StartTag(Numbered("startbrew", "profile", n));
    SelectionTag(Numbered("profileselection", "profile", n));
    SelectionTag(Numbered("profileselection", "id", n));
    StopTag("stopbrew") by { Whole("stopbrew"); }
  }

  lemma Whole(s: string)
    ensures StartsWith(s, s)
  {
  }

  // ----- an order on its way, and the echo back -----

  /** What the host echoes to an order. */
  function EchoText(order: M.Order): Option<string> {
    match order
    case StartBrew(_) => Some("StartBrew")
    case StopBrew => Some("StopBrew")
    case _ => None
  }

  /** Reading a client's order: it is obeyed once, and echoed in one DATA frame with the host's counters if it is to be. */
  lemma OrderObeyed(m: M.Mirror, f: M.HostFrame)
    requires f.kind == DATA && !M.Fails(f)
    requires M.OrderOf(f.command).StartBrew? || M.OrderOf(f.command).StopBrew? || M.OrderOf(f.command).SelectProfile?
    ensures var r, order := M.Take(m, f, [M.Answer([], true)]), M.OrderOf(f.command);
            && r.orders == m.orders + [order] && r.counts.dataFrames == m.counts.dataFrames + 1
            && r.commands == m.commands + (if EchoText(order).None? then []
                                           else [NextCommand(m, DATA, Ascii(EchoText(order).value))])
  {
    hide M.Learned, M.TelemetryFails, M.LogFails, M.OrderOf, Ascii, M.Obey;
    var m1 := M.Noted(m.(timing := M.Learned(m.timing, f.text)), f);
    Obeyed(m1.(counts := m1.counts.(dataFrames := m1.counts.dataFrames + 1)), M.OrderOf(f.command));
  }

  lemma OneAnswer(m: M.Mirror, payload: seq<byte>)
    ensures M.SendAll(m, [M.Answer(payload, true)]) == M.SendCommand(m, DATA, payload, true)
  {
    hide M.SendCommand;
    var answers := [M.Answer(payload, true)];
    var m1 := M.SendCommand(m, DATA, payload, true);
    assert answers[1..] == [] && M.SendAll(m1, []) == m1;
  }

  lemma Obeyed(m: M.Mirror, order: M.Order)
    requires order.StartBrew? || order.StopBrew? || order.SelectProfile?
    ensures var r := M.Obey(m, order, [M.Answer([], true)]);
            && r.orders == m.orders + [order] && r.counts == m.counts
            && r.commands == m.commands + (if EchoText(order).None? then []
                                           else [NextCommand(m, DATA, Ascii(EchoText(order).value))])
  {
    hide Ascii, M.SendAll;
    var m1 := m.(orders := m.orders + [order]);
    if EchoText(order).None? {
      NoAnswer(m1);
    } else {
      OneAnswer(m1, Ascii(EchoText(order).value));
    }
  }

  lemma NoAnswer(m: M.Mirror)
    ensures M.SendAll(m, []) == m
  {
  }

  lemma EchoTexts()
    ensures Ascii("StartBrew")[0] == 0x53 && Ascii("StopBrew")[0] == 0x53
    ensures PayloadText(Ascii("StartBrew")) == "StartBrew" && PayloadText(Ascii("StopBrew")) == "StopBrew"
    ensures CommandOf("StartBrew").NoCommand? && CommandOf("StopBrew").NoCommand?
  {
    PayloadTextOf("StartBrew");
    PayloadTextOf("StopBrew");
  }

  lemma EchoPasses(m: M.Mirror, order: M.Order)
    requires M.MirrorInv(m) && EchoText(order).Some?
    ensures var f := NextCommand(m, DATA, Ascii(EchoText(order).value));
            Parsed(f) && CommandOf(PayloadText(f.payload)).NoCommand? && |f.payload| > 0
  {
    hide CommandOf, PayloadText, M.MirrorInv, Ascii;
    EchoTexts();
    CommandFits(m, EchoText(order).value);
  }

  /**
   The whole way: a client's order to start or stop the brew, in a live session, reaches the host as it
   was sent, is obeyed once, and comes back to the client as one DATA frame with the echo.
   */
  lemma OrderAndEcho(b: B.Bridge, m: M.Mirror, f: Frame, env: Env, later: Env)
    requires Parsed(f) && f.kind == DATA && |f.payload| > 0 && !Uplink(f.payload)
    requires EchoText(M.OrderOf(CommandText(f.payload))).Some? && !M.Fails(Seen(f))
    requires Live(b.s) && b.s.session != 0 && b.wifiEnabled && Wired(b) && env.fate.Sent? && later.fate.Sent?
    requires M.MirrorInv(m)
    ensures var b1 := Step(b, TcpFrame(f), env);
            var u := ToHost(b, DATA, f, Forwarded(f.payload));
            var order, r := M.OrderOf(CommandText(f.payload)), M.Take(m, Arrived(u), [M.Answer([], true)]);
            var back := NextCommand(m, DATA, Ascii(EchoText(order).value));
            && Writes(b, b1, [u]) && r.orders == m.orders + [order] && r.commands == m.commands + [back]
            && Parsed(back) && Delivers(b1, Step(b1, UsbFrameIn(back), later), [ToClient(b1, DATA, back.payload)])
  {
    hide Step, M.OrderOf, CommandText, CommandOf, PayloadText, M.Take, M.Fails, Ascii, Normal, M.MirrorInv, Wired, Live;
    var b1 := Step(b, TcpFrame(f), env);
    var u := ToHost(b, DATA, f, Forwarded(f.payload));
    var order := M.OrderOf(CommandText(f.payload));
    ClientDataReachesHost(b, f, env);
    StepWired(b, TcpFrame(f), env);
    SeenAlike(b, f);
    assert order.StartBrew? || order.StopBrew?;
    OrderObeyed(m, Arrived(u));
    EchoPasses(m, order);
    HostDataReachesClient(b1, NextCommand(m, DATA, Ascii(EchoText(order).value)), later);
  }

  /** The counters of the frame that carries the payload to the host do not matter. */
  lemma SeenAlike(b: B.Bridge, f: Frame)
    requires Parsed(f) && f.kind == DATA && !Uplink(f.payload) && !M.Fails(Seen(f))
    ensures var h := Arrived(ToHost(b, DATA, f, Forwarded(f.payload)));
            h.kind == DATA && h.command == CommandText(f.payload) && !M.Fails(h)
  {
    hide Normal, CommandText, M.TelemetryFails, M.OrderOf;
  }

  lemma Readable(f: Frame, text: string)
    requires f.kind == DATA && f.payload == Ascii(text) && AsciiText(text) && !M.OrderOf(CommandText(f.payload)).Malformed?
    requires !Uplink(f.payload)
    ensures !M.Fails(Seen(f))
  {
    hide M.OrderOf, CommandText, FieldU32;
    assert AsciiText(Normal(f.payload)) by {
      hide Strip, Lower, Utf8;
      assert AsciiBytes(Ascii(text));
      AsciiDecoded(Ascii(text), "");
      AsciiStripped(Utf8(Ascii(text), ""));
      AsciiLowered(Strip(Utf8(Ascii(text), "")));
    }
    hide Normal;
    AsciiNeverRaises(Normal(f.payload), "td_max_ms");
    AsciiNeverRaises(Normal(f.payload), "terr");
  }

  /** For instance a client's StartBrew with any profile number: the brew is started with it, and the client told so. */
  lemma StartBrewAndEcho(b: B.Bridge, m: M.Mirror, f: Frame, n: nat, env: Env, later: Env)
    requires Parsed(f) && f.kind == DATA && f.payload == Ascii(Numbered("StartBrew", "profile", n))
    requires Live(b.s) && b.s.session != 0 && b.wifiEnabled && Wired(b) && env.fate.Sent? && later.fate.Sent?
    requires M.MirrorInv(m)
    ensures var b1 := Step(b, TcpFrame(f), env);
            var u := ToHost(b, DATA, f, Forwarded(f.payload));
            var r := M.Take(m, Arrived(u), [M.Answer([], true)]);
            var back := NextCommand(m, DATA, Ascii("StartBrew"));
            && Writes(b, b1, [u]) && r.orders == m.orders + [M.StartBrew(Some(n))] && r.commands == m.commands + [back]
            && Parsed(back) && Delivers(b1, Step(b1, UsbFrameIn(back), later), [ToClient(b1, DATA, Ascii("StartBrew"))])
  {
    hide Step, M.OrderOf, CommandText, M.Take, M.Fails, M.MirrorInv, Wired, Live, Numbered, Ascii, AllSmall;
    OrdersUnderstood(n);
    StartFront(n);
    CapitalTags();
    GoodTags();
    NumberedLowered("StartBrew", "profile", n);
    Readable(f, Numbered("StartBrew", "profile", n));
    OrderAndEcho(b, m, f, env, later);
  }

  lemma StartFront(n: nat)
    ensures var p := Ascii(Numbered("StartBrew", "profile", n)); |p| > 0 && !Uplink(p)
  {
    hide Decimal;
    assert Numbered("StartBrew", "profile", n)[0] == 'S';
  }

  // ----- what the host sends to the client -----

  /**
   In a keepalive state what the host has for the client reaches it in a live session: one DATA frame with
   the same bytes, be it a packet of the downlink stream or text the bridge does not take for itself.
   */
  lemma DownlinkReachesClient(m: M.Mirror, payload: seq<byte>, config: seq<byte>, o: M.Outside, b: B.Bridge, env: Env)
    requires M.MirrorInv(m) && m.link.state.Keepalive() && o.sendOk
    requires 0 < |payload| <= UsbStream.MAX_PAYLOAD && CommandOf(PayloadText(payload)).NoCommand?
    requires Live(b.s) && b.s.session != 0 && Wired(b) && env.fate.Sent?
    ensures var r := M.Act(m, M.Action.Downlink(payload), config, o);
            && |r.commands| == |m.commands| + 1
            && var f := r.commands[|m.commands|];
            && Parsed(f) && f.kind == DATA
            && Delivers(b, Step(b, UsbFrameIn(f), env), [ToClient(b, DATA, payload)])
  {
    hide Step, CommandOf, PayloadText, Live, Wired, Delivers;
    DownlinkSends(m, payload, config, o);
    HostDataReachesClient(b, NextCommand(m, DATA, payload), env);
  }

  lemma DownlinkSends(m: M.Mirror, payload: seq<byte>, config: seq<byte>, o: M.Outside)
    requires M.MirrorInv(m) && m.link.state.Keepalive() && o.sendOk && |payload| <= UsbStream.MAX_PAYLOAD
    ensures M.Act(m, M.Action.Downlink(payload), config, o).commands == m.commands + [NextCommand(m, DATA, payload)]
    ensures Parsed(NextCommand(m, DATA, payload))
  {
  }

  // ----- what is counted -----

  predicate Requesting(f: M.HostFrame) {
    f.kind == KEEPALIVE && StartsWith(f.text, M.REQUEST_TAG) && M.RequestFits(f)
  }

  predicate Responding(f: M.HostFrame) {
    f.kind == KEEPALIVE && !StartsWith(f.text, M.REQUEST_TAG) && StartsWith(f.text, M.RESPONSE_TAG) && M.RequestFits(f)
  }

  function HowMany(fs: seq<M.HostFrame>, p: M.HostFrame -> bool): (n: nat)
    ensures n <= |fs|
  {
    if fs == [] then 0 else (if p(fs[0]) then 1 else 0) + HowMany(fs[1..], p)
  }

  predicate IsData(f: M.HostFrame) {
    f.kind == DATA
  }

  function One(counted: bool): (n: nat)
    ensures n <= 1
  {
    if counted then 1 else 0
  }

  lemma SendAllCounts(m: M.Mirror, answers: seq<M.Answer>)
    ensures M.SendAll(m, answers).counts == m.counts && M.SendAll(m, answers).orders == m.orders
    decreases |answers|
  {
    if answers != [] {
      SendAllCounts(M.SendCommand(m, DATA, answers[0].payload, answers[0].ok), answers[1..]);
    }
  }

  lemma ReceiveCounts(m: M.Mirror, f: M.HostFrame, given: seq<M.Answer>)
    ensures var r := M.Receive(m, f, given).counts;
            && r.dataFrames == m.counts.dataFrames + One(IsData(f))
            && r.requests == m.counts.requests + One(Requesting(f))
            && r.responses == m.counts.responses + One(Responding(f))
  {
    hide M.ProgressOf, StartsWith, M.OrderOf, M.Obey, ReadText, Tokens;
    var m1 := M.Noted(m, f);
    var m2 := m1.(counts := m1.counts.(dataFrames := m1.counts.dataFrames + 1));
    ObeyCounts(m2, M.OrderOf(f.command), given);
  }

  lemma ObeyCounts(m: M.Mirror, order: M.Order, given: seq<M.Answer>)
    ensures M.Obey(m, order, given).counts == m.counts
  {
    hide M.SendAll, M.AnswersTo;
    SendAllCounts(m.(orders := m.orders + [order]), M.AnswersTo(order, given));
  }

  /** A poll that reads all its frames counts each DATA frame, each fitting request and each fitting response once. */
  lemma {:induction false} PollCounts(m: M.Mirror, fs: seq<M.HostFrame>, given: seq<seq<M.Answer>>)
    requires AllRead(fs)
    ensures var r := M.Poll(m, fs, given).mirror.counts;
            && r.dataFrames == m.counts.dataFrames + HowMany(fs, IsData)
            && r.requests == m.counts.requests + HowMany(fs, Requesting)
            && r.responses == m.counts.responses + HowMany(fs, Responding)
    decreases |fs|
  {
    hide M.Fails, M.Take, IsData, Requesting, Responding;
    if fs != [] {
      TakeCounts(m, fs[0], M.AnswersFrom(given, 0));
      PollCounts(M.Take(m, fs[0], M.AnswersFrom(given, 0)), fs[1..], if given == [] then [] else given[1..]);
    }
  }

  lemma TakeCounts(m: M.Mirror, f: M.HostFrame, given: seq<M.Answer>)
    requires !M.Fails(f)
    ensures var r := M.Take(m, f, given).counts;
            && r.dataFrames == m.counts.dataFrames + One(IsData(f))
            && r.requests == m.counts.requests + One(Requesting(f))
            && r.responses == m.counts.responses + One(Responding(f))
  {
    hide M.Learned, M.TelemetryFails, M.LogFails, M.Receive, M.OrderOf, IsData, Requesting, Responding;
    ReceiveCounts(m.(timing := M.Learned(m.timing, f.text)), f, given);
  }

  // ----- the peer's numbering -----

  /** The frames are numbered on from the last one seen, if one was. */
  predicate NumberedOn(last: Option<int>, fs: seq<M.HostFrame>)
    decreases |fs|
  {
    fs != [] ==>
      (last.None? || fs[0].sequence == (last.value + 1) % 0x1_0000) && NumberedOn(Some(fs[0].sequence), fs[1..])
  }

  lemma ReceiveNumber(m: M.Mirror, f: M.HostFrame, given: seq<M.Answer>)
    ensures var r := M.Receive(m, f, given);
            && (r.lastPeer == Some(f.sequence) || r.lastPeer.None?)
            && (m.lastPeer.None? || f.sequence == (m.lastPeer.value + 1) % 0x1_0000 ==>
                  r.counts.sequenceErrors == m.counts.sequenceErrors)
            && (m.link.state.Keepalive() && m.lastPeer.Some? && f.sequence != (m.lastPeer.value + 1) % 0x1_0000 ==>
                  r.counts.sequenceErrors == m.counts.sequenceErrors + 1)
  {
    hide M.ProgressOf, StartsWith, M.OrderOf, M.Obey, ReadText, Tokens;
    var m1 := M.Noted(m, f);
    var m2 := m1.(counts := m1.counts.(dataFrames := m1.counts.dataFrames + 1));
    ObeyCounts(m2, M.OrderOf(f.command), given);
    ObeyNumber(m2, M.OrderOf(f.command), given);
  }

  lemma {:induction false} SendAllNumber(m: M.Mirror, answers: seq<M.Answer>)
    ensures M.SendAll(m, answers).lastPeer == m.lastPeer
    decreases |answers|
  {
    if answers != [] {
      SendAllNumber(M.SendCommand(m, DATA, answers[0].payload, answers[0].ok), answers[1..]);
    }
  }

  lemma ObeyNumber(m: M.Mirror, order: M.Order, given: seq<M.Answer>)
    ensures M.Obey(m, order, given).lastPeer == m.lastPeer
  {
    hide M.SendAll, M.AnswersTo;
    SendAllNumber(m.(orders := m.orders + [order]), M.AnswersTo(order, given));
  }

  lemma TakeNumber(m: M.Mirror, f: M.HostFrame, given: seq<M.Answer>)
    requires !M.Fails(f)
    ensures var r := M.Take(m, f, given);
            && (r.lastPeer == Some(f.sequence) || r.lastPeer.None?)
            && (m.lastPeer.None? || f.sequence == (m.lastPeer.value + 1) % 0x1_0000 ==>
                  r.counts.sequenceErrors == m.counts.sequenceErrors)
            && (m.link.state.Keepalive() && m.lastPeer.Some? && f.sequence != (m.lastPeer.value + 1) % 0x1_0000 ==>
                  r.counts.sequenceErrors == m.counts.sequenceErrors + 1)
  {
    hide M.Learned, M.TelemetryFails, M.LogFails, M.Receive, M.OrderOf;
    ReceiveNumber(m.(timing := M.Learned(m.timing, f.text)), f, given);
  }

  /** Frames numbered on from the last are read without a sequence error, however they move the mirror. */
  lemma {:induction false} NumberedReadClean(m: M.Mirror, fs: seq<M.HostFrame>, given: seq<seq<M.Answer>>)
    requires AllRead(fs) && (m.lastPeer.None? || NumberedOn(m.lastPeer, fs)) && NumberedOn(None, fs)
    ensures M.Poll(m, fs, given).mirror.counts.sequenceErrors == m.counts.sequenceErrors
    decreases |fs|
  {
    hide M.Fails, M.Take;
    if fs != [] {
      TakeNumber(m, fs[0], M.AnswersFrom(given, 0));
      var more := fs[1..];
      assert more != [] ==> NumberedOn(None, more);
      NumberedReadClean(M.Take(m, fs[0], M.AnswersFrom(given, 0)), more, if given == [] then [] else given[1..]);
    }
  }
}
