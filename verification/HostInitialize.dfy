/** The host's own INITIALIZE request against the version check of the bridge. */
module HostInitialize {
  import opened Options
  import opened Frames
  import opened KeepaliveText
  import opened Bridge
  import Text
  import Metadata

  /** Text as its UTF-8 bytes, one character each. */
  type Encoded = s: string | ByteChars(s)

  predicate ByteChars(s: string) {
    forall i :: 0 <= i < |s| ==> s[i] as int < 0x100
  }

  datatype Config = Config(
    ssid: Encoded,
    password: Encoded,
    serverIp: Encoded,
    serverPort: nat,
    wifiTimeoutMs: nat,
    tcpTimeoutMs: nat,
    keepaliveMs: nat)

  function ConfigFields(c: Config): seq<Field> {
    [Field("ssid", c.ssid),
     Field("password", c.password),
     Field("server_ip", c.serverIp),
     Field("server_port", Text.Decimal(c.serverPort)),
     Field("wifi_timeout_ms", Text.Decimal(c.wifiTimeoutMs)),
     Field("tcp_timeout_ms", Text.Decimal(c.tcpTimeoutMs)),
     Field("keepalive_ms", Text.Decimal(c.keepaliveMs))]
  }

  /** _build_initialize_payload */
  function InitializePayload(c: Config): string {
    Text.JoinFields(Texts(ConfigFields(c)))
  }

  /** Each value stays in its field. */
  predicate InFields(c: Config) {
    Text.OneToken(c.ssid) && Text.OneToken(c.password) && Text.OneToken(c.serverIp)
  }

  ghost predicate Prefixes(us: seq<string>, ts: seq<string>) {
    |us| <= |ts| && forall k :: 0 <= k < |us| ==> us[k] <= ts[k]
  }

  /** Cut short anywhere, the text still consists of the same fields, the last one cut short. */
  lemma {:induction false} CutTokens(u: string, ts: seq<string>)
    requires |ts| > 0 && (forall k :: 0 <= k < |ts| ==> Text.OneToken(ts[k])) && u <= Text.JoinFields(ts)
    ensures Prefixes(Text.Tokens(u), ts)
    decreases |ts|
  {
    var t := ts[0];
    assert Text.OneToken(t);
    if |u| <= |t| {
      assert u <= t;
      assert Text.OneToken(u);
      Text.OneTokenAlone(u);
    } else {
      assert |ts| > 1;
      var more := Text.JoinFields(ts[1..]);
      assert Text.JoinFields(ts) == t + ";" + more;
      var v := u[|t| + 1..];
      assert u == t + ";" + v && v <= more;
      Text.TokenThenMore(t, v);
      hide Text.Tokens, Text.OneToken;
      CutTokens(v, ts[1..]);
    }
  }

  lemma CutHasNoKey(u: string, f: Field, key: string)
    requires u <= f.Text() && NoEquals(f.key) && NoEquals(key) && f.key != key
    ensures !Text.StartsWith(u, key + "=")
  {
    OtherField(f, key);
    hide Field.Text, NoEquals;
    var p := key + "=";
    if |p| <= |u| {
      assert u[..|p|] == f.Text()[..|p|];
    }
  }

  lemma {:induction false} NoSuchKey(us: seq<string>, fields: seq<Field>, key: string)
    requires NoEquals(key) && Prefixes(us, Texts(fields))
    requires forall k :: 0 <= k < |fields| ==> NoEquals(fields[k].key) && fields[k].key != key
    ensures Metadata.FirstToken(us, key) == None
    decreases |us|
  {
    hide Metadata.WholeNumber, NoEquals, Field.Text, Text.StartsWith;
    if us != [] {
      assert us[0] <= fields[0].Text();
      CutHasNoKey(us[0], fields[0], key);
      assert Texts(fields)[1..] == Texts(fields[1..]);
      NoSuchKey(us[1..], fields[1..], key);
    }
  }

  lemma OtherKeys()
    ensures NoEquals("ssid") && NoEquals("password") && NoEquals("server_ip") && NoEquals("server_port")
    ensures NoEquals("wifi_timeout_ms") && NoEquals("tcp_timeout_ms") && NoEquals("keepalive_ms")
  {
  }

  lemma ConfigKeys(c: Config)
    ensures forall k :: 0 <= k < 7 ==> NoEquals(ConfigFields(c)[k].key) && ConfigFields(c)[k].key != "data_ver"
  {
    hide Text.Decimal, NoEquals;
    OtherKeys();
    forall k | 0 <= k < 7
      ensures ConfigFields(c)[k].key != "data_ver"
    {
      assert ConfigFields(c)[k].key[0] != "data_ver"[0];
    }
  }

  lemma NumberField(key: string, n: nat)
    requires Text.OneToken(key)
    ensures Text.OneToken(Field(key, Text.Decimal(n)).Text())
  {
    hide Text.Decimal;
    NumberFieldGood("n", n);
  }

  lemma ConfigTexts(c: Config)
    requires InFields(c)
    ensures forall k :: 0 <= k < 7 ==> Text.OneToken(ConfigFields(c)[k].Text())
  {
    hide Text.Decimal, InitializePayload;
    NumberField("server_port", c.serverPort);
    NumberField("wifi_timeout_ms", c.wifiTimeoutMs);
    NumberField("tcp_timeout_ms", c.tcpTimeoutMs);
    NumberField("keepalive_ms", c.keepaliveMs);
  }

  lemma ByteField(key: string, value: string)
    requires ByteChars(key) && ByteChars(value)
    ensures ByteChars(Field(key, value).Text())
  {
  }

  lemma ByteKeys()
    ensures ByteChars("ssid") && ByteChars("password") && ByteChars("server_ip") && ByteChars("server_port")
    ensures ByteChars("wifi_timeout_ms") && ByteChars("tcp_timeout_ms") && ByteChars("keepalive_ms")
  {
  }

  lemma PayloadBytes(c: Config)
    ensures ByteChars(InitializePayload(c))
  {
    hide Text.Decimal, ByteChars, Field.Text;
    ByteKeys();
    EncodedDecimal(c.serverPort);
    EncodedDecimal(c.wifiTimeoutMs);
    EncodedDecimal(c.tcpTimeoutMs);
    EncodedDecimal(c.keepaliveMs);
    var fields := ConfigFields(c);
    forall k | 0 <= k < 7
      ensures ByteChars(Texts(fields)[k])
    {
      ByteField(fields[k].key, fields[k].value);
    }
    EncodedJoin(Texts(fields));
  }

  lemma EncodedDecimal(n: nat)
    ensures ByteChars(Text.Decimal(n))
  {
    hide Text.Decimal;
    assert Text.AllDigits(Text.Decimal(n));
  }

  lemma {:induction false} EncodedJoin(ts: seq<string>)
    requires |ts| > 0 && forall k :: 0 <= k < |ts| ==> ByteChars(ts[k])
    ensures ByteChars(Text.JoinFields(ts))
  {
    if |ts| > 1 {
      EncodedJoin(ts[1..]);
    }
  }

  /** What the bridge looks at is the text, or its beginning. */
  lemma PayloadTextCut(text: string)
    requires ByteChars(text)
    ensures PayloadText(Ascii(text)) <= text
  {
    var n := if |text| < TEXT_MAX then |text| else TEXT_MAX;
    var s: string := seq(n, i requires 0 <= i < n => Ascii(text)[i] as char);
    assert s == text[..n] by {
      forall k | 0 <= k < n
        ensures s[k] == text[k]
      {
        assert Ascii(text)[k] == text[k] as int;
      }
    }
  }

  /** A piece that begins with `data_ver=`, and what it goes on with. */
  predicate VersionPiece(piece: string) {
    Text.StartsWith(piece, "data_ver=")
  }

  /** Such a piece that stands for the version the bridge speaks. */
  predicate RightVersion(piece: string) {
    VersionPiece(piece) && Metadata.WholeNumber(piece[9..]) == Some(INTERFACE_VERSION)
  }

  /** The first such piece does. */
  ghost predicate StatesVersionOne(pieces: seq<string>) {
    exists k ::
      && 0 <= k < |pieces| && RightVersion(pieces[k])
      && forall i :: 0 <= i < k ==> !VersionPiece(pieces[i])
  }

  lemma FirstTokenIs(pieces: seq<string>)
    requires pieces != []
    ensures VersionPiece(pieces[0]) ==>
              (Metadata.FirstToken(pieces, "data_ver") == Some(INTERFACE_VERSION) <==> RightVersion(pieces[0]))
    ensures !VersionPiece(pieces[0]) ==>
              Metadata.FirstToken(pieces, "data_ver") == Metadata.FirstToken(pieces[1..], "data_ver")
  {
    hide Metadata.WholeNumber, Text.StartsWith;
    assert "data_ver" + "=" == "data_ver=";
  }

  lemma {:induction false} FirstPieceStates(pieces: seq<string>)
    ensures Metadata.FirstToken(pieces, "data_ver") == Some(INTERFACE_VERSION) <==> StatesVersionOne(pieces)
    decreases |pieces|
  {
    if pieces != [] {
      assert RightVersion(pieces[0]) ==> VersionPiece(pieces[0]);
      hide VersionPiece, RightVersion;
      var more := pieces[1..];
      FirstTokenIs(pieces);
      FirstPieceStates(more);
      assert forall i :: 1 <= i < |pieces| ==> pieces[i] == more[i - 1];
      if !VersionPiece(pieces[0]) && StatesVersionOne(more) {
        var k :| && 0 <= k < |more| && RightVersion(more[k])
                 && forall i :: 0 <= i < k ==> !VersionPiece(more[i]);
        assert RightVersion(pieces[k + 1]);
      }
    }
  }

  /**
   What the bridge makes of the host's INITIALIZE request, for every configuration and in every
   state: it goes to Error unless, among the pieces between semicolons of the text it looks at (the
   first 256 bytes), the first one that begins with `data_ver=` stands for its version.
   */
  lemma HostInitializeExactly(b: Bridge, c: Config, host: u32, device: u32, sequence: u16, fate: Fate)
    ensures var f := Frame(INITIALIZE, host, device, sequence, Ascii(InitializePayload(c)));
            && HandleInitialize(b, Usb, f, fate).s.state
               == (if StatesVersionOne(Text.Tokens(PayloadText(f.payload))) then Initialize else Error)
            && PayloadText(f.payload) <= InitializePayload(c)
  {
    var f := Frame(INITIALIZE, host, device, sequence, Ascii(InitializePayload(c)));
    hide HandleInitialize, InitializePayload, Metadata.BridgeParse, PayloadText, Text.Tokens, Ascii, StatesVersionOne;
    PayloadBytes(c);
    PayloadTextCut(InitializePayload(c));
    VersionKey();
    Metadata.BridgeParseByTokens(PayloadText(f.payload), "data_ver");
    FirstPieceStates(Text.Tokens(PayloadText(f.payload)));
  }

  /** So a configuration none of whose texts holds a semicolon is refused, however long it is. */
  lemma HostInitializeRefused(b: Bridge, c: Config, host: u32, device: u32, sequence: u16, fate: Fate)
    requires InFields(c)
    ensures var f := Frame(INITIALIZE, host, device, sequence, Ascii(InitializePayload(c)));
            HandleInitialize(b, Usb, f, fate).s.state.Error?
  {
    hide HandleInitialize, InitializePayload, Metadata.BridgeParse, PayloadText;
    InitializeText(c);
  }

  lemma InitializeText(c: Config)
    requires InFields(c)
    ensures Metadata.BridgeParse(PayloadText(Ascii(InitializePayload(c))), "data_ver") == None
  {
    hide Metadata.BridgeParse, Text.Tokens, Text.Decimal, Metadata.FirstToken, PayloadText, Ascii;
    var ts := Texts(ConfigFields(c));
    ConfigTexts(c);
    ConfigKeys(c);
    assert forall k :: 0 <= k < |ts| ==> ts[k] == ConfigFields(c)[k].Text();
    PayloadBytes(c);
    PayloadTextCut(InitializePayload(c));
    var u := PayloadText(Ascii(InitializePayload(c)));
    CutTokens(u, ts);
    VersionKey();
    NoSuchKey(Text.Tokens(u), ConfigFields(c), "data_ver");
    Metadata.BridgeParseByTokens(u, "data_ver");
  }

  lemma VersionKey()
    ensures NoEquals("data_ver") && Metadata.GoodKey("data_ver")
  {
  }

  // ----- a configuration that is accepted -----

  /** A network name that goes on with a field of its own: "a;data_ver=1". */
  function TwoFieldName(): string {
    "a;" + Field("data_ver", Text.Decimal(INTERFACE_VERSION)).Text()
  }

  /** The first characters of a text reach the bridge as they are. */
  lemma PayloadTextFront(text: string, n: nat)
    requires ByteChars(text) && n <= |text| && n <= TEXT_MAX && forall k :: 0 <= k < n ==> text[k] != '\0'
    ensures n <= |PayloadText(Ascii(text))| && PayloadText(Ascii(text))[..n] == text[..n]
  {
    PayloadTextCut(text);
    var m := if |text| < TEXT_MAX then |text| else TEXT_MAX;
    var s: string := seq(m, i requires 0 <= i < m => Ascii(text)[i] as char);
    forall k | 0 <= k < n
      ensures s[k] != '\0'
    {
      assert Ascii(text)[k] == text[k] as int;
    }
    assert PayloadText(Ascii(text)) == s[..Text.Span(s, c => c != '\0')];
  }

  function VersionText(): string {
    Field("data_ver", Text.Decimal(INTERFACE_VERSION)).Text()
  }

  /** A text that begins with two whole fields. */
  lemma TwoPieces(u: string, a: string, p: string, more: string)
    requires Text.OneToken(a) && Text.OneToken(p)
    requires u <= a + ";" + (p + ";" + more) && |u| >= |a| + |p| + 2
    ensures |Text.Tokens(u)| >= 2 && Text.Tokens(u)[0] == a && Text.Tokens(u)[1] == p
  {
    var rest := u[|a| + |p| + 2..];
    assert u == a + ";" + (p + ";" + rest);
    hide Text.Tokens, Text.OneToken;
    Text.TokenThenMore(a, p + ";" + rest);
    Text.TokenThenMore(p, rest);
  }

  lemma FrontOf(c: Config) returns (more: string)
    requires c.ssid == TwoFieldName()
    ensures InitializePayload(c) == "ssid=a" + ";" + (VersionText() + ";" + more)
  {
    hide Text.Decimal;
    var ts := Texts(ConfigFields(c));
    more := Text.JoinFields(ts[1..]);
    assert ts[0] == Field("ssid", c.ssid).Text();
    NameSplits(c.ssid);
    hide Texts, ConfigFields, TwoFieldName, VersionText;
    assert Text.JoinFields(ts) == ts[0] + ";" + more;
    assert "ssid=a" + ";" + VersionText() + ";" + more == "ssid=a" + ";" + (VersionText() + ";" + more);
  }

  lemma NameSplits(ssid: string)
    requires ssid == TwoFieldName()
    ensures Field("ssid", ssid).Text() == "ssid=a" + ";" + VersionText()
  {
    hide Text.Decimal;
    assert "ssid" + "=" + ("a;" + VersionText()) == "ssid=a" + ";" + VersionText();
  }

  lemma VersionTextPlain()
    ensures |VersionText()| <= 20 && Text.OneToken("ssid=a") && Text.OneToken(VersionText())
    ensures forall k :: 0 <= k < |VersionText()| ==> VersionText()[k] != '\0'
    ensures RightVersion(VersionText()) && !VersionPiece("ssid=a")
  {
    hide Text.Decimal, Metadata.WholeNumber;
    var digits := Text.Decimal(INTERFACE_VERSION);
    Text.WordLength(INTERFACE_VERSION);
    NumberFieldGood("data_ver", INTERFACE_VERSION);
    StrtoulDecimal(INTERFACE_VERSION);
    assert VersionText() == "data_ver=" + digits;
    assert VersionText()[9..] == digits;
    assert forall k :: 0 <= k < |digits| ==> Text.IsDigit(digits[k]);
    assert "ssid=a"[0] != "data_ver="[0];
  }

  /** Such a configuration is accepted, whatever its other values are. */
  lemma HostInitializeAccepted(b: Bridge, c: Config, host: u32, device: u32, sequence: u16, fate: Fate)
    requires c.ssid == TwoFieldName()
    ensures var f := Frame(INITIALIZE, host, device, sequence, Ascii(InitializePayload(c)));
            HandleInitialize(b, Usb, f, fate).s.state.Initialize?
  {
    var text, piece := InitializePayload(c), VersionText();
    hide InitializePayload, HandleInitialize, PayloadText, Ascii, TwoFieldName, VersionText, RightVersion, VersionPiece,
         Text.Tokens, Text.OneToken;
    var more := FrontOf(c);
    VersionTextPlain();
    PayloadBytes(c);
    var n := |"ssid=a"| + |piece| + 2;
    NoNulInFront(text, piece, more);
    PayloadTextFront(text, n);
    HostInitializeExactly(b, c, host, device, sequence, fate);
    var u := PayloadText(Ascii(text));
    TwoPieces(u, "ssid=a", piece, more);
    assert RightVersion(Text.Tokens(u)[1]) && !VersionPiece(Text.Tokens(u)[0]);
  }

  lemma NoNulInFront(text: string, piece: string, more: string)
    requires text == "ssid=a" + ";" + (piece + ";" + more) && forall k :: 0 <= k < |piece| ==> piece[k] != '\0'
    ensures forall k :: 0 <= k < |"ssid=a"| + |piece| + 2 ==> text[k] != '\0'
  {
  }
}
