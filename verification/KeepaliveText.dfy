/** The keepalive payload text: what the bridge prints and what each side reads back. */
module KeepaliveText {
  import opened Options
  import opened Text
  import opened Metadata
  import opened HostText

  const TEXT_MAX := 256
  const INTERFACE_VERSION := 1

  type u32 = n: int | 0 <= n < U32
  type i32 = n: int | -0x8000_0000 <= n < 0x8000_0000

  datatype Meta = Meta(session: u32, request: u32, lastDelay: i32, maxDelay: u32, errors: u32)

  datatype Field = Field(key: string, value: string) {
    function Text(): string {
      key + "=" + value
    }
  }

  function MetaFields(m: Meta): (fields: seq<Field>)
    ensures |fields| == 6
  {
    [Field("sid", Decimal(m.session)),
     Field("req", Decimal(m.request)),
     Field("rver", Decimal(INTERFACE_VERSION)),
     Field("td_last_ms", SignedDecimal(m.lastDelay)),
     Field("td_max_ms", Decimal(m.maxDelay)),
     Field("terr", Decimal(m.errors))]
  }

  function Texts(fields: seq<Field>): (ts: seq<string>)
    ensures |ts| == |fields|
    ensures forall k :: 0 <= k < |fields| ==> ts[k] == fields[k].Text()
  {
    if fields == [] then [] else [fields[0].Text()] + Texts(fields[1..])
  }

  /** bridge_build_keepalive_payload, before the copy into its buffer. */
  function Payload(tag: string, m: Meta): string {
    JoinFields([tag] + Texts(MetaFields(m)))
  }

  predicate Tag(tag: string) {
    tag == "ka_req" || tag == "ka_resp"
  }

  // ----- reading one field -----

  predicate NoEquals(s: string) {
    forall i :: 0 <= i < |s| ==> s[i] != '='
  }

  lemma NotThisField(token: string, key: string)
    requires NoEquals(token)
    ensures !StartsWith(token, key + "=")
  {
    var n := |key|;
    if |token| > n {
      assert token[..n + 1][n] != '=' && (key + "=")[n] == '=';
    }
  }

  lemma OtherField(f: Field, key: string)
    requires NoEquals(f.key) && NoEquals(key) && f.key != key
    ensures !StartsWith(f.Text(), key + "=")
  {
    var t, pattern := f.Text(), key + "=";
    assert t == f.key + ("=" + f.value);
    assert t[|f.key|] == '=' && t[..|f.key|] == f.key;
    if |pattern| <= |t| {
      var front := t[..|pattern|];
      if |f.key| < |key| {
        assert front[|f.key|] == '=' && pattern[|f.key|] == key[|f.key|];
      } else if |key| < |f.key| {
        assert front[|key|] == f.key[|key|] && pattern[|key|] == '=';
      } else {
        assert front[..|key|] == f.key && pattern[..|key|] == key;
      }
    }
  }

  lemma ThisField(f: Field)
    ensures StartsWith(f.Text(), f.key + "=") && f.Text()[|f.key| + 1..] == f.value
  {
    assert f.Text() == (f.key + "=") + f.value;
  }

  /** No space at either end. */
  predicate Trim(s: string) {
    |s| > 0 && !Blank(s[0]) && !Blank(s[|s| - 1])
  }

  ghost predicate GoodFields(fields: seq<Field>) {
    forall k :: 0 <= k < |fields| ==>
      && NoEquals(fields[k].key) && Trim(fields[k].Text()) && Trim(fields[k].value)
  }

  ghost predicate FirstWithKey(fields: seq<Field>, i: nat) {
    && i < |fields|
    && forall j :: 0 <= j < i ==> fields[j].key != fields[i].key
  }

  lemma LaterField(fields: seq<Field>, i: nat)
    requires GoodFields(fields) && FirstWithKey(fields, i) && i > 0
    ensures i < |fields|
    ensures GoodFields(fields[1..]) && FirstWithKey(fields[1..], i - 1) && fields[1..][i - 1] == fields[i]
    ensures NoEquals(fields[0].key) && NoEquals(fields[i].key) && fields[0].key != fields[i].key
    ensures Texts(fields)[1..] == Texts(fields[1..])
    ensures Trim(Texts(fields)[0])
  {
    hide NoEquals, Trim, Field.Text;
  }

  lemma FirstField(fields: seq<Field>)
    requires GoodFields(fields) && FirstWithKey(fields, 0)
    ensures |fields| > 0 && Texts(fields)[0] == fields[0].Text() && Trim(fields[0].Text()) && Trim(fields[0].value)
  {
  }

  lemma {:induction false} BridgeLookUp(fields: seq<Field>, i: nat)
    requires GoodFields(fields) && FirstWithKey(fields, i)
    ensures FirstToken(Texts(fields), fields[i].key) == WholeNumber(fields[i].value)
  {
    hide WholeNumber, Field.Text, StartsWith, GoodFields, FirstWithKey, Texts;
    if i == 0 {
      FirstField(fields);
      ThisField(fields[0]);
    } else {
      LaterField(fields, i);
      OtherField(fields[0], fields[i].key);
      BridgeLookUp(fields[1..], i - 1);
    }
  }

  /** Decimal digits are digits to the host, and mean the same number. */
  lemma {:induction false} DigitsRead(s: string)
    requires AllDigits(s)
    ensures AllDecimal(s) && IntOf(s) == NumberOf(s)
    ensures |s| > 0 ==> AllDigitLike(s)
  {
    if |s| > 0 {
      DigitsRead(s[..|s| - 1]);
    }
  }

  lemma FieldCut(f: Field)
    requires Trim(f.Text()) && Trim(f.value)
    ensures FieldValue(f.Text(), f.key) == f.value
  {
    ThisField(f);
    TrimmedStrip(f.Text());
    TrimmedStrip(f.value);
    hide Strip, Trim, Field.Text, StartsWith;
  }

  /** The number a value stands for, with or without a minus sign. */
  function SignedOf(v: string): Option<int> {
    if |v| > 0 && AllDigits(v) then Some(NumberOf(v))
    else if |v| > 1 && v[0] == '-' && AllDigits(v[1..]) then Some(0 - NumberOf(v[1..]) as int)
    else None
  }

  predicate Reads(ts: seq<string>, f: Field) {
    && (SignedOf(f.value).Some? ==> ReadI32(ts, f.key) == SignedOf(f.value))
    && (|f.value| > 0 && AllDigits(f.value) ==> ReadU32(ts, f.key) == Found(NumberOf(f.value)))
  }

  lemma ValueRead(ts: seq<string>, f: Field)
    requires |ts| > 0 && FieldValue(ts[0], f.key) == f.value
    ensures Reads(ts, f)
  {
    hide NumberOf, IntOf, FieldValue, AllDigits, AllDigitLike, AllDecimal;
    var v := f.value;
    if |v| > 0 && AllDigits(v) {
      DigitsRead(v);
      NoMinus(v);
    } else if SignedOf(v).Some? {
      DigitsRead(v[1..]);
    }
  }

  lemma NoMinus(v: string)
    requires |v| > 0 && AllDigits(v)
    ensures v[0] != '-'
  {
    assert IsDigit(v[0]);
  }

  lemma HostFieldSkipped(ts: seq<string>, key: string)
    requires |ts| > 0 && Trim(ts[0]) && !StartsWith(ts[0], key + "=")
    ensures ReadU32(ts, key) == ReadU32(ts[1..], key)
    ensures ReadI32(ts, key) == ReadI32(ts[1..], key)
  {
    TrimmedStrip(ts[0]);
    assert FieldValue(ts[0], key) == "";
    hide IntOf, FieldValue, AllDecimal;
  }

  lemma {:induction false} HostLookUp(fields: seq<Field>, i: nat)
    requires GoodFields(fields) && FirstWithKey(fields, i)
    ensures Reads(Texts(fields), fields[i])
  {
    hide SignedOf, NumberOf, ReadU32, ReadI32, AllDigits, Field.Text, FieldValue, Trim, StartsWith, GoodFields,
         FirstWithKey, Texts;
    if i == 0 {
      FirstField(fields);
      FieldCut(fields[0]);
      ValueRead(Texts(fields), fields[0]);
    } else {
      LaterField(fields, i);
      OtherField(fields[0], fields[i].key);
      HostFieldSkipped(Texts(fields), fields[i].key);
      HostLookUp(fields[1..], i - 1);
    }
  }

  lemma StrtoulDecimal(n: u32)
    ensures WholeNumber(Decimal(n)) == Some(n)
  {
    var s := Decimal(n);
    SpanUnique(s, IsSpace, 0);
    assert s[0..] == s;
    SpanUnique(s, IsDigit, |s|);
    assert s[..|s|] == s;
    NumberOfDecimal(n);
  }

  // ----- the whole payload -----

  lemma NumberFieldGood(key: string, n: nat)
    requires |key| > 0 && !Blank(key[0])
    ensures Trim(Field(key, Decimal(n)).Text()) && Trim(Decimal(n))
    ensures OneToken(Decimal(n)) && OneToken(SignedDecimal(n))
  {
  }

  lemma SignedFieldGood(key: string, n: int)
    requires |key| > 0 && !Blank(key[0])
    ensures Trim(Field(key, SignedDecimal(n)).Text()) && Trim(SignedDecimal(n))
    ensures OneToken(SignedDecimal(n))
  {
    NumberFieldGood(key, if n < 0 then -n else n);
  }

  lemma FieldsAreGood(m: Meta)
    ensures GoodFields(MetaFields(m))
  {
    hide Decimal, SignedDecimal;
    NumberFieldGood("sid", m.session);
    NumberFieldGood("req", m.request);
    NumberFieldGood("rver", INTERFACE_VERSION);
    SignedFieldGood("td_last_ms", m.lastDelay);
    NumberFieldGood("td_max_ms", m.maxDelay);
    NumberFieldGood("terr", m.errors);
  }

  lemma NumberToken(key: string, n: nat)
    requires OneToken(key)
    ensures OneToken(Field(key, Decimal(n)).Text()) && OneToken(Field(key, SignedDecimal(n)).Text())
    ensures OneToken(Field(key, SignedDecimal(0 - n as int)).Text())
  {
    hide Decimal;
    NumberFieldGood("n", n);
  }

  lemma FieldsAreTokens(m: Meta)
    ensures forall k :: 0 <= k < 6 ==> OneToken(MetaFields(m)[k].Text())
  {
    hide Decimal, SignedDecimal, Field.Text;
    NumberToken("sid", m.session);
    NumberToken("req", m.request);
    NumberToken("rver", INTERFACE_VERSION);
    NumberToken("td_last_ms", if m.lastDelay < 0 then 0 - m.lastDelay as int else m.lastDelay);
    NumberToken("td_max_ms", m.maxDelay);
    NumberToken("terr", m.errors);
  }

  lemma KeysAreDistinct(m: Meta, k: nat)
    requires k < 6
    ensures FirstWithKey(MetaFields(m), k)
  {
    hide Decimal, SignedDecimal;
  }

  lemma PayloadTokens(tag: string, m: Meta)
    requires Tag(tag)
    ensures Tokens(Payload(tag, m)) == [tag] + Texts(MetaFields(m))
  {
    FieldsAreTokens(m);
    var ts := [tag] + Texts(MetaFields(m));
    assert OneToken(tag);
    assert forall k :: 1 <= k < |ts| ==> ts[k] == MetaFields(m)[k - 1].Text();
    TokensOfJoin(ts);
  }

  lemma KeysAreGood(m: Meta, k: nat)
    requires k < 6
    ensures GoodKey(MetaFields(m)[k].key)
  {
    hide Decimal, SignedDecimal;
  }

  lemma TagHasNoEquals(tag: string)
    requires Tag(tag)
    ensures NoEquals(tag)
  {
  }

  lemma BridgeReadsField(tag: string, m: Meta, k: nat)
    requires Tag(tag) && k < 6
    ensures BridgeParse(Payload(tag, m), MetaFields(m)[k].key) == WholeNumber(MetaFields(m)[k].value)
  {
    hide WholeNumber, BridgeParse, Payload, MetaFields, GoodKey, GoodFields, FirstWithKey, Texts, StartsWith, NoEquals;
    var fields := MetaFields(m);
    FieldsAreGood(m);
    KeysAreDistinct(m, k);
    PayloadTokens(tag, m);
    KeysAreGood(m, k);
    TagHasNoEquals(tag);
    BridgeParseByTokens(Payload(tag, m), fields[k].key);
    NotThisField(tag, fields[k].key);
    BridgeLookUp(fields, k);
    assert ([tag] + Texts(fields))[1..] == Texts(fields);
  }

  /**
   The bridge's own parser recovers the session, request and version it printed, for all
   values, although the key `req` also occurs inside the tag `ka_req`.
   */
  lemma BridgeReadsBack(tag: string, m: Meta)
    requires Tag(tag)
    ensures BridgeParse(Payload(tag, m), "sid") == Some(m.session)
    ensures BridgeParse(Payload(tag, m), "req") == Some(m.request)
    ensures BridgeParse(Payload(tag, m), "rver") == Some(INTERFACE_VERSION)
  {
    hide BridgeParse, Payload, WholeNumber;
    BridgeReadsField(tag, m, 0);
    BridgeReadsField(tag, m, 1);
    BridgeReadsField(tag, m, 2);
    StrtoulDecimal(m.session);
    StrtoulDecimal(m.request);
    StrtoulDecimal(INTERFACE_VERSION);
  }

  lemma TrimmedStrip(s: string)
    requires Trim(s)
    ensures Strip(s) == s
  {
  }

  lemma HostSkipsTag(tag: string, m: Meta, key: string)
    requires Tag(tag)
    ensures FieldU32(Payload(tag, m), key) == ReadU32(Texts(MetaFields(m)), key)
    ensures FieldI32(Payload(tag, m), key) == ReadI32(Texts(MetaFields(m)), key)
  {
    hide Payload, Tokens;
    PayloadTokens(tag, m);
    NotThisField(tag, key);
    TrimmedStrip(tag);
    assert ([tag] + Texts(MetaFields(m)))[1..] == Texts(MetaFields(m));
  }

  lemma HostReadsField(tag: string, m: Meta, k: nat, key: string, n: nat)
    requires Tag(tag) && k < 6 && MetaFields(m)[k] == Field(key, Decimal(n))
    ensures FieldU32(Payload(tag, m), key) == Found(n)
    ensures FieldI32(Payload(tag, m), key) == Some(n)
  {
    hide ReadU32, ReadI32, FieldU32, FieldI32, Payload;
    FieldsAreGood(m);
    KeysAreDistinct(m, k);
    HostLookUp(MetaFields(m), k);
    NumberOfDecimal(n);
    HostSkipsTag(tag, m, key);
  }

  /** The host's token parsers recover every number the bridge printed, the signed delay included. */
  lemma HostReadsBack(tag: string, m: Meta)
    requires Tag(tag)
    ensures FieldU32(Payload(tag, m), "sid") == Found(m.session)
    ensures FieldU32(Payload(tag, m), "req") == Found(m.request)
    ensures FieldI32(Payload(tag, m), "td_last_ms") == Some(m.lastDelay)
    ensures FieldU32(Payload(tag, m), "td_max_ms") == Found(m.maxDelay)
    ensures FieldU32(Payload(tag, m), "terr") == Found(m.errors)
  {
    hide Payload, ReadI32, FieldU32, FieldI32, Decimal;
    HostReadsField(tag, m, 0, "sid", m.session);
    HostReadsField(tag, m, 1, "req", m.request);
    HostReadsField(tag, m, 4, "td_max_ms", m.maxDelay);
    HostReadsField(tag, m, 5, "terr", m.errors);
    if m.lastDelay >= 0 {
      HostReadsField(tag, m, 3, "td_last_ms", m.lastDelay);
    } else {
      FieldsAreGood(m);
      KeysAreDistinct(m, 3);
      HostLookUp(MetaFields(m), 3);
      var size: nat := 0 - m.lastDelay as int;
      var digits := Decimal(size);
      assert SignedDecimal(m.lastDelay) == "-" + digits;
      assert SignedDecimal(m.lastDelay)[1..] == digits;
      NumberOfDecimal(size);
      HostSkipsTag(tag, m, "td_last_ms");
    }
  }

  // ----- a tag with one number -----

  /** A tag and a numbered field. */
  function Numbered(tag: string, key: string, n: nat): string {
    tag + ";" + Field(key, Decimal(n)).Text()
  }

  lemma NumberedTokens(tag: string, key: string, n: nat)
    requires OneToken(tag) && OneToken(key)
    ensures Tokens(Numbered(tag, key, n)) == [tag, Field(key, Decimal(n)).Text()]
  {
    hide Decimal, Tokens, Field.Text, OneToken;
    NumberToken(key, n);
    OneTokenAlone(Field(key, Decimal(n)).Text());
    TokenThenMore(tag, Field(key, Decimal(n)).Text());
  }

  /** The host finds the number under its key, and nothing under any other. */
  lemma NumberedReads(tag: string, key: string, n: nat, other: string)
    requires OneToken(tag) && OneToken(key) && Trim(tag) && Trim(key) && NoEquals(tag) && NoEquals(key) && NoEquals(other)
    ensures FieldU32(Numbered(tag, key, n), other) == if other == key then Found(n) else Missing
  {
    hide Decimal, Tokens, OneToken, Numbered, StartsWith, ReadI32;
    assert |key| > 0 && !Blank(key[0]);
    hide Trim;
    var f := Field(key, Decimal(n));
    NumberedTokens(tag, key, n);
    NumberFieldGood(key, n);
    NotThisField(tag, other);
    HostFieldSkipped([tag, f.Text()], other);
    assert [tag, f.Text()][1..] == [f.Text()];
    NumberOfDecimal(n);
    if other == key {
      FieldCut(f);
      ValueRead([f.Text()], f);
    } else {
      OtherField(f, other);
      HostFieldSkipped([f.Text()], other);
      assert [f.Text()][1..] == [];
    }
  }

  /** And so does the bridge's own parser, or any like it. */
  lemma NumberedParses(tag: string, key: string, n: u32)
    requires OneToken(tag) && OneToken(key) && Trim(tag) && Trim(key) && NoEquals(tag) && NoEquals(key)
    ensures BridgeParse(Numbered(tag, key, n), key) == Some(n)
  {
    hide Decimal, Tokens, OneToken, Numbered, StartsWith, WholeNumber, BridgeParse;
    assert GoodKey(key);
    hide Trim, GoodKey;
    var f := Field(key, Decimal(n));
    NumberedTokens(tag, key, n);
    BridgeParseByTokens(Numbered(tag, key, n), key);
    NotThisField(tag, key);
    ThisField(f);
    assert [tag, f.Text()][1..] == [f.Text()];
    StrtoulDecimal(n);
  }

  lemma {:induction false} JoinLength(ts: seq<string>, cap: nat)
    requires |ts| > 0 && forall k :: 0 <= k < |ts| ==> |ts[k]| <= cap
    ensures |JoinFields(ts)| <= |ts| * (cap + 1)
  {
    if |ts| > 1 {
      JoinLength(ts[1..], cap);
    }
  }

  /** The text always fits the buffer of 256 characters: nothing is cut off. */
  lemma PayloadFits(tag: string, m: Meta)
    requires Tag(tag)
    ensures |Payload(tag, m)| <= TEXT_MAX
  {
    hide Decimal;
    var ts := [tag] + Texts(MetaFields(m));
    WordLength(m.session);
    WordLength(m.request);
    WordLength(INTERFACE_VERSION);
    WordLength(m.maxDelay);
    WordLength(m.errors);
    WordLength(if m.lastDelay < 0 then 0 - m.lastDelay as int else m.lastDelay as int);
    forall k | 0 <= k < |ts|
      ensures |ts[k]| <= 22
    {
      if k > 0 {
        assert ts[k] == MetaFields(m)[k - 1].Text();
      }
    }
    JoinLength(ts, 22);
  }

  // ----- characters -----

  lemma {:induction false} SmallJoin(ts: seq<string>)
    requires |ts| > 0 && forall k :: 0 <= k < |ts| ==> AllSmall(ts[k])
    ensures AllSmall(JoinFields(ts))
  {
    if |ts| > 1 {
      SmallJoin(ts[1..]);
    }
  }

  lemma {:induction false} SmallDecimal(n: nat)
    ensures AllSmall(Decimal(n))
  {
    if n >= 10 {
      SmallDecimal(n / 10);
    }
  }

  lemma SmallNumber(key: string, n: nat)
    requires AllSmall(key)
    ensures AllSmall(Field(key, Decimal(n)).Text()) && AllSmall(Field(key, SignedDecimal(n)).Text())
    ensures AllSmall(Field(key, SignedDecimal(0 - n as int)).Text())
  {
    hide Decimal;
    SmallDecimal(n);
  }

  lemma SmallFields(m: Meta)
    ensures forall k :: 0 <= k < 6 ==> AllSmall(MetaFields(m)[k].Text())
  {
    hide Decimal, SignedDecimal, Field.Text;
    SmallNumber("sid", m.session);
    SmallNumber("req", m.request);
    SmallNumber("rver", INTERFACE_VERSION);
    SmallNumber("td_last_ms", if m.lastDelay < 0 then 0 - m.lastDelay as int else m.lastDelay);
    SmallNumber("td_max_ms", m.maxDelay);
    SmallNumber("terr", m.errors);
  }

  lemma SmallTag(tag: string)
    requires Tag(tag)
    ensures AllSmall(tag)
  {
  }

  /** Neither side changes a character of the printed payload when it makes text of its bytes. */
  lemma SmallPayload(tag: string, m: Meta)
    requires Tag(tag)
    ensures AllSmall(Payload(tag, m))
  {
    SmallFields(m);
    SmallTag(tag);
    hide AllSmall, MetaFields, Tag;
    var ts := [tag] + Texts(MetaFields(m));
    assert forall k :: 1 <= k < |ts| ==> ts[k] == MetaFields(m)[k - 1].Text();
    SmallJoin(ts);
  }
}
