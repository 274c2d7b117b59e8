/** Text as the host sees it: UTF-8 payloads, Unicode digits and spaces, and numbers in fields. */
module HostText {
  import opened Options
  import opened Bytes
  import opened Text

  // ----- characters -----

  /** The rows of sixteen characters beyond ASCII that begin with ten decimal digits, in Unicode 14. */
  predicate DigitsFirst(row: int) {
    row in {
            0x66, 0x6F, 0x7C, 0xE5, 0xED, 0xF2, 0x104, 0x109, 0x17E, 0x181, 0x19D, 0x1A8, 0x1A9, 0x1B5, 0x1BB,
            0x1C4, 0x1C5, 0xA62, 0xA8D, 0xA90, 0xA9D, 0xA9F, 0xAA5, 0xABF, 0xFF1, 0x104A, 0x10D3, 0x110F,
            0x111D, 0x112F, 0x1145, 0x114D, 0x1165, 0x116C, 0x1173, 0x118E, 0x1195, 0x11C5, 0x11D5, 0x11DA,
            0x16A6, 0x16AC, 0x16B5, 0x1E14, 0x1E2F, 0x1E95, 0x1FBF}
  }

  /** The rows that end with them. */
  predicate DigitsLast(row: int) {
    row in {0x96, 0x9E, 0xA6, 0xAE, 0xB6, 0xBE, 0xC6, 0xCE, 0xD6, 0xDE, 0x194, 0x1106, 0x1113}
  }

  /** The digit a character beyond ASCII stands for, or -1; the mathematical digits come in five runs. */
  function ScriptDigit(c: int): (d: int)
    ensures -1 <= d < 10
  {
    var row, at := c / 16, c % 16;
    if 0x1D7CE <= c <= 0x1D7FF then (c - 0x1D7CE) % 10
    else if DigitsFirst(row) && at < 10 then at
    else if DigitsLast(row) && at >= 6 then at - 6
    else -1
  }

  /** The value of a decimal digit of any script; -1 for other characters. */
  function DecimalDigit(c: char): (d: int)
    ensures -1 <= d < 10
    ensures IsDigit(c) ==> d == DigitValue(c)
    ensures c as int < 0x80 && !IsDigit(c) ==> d == -1
  {
    if IsDigit(c) then DigitValue(c) else if c as int < 0x80 then -1 else ScriptDigit(c as int)
  }

  /** The digits that are no decimals: superscripts, subscripts, circled digits and so on. */
  predicate OtherDigit(c: char) {
    var n := c as int;
    || 0xB2 <= n <= 0xB3 || n == 0xB9 || 0x1369 <= n <= 0x1371 || n == 0x19DA || n == 0x2070
    || 0x2074 <= n <= 0x2079 || 0x2080 <= n <= 0x2089 || 0x2460 <= n <= 0x2468 || 0x2474 <= n <= 0x247C
    || 0x2488 <= n <= 0x2490 || n == 0x24EA || 0x24F5 <= n <= 0x24FD || n == 0x24FF || 0x2776 <= n <= 0x277E
    || 0x2780 <= n <= 0x2788 || 0x278A <= n <= 0x2792 || 0x10A40 <= n <= 0x10A43 || 0x10E60 <= n <= 0x10E68
    || 0x11052 <= n <= 0x1105A || 0x1F100 <= n <= 0x1F10A
  }

  /** str.isdigit on one character. */
  predicate DigitLike(c: char) {
    DecimalDigit(c) >= 0 || OtherDigit(c)
  }

  /** str.isspace on one character. */
  predicate Blank(c: char) {
    var n := c as int;
    || 0x9 <= n <= 0xD || 0x1C <= n <= 0x20 || n == 0x85 || n == 0xA0 || n == 0x1680 || 0x2000 <= n <= 0x200A
    || n == 0x2028 || n == 0x2029 || n == 0x202F || n == 0x205F || n == 0x3000
  }

  /** str.strip */
  function Strip(s: string): (r: string)
    ensures |r| <= |s|
    decreases |s|
  {
    if |s| > 0 && Blank(s[0]) then Strip(s[1..])
    else if |s| > 0 && Blank(s[|s| - 1]) then Strip(s[..|s| - 1])
    else s
  }

  /**
   str.lower, as far as ASCII letters can come out of it: beyond ASCII only the Kelvin sign and the
   dotted capital I do that. Other letters are left alone: nothing the host looks for contains them.
   */
  function LowerChar(c: char): (s: string)
    ensures c as int < 0x80 && !('A' <= c <= 'Z') ==> s == [c]
  {
    if 'A' <= c <= 'Z' then [((c as int) + 32) as char]
    else if c as int == 0x212A then "k"
    else if c as int == 0x130 then ['i', '\U{0307}']
    else [c]
  }

  function Lower(s: string): string {
    if s == "" then "" else LowerChar(s[0]) + Lower(s[1..])
  }

  // ----- UTF-8 -----

  predicate Continues(b: byte) {
    0x80 <= b <= 0xBF
  }

  /** The second byte of a sequence of three or four, by its first. */
  predicate SecondFits(first: byte, second: byte) {
    if first == 0xE0 then 0xA0 <= second <= 0xBF
    else if first == 0xED then 0x80 <= second <= 0x9F
    else if first == 0xF0 then 0x90 <= second <= 0xBF
    else if first == 0xF4 then 0x80 <= second <= 0x8F
    else Continues(second)
  }

  /** The first character of a byte string, or the ill-formed bytes in its place, and how many bytes it takes. */
  datatype Piece = Piece(size: nat, good: Option<char>)

  function FirstPiece(b: seq<byte>): (p: Piece)
    requires |b| > 0
    ensures 1 <= p.size <= |b|
    ensures b[0] < 0x80 ==> p == Piece(1, Some(b[0] as char))
  {
    var n, first := |b|, b[0] as int;
    if first < 0x80 then Piece(1, Some(first as char))
    else if 0xC2 <= first <= 0xDF then
      if n >= 2 && Continues(b[1]) then Piece(2, Some((0x40 * (first - 0xC0) + (b[1] as int - 0x80)) as char))
      else Piece(1, None)
    else if 0xE0 <= first <= 0xEF then
      if n < 2 || !SecondFits(b[0], b[1]) then Piece(1, None)
      else if n < 3 || !Continues(b[2]) then Piece(2, None)
      else ThreeBytes(first, b[1] as int - 0x80, b[2] as int - 0x80)
    else if 0xF0 <= first <= 0xF4 then
      if n < 2 || !SecondFits(b[0], b[1]) then Piece(1, None)
      else if n < 3 || !Continues(b[2]) then Piece(2, None)
      else if n < 4 || !Continues(b[3]) then Piece(3, None)
      else FourBytes(first, b[1] as int - 0x80, b[2] as int - 0x80, b[3] as int - 0x80)
    else Piece(1, None)
  }

  function ThreeBytes(first: int, x: int, y: int): (p: Piece)
    requires 0xE0 <= first <= 0xEF && 0 <= x < 0x40 && 0 <= y < 0x40 && (first == 0xED ==> x < 0x20)
    ensures p.size == 3
  {
    Piece(3, Some((0x1000 * (first - 0xE0) + 0x40 * x + y) as char))
  }

  function FourBytes(first: int, x: int, y: int, z: int): (p: Piece)
    requires 0xF0 <= first <= 0xF4 && 0 <= x < 0x40 && 0 <= y < 0x40 && 0 <= z < 0x40
    requires (first == 0xF0 ==> x >= 0x10) && (first == 0xF4 ==> x < 0x10)
    ensures p.size == 4
  {
    Piece(4, Some((0x4_0000 * (first - 0xF0) + 0x1000 * x + 0x40 * y + z) as char))
  }

  /** bytes.decode, with `bad` in place of each ill-formed stretch: nothing, or the replacement character. */
  function Utf8(b: seq<byte>, bad: string): string
    decreases |b|
  {
    if b == [] then ""
    else
      var p := FirstPiece(b);
      (if p.good.Some? then [p.good.value] else bad) + Utf8(b[p.size..], bad)
  }

  const REPLACEMENT: string := ['\U{FFFD}']

  /** The text of a payload that the host compares and searches. */
  function Normal(payload: seq<byte>): string {
    Lower(Strip(Utf8(payload, "")))
  }

  /** The text of a payload that is taken for a client's command. */
  function CommandText(payload: seq<byte>): string {
    Lower(Strip(Strip(Utf8(payload, REPLACEMENT))))
  }

  // ----- numbers in fields -----

  predicate AllDigitLike(s: string) {
    |s| > 0 && forall i :: 0 <= i < |s| ==> DigitLike(s[i])
  }

  predicate AllDecimal(s: string) {
    forall i :: 0 <= i < |s| ==> DecimalDigit(s[i]) >= 0
  }

  function IntOf(s: string): (n: nat)
    requires AllDecimal(s)
  {
    if s == "" then 0 else 10 * IntOf(s[..|s| - 1]) + DecimalDigit(s[|s| - 1])
  }

  /** The value of a field as the host cuts it out: stripped inside and out, empty when the token is another field's. */
  function FieldValue(token: string, key: string): string {
    var t := Strip(token);
    if StartsWith(t, key + "=") then Strip(t[|key| + 1..]) else ""
  }

  /** What looking for a number comes to. A value of digits that are not all decimal makes int() raise. */
  datatype Reading = Found(n: nat) | Missing | Raises

  /** _try_parse_u32_payload_value */
  function ReadU32(tokens: seq<string>, key: string): Reading {
    if tokens == [] then Missing
    else
      var raw := FieldValue(tokens[0], key);
      if !AllDigitLike(raw) then ReadU32(tokens[1..], key)
      else if AllDecimal(raw) then Found(IntOf(raw))
      else Raises
  }

  /** _try_parse_i32_payload_value: here the error is caught. */
  function ReadI32(tokens: seq<string>, key: string): Option<int> {
    if tokens == [] then None
    else
      var raw := FieldValue(tokens[0], key);
      var minus := |raw| > 0 && raw[0] == '-';
      var digits := if minus then raw[1..] else raw;
      if !AllDigitLike(digits) then ReadI32(tokens[1..], key)
      else if !AllDecimal(digits) then None
      else Some(if minus then 0 - IntOf(digits) as int else IntOf(digits) as int)
  }

  function FieldU32(text: string, key: string): Reading {
    ReadU32(Tokens(text), key)
  }

  function FieldI32(text: string, key: string): Option<int> {
    ReadI32(Tokens(text), key)
  }

  /** A text value; an empty one is passed over. */
  function ReadText(tokens: seq<string>, key: string): Option<string> {
    if tokens == [] then None
    else
      var raw := FieldValue(tokens[0], key);
      if raw != "" then Some(raw) else ReadText(tokens[1..], key)
  }

  // ----- ASCII text -----

  predicate AsciiText(s: string) {
    forall i :: 0 <= i < |s| ==> s[i] as int < 0x80
  }

  predicate AsciiBytes(b: seq<byte>) {
    forall i :: 0 <= i < |b| ==> b[i] < 0x80
  }

  lemma {:induction false} AsciiDecoded(b: seq<byte>, bad: string)
    requires AsciiBytes(b)
    ensures |Utf8(b, bad)| == |b| && forall i :: 0 <= i < |b| ==> Utf8(b, bad)[i] == b[i] as char
    decreases |b|
  {
    if b != [] {
      AsciiDecoded(b[1..], bad);
    }
  }

  lemma {:induction false} AsciiStripped(s: string)
    requires AsciiText(s)
    ensures AsciiText(Strip(s))
    decreases |s|
  {
    if |s| > 0 && Blank(s[0]) {
      AsciiStripped(s[1..]);
    } else if |s| > 0 && Blank(s[|s| - 1]) {
      AsciiStripped(s[..|s| - 1]);
    }
  }

  lemma {:induction false} AsciiLowered(s: string)
    requires AsciiText(s)
    ensures AsciiText(Lower(s))
  {
    if s != "" {
      AsciiLowered(s[1..]);
    }
  }

  lemma AsciiField(token: string, key: string)
    requires AsciiText(token)
    ensures AsciiText(FieldValue(token, key))
  {
    AsciiStripped(token);
    var t := Strip(token);
    hide Strip;
    if StartsWith(t, key + "=") {
      AsciiStripped(t[|key| + 1..]);
    }
  }

  /** Among ASCII characters every digit is a decimal one. */
  lemma AsciiDigits(s: string)
    requires AsciiText(s)
    ensures AllDigitLike(s) ==> AllDecimal(s)
  {
  }

  lemma {:induction false} AsciiReads(tokens: seq<string>, key: string)
    requires forall k :: 0 <= k < |tokens| ==> AsciiText(tokens[k])
    ensures !ReadU32(tokens, key).Raises?
  {
    hide FieldValue, AllDigitLike, AllDecimal, AsciiText;
    if tokens != [] {
      AsciiField(tokens[0], key);
      AsciiDigits(FieldValue(tokens[0], key));
      AsciiReads(tokens[1..], key);
    }
  }

  lemma {:induction false} AsciiTokens(s: string)
    requires AsciiText(s)
    ensures forall k :: 0 <= k < |Tokens(s)| ==> AsciiText(Tokens(s)[k])
    decreases |s|
  {
    var n := TokenLength(s);
    if n < |s| {
      AsciiTokens(s[n + 1..]);
    }
  }

  /** Reading a number from ASCII text never raises. */
  lemma AsciiNeverRaises(text: string, key: string)
    requires AsciiText(text)
    ensures !FieldU32(text, key).Raises?
  {
    hide Tokens, AsciiText;
    AsciiTokens(text);
    AsciiReads(Tokens(text), key);
  }

  /** Whether looking for a number ends at a value of digits that are not all decimal. */
  ghost predicate Stumbles(tokens: seq<string>, key: string) {
    exists k ::
      && 0 <= k < |tokens|
      && AllDigitLike(FieldValue(tokens[k], key)) && !AllDecimal(FieldValue(tokens[k], key))
      && forall i :: 0 <= i < k ==> !AllDigitLike(FieldValue(tokens[i], key))
  }

  /** It raises exactly when the first field of that key whose value is all digits has one that is no decimal. */
  lemma {:induction false} RaisesExactly(tokens: seq<string>, key: string)
    ensures ReadU32(tokens, key).Raises? <==> Stumbles(tokens, key)
    decreases |tokens|
  {
    hide FieldValue, AllDigitLike, AllDecimal, IntOf;
    if tokens != [] {
      RaisesExactly(tokens[1..], key);
      assert forall i :: 1 <= i < |tokens| ==> tokens[i] == tokens[1..][i - 1];
      if Stumbles(tokens[1..], key) && !AllDigitLike(FieldValue(tokens[0], key)) {
        var k :| && 0 <= k < |tokens| - 1
                 && AllDigitLike(FieldValue(tokens[1..][k], key)) && !AllDecimal(FieldValue(tokens[1..][k], key))
                 && forall i :: 0 <= i < k ==> !AllDigitLike(FieldValue(tokens[1..][i], key));
        assert forall i :: 0 <= i < k + 1 ==> !AllDigitLike(FieldValue(tokens[i], key));
        assert AllDigitLike(FieldValue(tokens[k + 1], key));
      }
    }
  }

  // ----- text that is taken as it stands -----

  /** An ASCII character that neither strip nor lower touches. */
  predicate Small(c: char) {
    0 < c as int < 0x80 && !Blank(c) && !('A' <= c <= 'Z')
  }

  predicate AllSmall(s: string) {
    forall k :: 0 <= k < |s| ==> Small(s[k])
  }

  /** The bytes begin with the ASCII text s. */
  predicate Spells(b: seq<byte>, s: string) {
    |s| <= |b| && forall k :: 0 <= k < |s| ==> s[k] as int == b[k] < 0x80
  }

  lemma {:induction false} DecodedFront(b: seq<byte>, s: string, bad: string)
    requires Spells(b, s)
    ensures StartsWith(Utf8(b, bad), s)
    decreases |s|
  {
    if s != "" {
      DecodedFront(b[1..], s[1..], bad);
      assert Utf8(b, bad) == [s[0]] + Utf8(b[1..], bad);
    }
  }

  /** ASCII bytes are decoded one by one, whatever follows. */
  lemma {:induction false} DecodedThen(a: seq<byte>, s: string, b: seq<byte>, bad: string)
    requires Spells(a, s) && |a| == |s|
    ensures Utf8(a + b, bad) == s + Utf8(b, bad)
    decreases |s|
  {
    if s == "" {
      assert a + b == b;
    } else {
      assert (a + b)[1..] == a[1..] + b;
      DecodedThen(a[1..], s[1..], b, bad);
    }
  }

  lemma {:induction false} StrippedFront(t: string, s: string)
    requires StartsWith(t, s) && AllSmall(s) && s != ""
    ensures StartsWith(Strip(t), s) && (t == s ==> Strip(t) == s)
    decreases |t|
  {
    assert forall k :: 0 <= k < |s| ==> t[k] == t[..|s|][k];
    if Blank(t[|t| - 1]) {
      assert t[..|t| - 1][..|s|] == t[..|s|];
      StrippedFront(t[..|t| - 1], s);
    }
  }

  lemma {:induction false} LoweredFront(t: string, s: string)
    requires StartsWith(t, s) && AllSmall(s)
    ensures StartsWith(Lower(t), s) && (t == s ==> Lower(t) == s)
    decreases |s|
  {
    if s != "" {
      assert t[0] == t[..|s|][0] && t[1..][..|s| - 1] == t[..|s|][1..];
      LoweredFront(t[1..], s[1..]);
      assert Lower(t) == [s[0]] + Lower(t[1..]);
    }
  }

  /** The host sees a payload that begins with such a text begin with it. */
  lemma NormalFront(b: seq<byte>, s: string)
    requires Spells(b, s) && AllSmall(s) && s != ""
    ensures StartsWith(Normal(b), s)
  {
    hide AllSmall, StartsWith, Spells, Strip, Lower;
    DecodedFront(b, s, "");
    StrippedFront(Utf8(b, ""), s);
    LoweredFront(Strip(Utf8(b, "")), s);
  }

  /** And sees a payload that is such a text as it is. */
  lemma NormalSmall(b: seq<byte>, s: string)
    requires Spells(b, s) && AllSmall(s) && s != "" && |b| == |s|
    ensures Normal(b) == s
  {
    AsciiDecoded(b, "");
    assert Utf8(b, "") == s;
    hide AllSmall, Spells, Strip, Lower, Utf8;
    StrippedFront(s, s);
    LoweredFront(s, s);
  }
}
