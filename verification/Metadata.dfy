/** The bridge's parser of `key=value;key=value` payload metadata. */
module Metadata {
  import opened Options
  import opened Text

  // ----- the bridge: strstr and strtoul on a 32-bit target -----

  predicate OccursAt(text: string, pattern: string, p: int) {
    0 <= p && p + |pattern| <= |text| && text[p..p + |pattern|] == pattern
  }

  /** strstr from a position: the first occurrence, or -1. */
  function Strstr(text: string, pattern: string, from: nat): (p: int)
    requires from <= |text|
    ensures p == -1 || (from <= p && OccursAt(text, pattern, p))
    ensures forall q :: from <= q && (p == -1 || q < p) ==> !OccursAt(text, pattern, q)
    decreases |text| - from
  {
    if OccursAt(text, pattern, from) then from
    else if from == |text| then -1
    else Strstr(text, pattern, from + 1)
  }

  /** The digits at the front of u: their value, capped at the largest unsigned long, and their number. */
  function ReadDigits(u: string): (r: (nat, nat))
    ensures r.0 < U32 && r.1 <= |u|
  {
    var n := Span(u, IsDigit);
    var v := NumberOf(u[..n]);
    (if v >= U32 then U32 - 1 else v, n)
  }

  /** Whether the digits are too large for an unsigned long. */
  predicate Overflows(u: string) {
    NumberOf(u[..Span(u, IsDigit)]) >= U32
  }

  predicate Signed(t: string) {
    |t| > 0 && (t[0] == '-' || t[0] == '+')
  }

  /** strtoul, base 10, 32-bit: the value and the number of characters used. */
  function Strtoul(s: string): (r: (nat, nat))
    ensures r.0 < U32 && r.1 <= |s|
  {
    var spaces := Span(s, IsSpace);
    var t := s[spaces..];
    var u := if Signed(t) then t[1..] else t;
    var (v, n) := ReadDigits(u);
    if n == 0 then (0, 0)
    else (if Signed(t) && t[0] == '-' && !Overflows(u) then (U32 - v) % U32 else v, |s| - |u| + n)
  }

  /** A field `key=...` starts at position p. */
  predicate FieldAt(text: string, key: string, p: int) {
    && OccursAt(text, key + "=", p)
    && (p == 0 || text[p - 1] == ';')
  }

  /** The first such position at or after `from`, or -1. */
  function FindField(text: string, key: string, from: nat): (p: int)
    requires from <= |text|
    ensures p == -1 || (from <= p && FieldAt(text, key, p))
    ensures forall q :: from <= q && (p == -1 || q < p) ==> !FieldAt(text, key, q)
    decreases |text| - from
  {
    if FieldAt(text, key, from) then from
    else if from == |text| then -1
    else FindField(text, key, from + 1)
  }

  /** The number that fills a field value up to the end of the text or a semicolon. */
  function NumberAt(text: string, start: nat): Option<nat>
    requires start <= |text|
  {
    var (value, used) := Strtoul(text[start..]);
    if used == 0 then None
    else if start + used < |text| && text[start + used] != ';' then None
    else Some(value)
  }

  ghost predicate GoodKey(key: string) {
    |key| > 0 && OneToken(key)
  }

  method BridgeTryParse(text: string, key: string) returns (r: Option<nat>)
    ensures |key| == 0 ==> r == None
    ensures GoodKey(key) ==>
              r == var p := FindField(text, key, 0);
                   if p == -1 then None else NumberAt(text, p + |key| + 1)
  {
    hide Strtoul, Strstr, FindField, FieldAt;
    var keyLen := |key|;
    if keyLen == 0 {
      return None;
    }
    var token := 0;
    while true
      invariant token <= |text|
      invariant GoodKey(key) ==> FindField(text, key, 0) == FindField(text, key, token)
      decreases |text| - token
    {
      var at := Strstr(text, key, token);
      if at == -1 {
        NoOccurrenceNoField(text, key, token);
        return None;
      }
      var tokenStartOk := at == 0 || text[at - 1] == ';';
      if !tokenStartOk || at + keyLen == |text| || text[at + keyLen] != '=' {
        if GoodKey(key) {
          NotAField(text, key, at);
          SkipOccurrence(text, key, token, at);
        }
        token := at + keyLen;
        continue;
      }
      FieldHere(text, key, token, at);
      var valueStart := at + keyLen + 1;
      var (parsed, used) := Strtoul(text[valueStart..]);
      if used == 0 || parsed > 0xFFFF_FFFF {
        return None;
      }
      if valueStart + used < |text| && text[valueStart + used] != ';' {
        return None;
      }
      return Some(parsed);
    }
  }

  lemma FieldIsOccurrence(text: string, key: string, p: int)
    requires FieldAt(text, key, p)
    ensures OccursAt(text, key, p) && p + |key| < |text| && text[p + |key|] == '='
  {
    assert text[p..p + |key + "="|] == key + "=";
    assert text[p..p + |key|] == text[p..p + |key + "="|][..|key|];
    assert text[p + |key|] == text[p..p + |key + "="|][|key|];
  }

  lemma OccurrenceIsField(text: string, key: string, p: int)
    requires OccursAt(text, key, p) && p + |key| < |text| && text[p + |key|] == '='
    requires p == 0 || text[p - 1] == ';'
    ensures FieldAt(text, key, p)
  {
    assert text[p..p + |key| + 1] == text[p..p + |key|] + [text[p + |key|]];
  }

  lemma NotAField(text: string, key: string, at: nat)
    requires OccursAt(text, key, at)
    requires !(at == 0 || text[at - 1] == ';') || at + |key| == |text| || text[at + |key|] != '='
    ensures !FieldAt(text, key, at)
  {
    if FieldAt(text, key, at) {
      FieldIsOccurrence(text, key, at);
    }
  }

  lemma NoOccurrenceNoField(text: string, key: string, from: nat)
    requires from <= |text| && Strstr(text, key, from) == -1
    ensures FindField(text, key, from) == -1
  {
    var p := FindField(text, key, from);
    if p != -1 {
      FieldIsOccurrence(text, key, p);
    }
  }

  lemma FieldHere(text: string, key: string, from: nat, at: nat)
    requires from <= |text| && at == Strstr(text, key, from)
    requires at + |key| < |text| && text[at + |key|] == '='
    requires at == 0 || text[at - 1] == ';'
    ensures FindField(text, key, from) == at
  {
    OccurrenceIsField(text, key, at);
    var p := FindField(text, key, from);
    if p != -1 && p < at {
      FieldIsOccurrence(text, key, p);
    }
  }

  lemma InsideOccurrence(text: string, key: string, at: nat, q: nat)
    requires OneToken(key) && OccursAt(text, key, at) && at < q < at + |key|
    ensures text[q - 1] != ';'
  {
    assert text[q - 1] == text[at..at + |key|][q - 1 - at];
  }

  /** Jumping over an occurrence that is no field jumps over no field. */
  lemma SkipOccurrence(text: string, key: string, from: nat, at: nat)
    requires GoodKey(key) && from <= |text| && at == Strstr(text, key, from)
    requires !FieldAt(text, key, at)
    ensures FindField(text, key, from) == FindField(text, key, at + |key|)
  {
    hide Strstr, FindField;
    forall q: nat | from <= q < at + |key|
      ensures !FieldAt(text, key, q)
    {
      if q < at {
        if FieldAt(text, key, q) {
          FieldIsOccurrence(text, key, q);
        }
      } else if q > at {
        InsideOccurrence(text, key, at, q);
      }
    }
    SkipTo(text, key, from, at + |key|);
  }

  lemma SkipTo(text: string, key: string, from: nat, upTo: nat)
    requires from <= upTo <= |text|
    requires forall q: nat | from <= q < upTo :: !FieldAt(text, key, q)
    ensures FindField(text, key, from) == FindField(text, key, upTo)
    decreases upTo - from
  {
    if from < upTo {
      SkipTo(text, key, from + 1, upTo);
    }
  }

  // ----- what that amounts to, token by token -----

  /** What the bridge parser returns. */
  function BridgeParse(text: string, key: string): Option<nat> {
    var p := FindField(text, key, 0);
    if p == -1 then None
    else assert text[p..p + |key + "="|] == key + "="; NumberAt(text, p + |key| + 1)
  }

  /** The value a whole token tail stands for. */
  function WholeNumber(raw: string): Option<nat> {
    var (value, used) := Strtoul(raw);
    if used == 0 || used < |raw| then None else Some(value)
  }

  /** The first token `key=...` decides, well formed or not. */
  function FirstToken(tokens: seq<string>, key: string): Option<nat> {
    if tokens == [] then None
    else if StartsWith(tokens[0], key + "=") then WholeNumber(tokens[0][|key| + 1..])
    else FirstToken(tokens[1..], key)
  }

  lemma SpanStops(s: string, t: string, p: char -> bool)
    requires t == "" || !p(t[0])
    ensures Span(s + t, p) == Span(s, p)
  {
    SpanUnique(s + t, p, Span(s, p));
  }

  lemma DigitsStop(u: string, rest: string)
    requires rest == "" || rest[0] == ';'
    ensures ReadDigits(u + rest) == ReadDigits(u)
    ensures Overflows(u + rest) == Overflows(u)
  {
    SpanStops(u, rest, IsDigit);
    var n := Span(u, IsDigit);
    assert (u + rest)[..n] == u[..n];
  }

  /** strtoul never reads past a semicolon. */
  lemma StrtoulStops(raw: string, rest: string)
    requires rest == "" || rest[0] == ';'
    ensures Strtoul(raw + rest) == Strtoul(raw)
  {
    hide ReadDigits, Overflows;
    SpanStops(raw, rest, IsSpace);
    var t := raw[Span(raw, IsSpace)..];
    assert (raw + rest)[Span(raw, IsSpace)..] == t + rest;
    assert Signed(t + rest) == Signed(t);
    assert Signed(t) ==> (t + rest)[1..] == t[1..] + rest;
    DigitsStop(if Signed(t) then t[1..] else t, rest);
  }

  lemma NumberToTokenEnd(text: string, start: nat)
    requires start <= |text|
    ensures var raw := text[start..][..TokenLength(text[start..])];
            NumberAt(text, start) == WholeNumber(raw)
  {
    hide Strtoul;
    var tail := text[start..];
    var n := TokenLength(tail);
    assert tail == tail[..n] + tail[n..];
    StrtoulStops(tail[..n], tail[n..]);
  }

  lemma {:induction false} FindFieldShift(text: string, key: string, skip: nat, from: nat)
    requires 0 < skip <= |text| && text[skip - 1] == ';' && from <= |text| - skip
    ensures var p := FindField(text[skip..], key, from);
            FindField(text, key, skip + from) == if p == -1 then -1 else skip + p
    decreases |text| - from
  {
    FieldShift(text, key, skip, from);
    if from < |text| - skip {
      FindFieldShift(text, key, skip, from + 1);
    }
  }

  lemma FieldShift(text: string, key: string, skip: nat, q: nat)
    requires 0 < skip <= |text| && text[skip - 1] == ';' && q <= |text| - skip
    ensures FieldAt(text, key, skip + q) <==> FieldAt(text[skip..], key, q)
  {
    var n := |key + "="|;
    if q + n <= |text| - skip {
      assert text[skip..][q..q + n] == text[skip + q..skip + q + n];
    }
  }

  lemma FirstTokenPosition(text: string, key: string)
    requires GoodKey(key)
    ensures FieldAt(text, key, 0) <==> StartsWith(text[..TokenLength(text)], key + "=")
  {
    var n, pattern := TokenLength(text), key + "=";
    if FieldAt(text, key, 0) {
      PatternInToken(text, pattern);
      assert text[..n][..|pattern|] == text[0..|pattern|];
    }
    if StartsWith(text[..n], pattern) {
      assert text[..n][..|pattern|] == text[0..|pattern|];
    }
  }

  lemma {:induction false} PatternInToken(text: string, pattern: string)
    requires OneToken(pattern) && OccursAt(text, pattern, 0)
    ensures |pattern| <= TokenLength(text)
  {
    if |pattern| > 0 {
      assert text[0] == text[0..|pattern|][0];
      assert text[1..][0..|pattern| - 1] == text[0..|pattern|][1..];
      PatternInToken(text[1..], pattern[1..]);
    }
  }

  lemma FirstTokenDecides(text: string, key: string)
    requires GoodKey(key) && FieldAt(text, key, 0)
    ensures BridgeParse(text, key) == FirstToken(Tokens(text), key)
  {
    hide WholeNumber, NumberAt;
    var n := TokenLength(text);
    FirstTokenPosition(text, key);
    FieldIsFound(text, key);
    NumberToTokenEnd(text, |key| + 1);
    TokenTail(text, |key| + 1);
    assert text[..|text|] == text;
    assert Tokens(text)[0] == text[..n];
  }

  /** No field starts inside the first token, or at the semicolon that ends it. */
  lemma NotInFirstToken(text: string, key: string, upTo: nat)
    requires GoodKey(key) && !FieldAt(text, key, 0) && upTo <= |text| && upTo <= TokenLength(text) + 1
    ensures FindField(text, key, 0) == FindField(text, key, upTo)
  {
    hide FieldAt;
    forall q: nat | 0 <= q < upTo
      ensures !FieldAt(text, key, q)
    {
      if q > 0 {
        NotAfterSemicolon(text, key, q);
      }
    }
    SkipTo(text, key, 0, upTo);
  }

  /** Past the first token the parser goes on as if the text began there. */
  lemma NextToken(text: string, key: string, start: nat)
    requires GoodKey(key) && !FieldAt(text, key, 0)
    requires start == TokenLength(text) + 1 <= |text|
    ensures BridgeParse(text, key) == BridgeParse(text[start..], key)
  {
    hide NumberAt, FieldAt, FindField;
    NotInFirstToken(text, key, start);
    FindFieldShift(text, key, start, 0);
    var p := FindField(text[start..], key, 0);
    if p != -1 {
      FieldIsOccurrence(text[start..], key, p);
      NumberShift(text, start, p + |key| + 1);
    }
  }

  /** On every text the strstr loop finds what reading the semicolon-separated tokens in order finds. */
  lemma {:induction false} BridgeParseByTokens(text: string, key: string)
    requires GoodKey(key)
    ensures BridgeParse(text, key) == FirstToken(Tokens(text), key)
    decreases |text|
  {
    hide BridgeParse, WholeNumber, FieldAt;
    var n := TokenLength(text);
    if FieldAt(text, key, 0) {
      FirstTokenDecides(text, key);
    } else {
      FirstTokenPosition(text, key);
      if n == |text| {
        assert text[..n] == text;
        LastTokenMissing(text, key);
      } else {
        NextToken(text, key, n + 1);
        BridgeParseByTokens(text[n + 1..], key);
        assert Tokens(text)[1..] == Tokens(text[n + 1..]);
      }
    }
  }

  lemma LastTokenMissing(text: string, key: string)
    requires GoodKey(key) && !FieldAt(text, key, 0) && TokenLength(text) == |text|
    ensures BridgeParse(text, key) == None
  {
    hide FieldAt;
    NotInFirstToken(text, key, |text|);
    if |text| > 0 {
      NotAfterSemicolon(text, key, |text|);
    }
    NoFieldAtEnd(text, key);
  }

  lemma FieldIsFound(text: string, key: string)
    requires FieldAt(text, key, 0)
    ensures FindField(text, key, 0) == 0 && |key| + 1 <= |text|
  {
  }

  lemma NoFieldAtEnd(text: string, key: string)
    requires !FieldAt(text, key, |text|)
    ensures FindField(text, key, |text|) == -1
  {
  }

  lemma NotAfterSemicolon(text: string, key: string, q: nat)
    requires 0 < q <= |text| && text[q - 1] != ';'
    ensures !FieldAt(text, key, q)
  {
  }

  lemma TokenTail(text: string, start: nat)
    requires start <= TokenLength(text)
    ensures text[start..][..TokenLength(text[start..])] == text[..TokenLength(text)][start..]
  {
    var n := TokenLength(text);
    SpanUnique(text[start..], c => c != ';', n - start);
  }

  lemma NumberShift(text: string, skip: nat, start: nat)
    requires skip + start <= |text|
    ensures NumberAt(text, skip + start) == NumberAt(text[skip..], start)
  {
    assert text[skip..][start..] == text[skip + start..];
  }
}
