/** Payload text: decimal numbers, pieces of text, and semicolon-separated fields. */
module Text {
  import opened Options

  const U32 := 0x1_0000_0000

  // ----- decimal numbers -----

  predicate IsDigit(c: char) {
    '0' <= c <= '9'
  }

  predicate AllDigits(s: string) {
    forall i :: 0 <= i < |s| ==> IsDigit(s[i])
  }

  function DigitChar(d: nat): (c: char)
    requires d < 10
    ensures IsDigit(c)
  {
    ('0' as int + d) as char
  }

  function DigitValue(c: char): (d: nat)
    requires IsDigit(c)
    ensures d < 10
  {
    c as int - '0' as int
  }

  /** What %u prints. */
  function Decimal(n: nat): (s: string)
    ensures |s| > 0 && AllDigits(s)
  {
    if n < 10 then [DigitChar(n)] else Decimal(n / 10) + [DigitChar(n % 10)]
  }

  /** What %d prints. */
  function SignedDecimal(n: int): string {
    if n < 0 then "-" + Decimal(-n) else Decimal(n)
  }

  /** The number a run of digits stands for. */
  function NumberOf(s: string): nat
    requires AllDigits(s)
  {
    if |s| == 0 then 0 else 10 * NumberOf(s[..|s| - 1]) + DigitValue(s[|s| - 1])
  }

  lemma {:induction false} NumberOfDecimal(n: nat)
    ensures NumberOf(Decimal(n)) == n
  {
    if n >= 10 {
      NumberOfDecimal(n / 10);
      assert Decimal(n)[..|Decimal(n)| - 1] == Decimal(n / 10);
    } else {
      assert Decimal(n)[..0] == "";
    }
  }

  function Pow10(k: nat): nat {
    if k == 0 then 1 else 10 * Pow10(k - 1)
  }

  lemma {:induction false} DecimalLength(n: nat, k: nat)
    requires 0 < k && n < Pow10(k)
    ensures |Decimal(n)| <= k
  {
    if n >= 10 {
      DecimalLength(n / 10, k - 1);
    }
  }

  lemma WordLength(n: nat)
    requires n < U32
    ensures |Decimal(n)| <= 10
  {
    assert Pow10(5) == 10_0000;
    assert Pow10(10) == 100_0000_0000;
    DecimalLength(n, 10);
  }

  // ----- pieces of text -----

  predicate StartsWith(s: string, prefix: string) {
    |prefix| <= |s| && s[..|prefix|] == prefix
  }

  predicate IsSpace(c: char) {
    c == ' ' || c == '\t' || c == '\n' || c == '\r' || c == 11 as char || c == 12 as char
  }

  /** Length of the longest prefix of s that satisfies p. */
  function Span(s: string, p: char -> bool): (n: nat)
    ensures n <= |s|
    ensures forall i :: 0 <= i < n ==> p(s[i])
    ensures n < |s| ==> !p(s[n])
  {
    if |s| == 0 || !p(s[0]) then 0 else 1 + Span(s[1..], p)
  }

  lemma {:induction false} SpanUnique(s: string, p: char -> bool, n: nat)
    requires n <= |s|
    requires forall i :: 0 <= i < n ==> p(s[i])
    requires n < |s| ==> !p(s[n])
    ensures Span(s, p) == n
  {
    if n > 0 {
      SpanUnique(s[1..], p, n - 1);
    }
  }

  /** Characters up to the first semicolon. */
  function TokenLength(s: string): (n: nat)
    ensures n <= |s|
    ensures forall i :: 0 <= i < n ==> s[i] != ';'
    ensures n < |s| ==> s[n] == ';'
  {
    Span(s, c => c != ';')
  }

  /** The text split at its semicolons. */
  function Tokens(s: string): (ts: seq<string>)
    ensures |ts| > 0
    decreases |s|
  {
    var n := TokenLength(s);
    if n == |s| then [s] else [s[..n]] + Tokens(s[n + 1..])
  }

  /** Fields put together with semicolons. */
  function JoinFields(fields: seq<string>): string
    requires |fields| > 0
  {
    if |fields| == 1 then fields[0] else fields[0] + ";" + JoinFields(fields[1..])
  }

  predicate OneToken(s: string) {
    forall i :: 0 <= i < |s| ==> s[i] != ';'
  }

  lemma OneTokenAlone(s: string)
    requires OneToken(s)
    ensures Tokens(s) == [s]
  {
    SpanUnique(s, c => c != ';', |s|);
  }

  lemma TokenThenMore(s: string, more: string)
    requires OneToken(s)
    ensures Tokens(s + ";" + more) == [s] + Tokens(more)
  {
    var t := s + ";" + more;
    assert t == s + (";" + more);
    assert t[|s|] == ';' && t[..|s|] == s && t[|s| + 1..] == more;
    SpanUnique(t, c => c != ';', |s|);
  }

  lemma {:induction false} TokensOfJoin(fields: seq<string>)
    requires |fields| > 0
    requires forall k :: 0 <= k < |fields| ==> OneToken(fields[k])
    ensures Tokens(JoinFields(fields)) == fields
  {
    assert OneToken(fields[0]);
    hide OneToken, Tokens;
    if |fields| == 1 {
      OneTokenAlone(fields[0]);
    } else {
      var more := fields[1..];
      assert JoinFields(fields) == fields[0] + ";" + JoinFields(more);
      TokensOfJoin(more);
      hide JoinFields;
      TokenThenMore(fields[0], JoinFields(more));
      assert fields == [fields[0]] + more;
    }
  }
}
