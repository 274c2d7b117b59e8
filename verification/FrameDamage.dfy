/** What the decoder makes of a frame damaged in two adjacent bytes behind its length field. */
module FrameDamage {
  import opened Bytes
  import opened Bits
  import opened Crc16
  import opened CrcStraddle
  import opened Frames
  import opened PythonCodec
  import opened PythonStream

  const LENGTH_END := 5

  ghost predicate TwoBytesAltered(p: seq<byte>, q: seq<byte>, i: nat) {
    && |q| == |p|
    && LENGTH_END <= i && i + 2 <= |p|
    && q[..i] == p[..i]
    && q[i + 2..] == p[i + 2..]
    && q != p
  }

  /** The one damage the checksum does not show: over its low byte and the byte before it. */
  predicate Hole(p: seq<byte>, q: seq<byte>, i: nat)
    requires |q| == |p| && i + 2 <= |p|
  {
    i == |p| - 3 && Xor(p[i], q[i]) == 0x89 && Xor(p[i + 1], q[i + 1]) == 0xA1
  }

  lemma SameParts(p: seq<byte>, q: seq<byte>, i: nat)
    requires |q| == |p| && i + 2 <= |p| && q[..i] == p[..i] && q[i + 2..] == p[i + 2..]
    ensures q == p <==> q[i] == p[i] && q[i + 1] == p[i + 1]
  {
    assert p == p[..i] + [p[i], p[i + 1]] + p[i + 2..];
    assert q == q[..i] + [q[i], q[i + 1]] + q[i + 2..];
  }

  lemma SameTail(p: seq<byte>, q: seq<byte>, from: nat, n: nat)
    requires |q| == |p| && from <= n <= |p| && q[from..] == p[from..]
    ensures q[n..] == p[n..] && q[..n][from..] == p[..n][from..]
  {
    assert q[n..] == q[from..][n - from..] && p[n..] == p[from..][n - from..];
    assert q[..n][from..] == q[from..][..n - from] && p[..n][from..] == p[from..][..n - from];
  }

  lemma InBody(p: seq<byte>, q: seq<byte>, i: nat)
    requires |p| >= OVERHEAD && CrcMatches(p) && TwoBytesAltered(p, q, i) && i + 4 <= |p|
    ensures !CrcMatches(q)
  {
    hide Crc, FromLe;
    var n := |p| - 2;
    var s, t := p[..n], q[..n];
    SameTail(p, q, i + 2, n);
    assert s[..i] == p[..i] && t[..i] == q[..i];
    SameParts(p, q, i);
    assert s[i..i + 2] == [p[i], p[i + 1]] && t[i..i + 2] == [q[i], q[i + 1]];
    WindowChangesCrc(s, t, i);
  }

  lemma InChecksum(p: seq<byte>, q: seq<byte>)
    requires |p| >= OVERHEAD && CrcMatches(p) && TwoBytesAltered(p, q, |p| - 2)
    ensures !CrcMatches(q)
  {
    hide Crc, FromLe;
    var n := |p| - 2;
    SameParts(p, q, n);
    ToFromLe(q[n..]);
    ToFromLe(p[n..]);
    assert q[n..] == [q[n], q[n + 1]] && p[n..] == [p[n], p[n + 1]];
  }

  lemma Straddling(p: seq<byte>, q: seq<byte>)
    requires |p| >= OVERHEAD && CrcMatches(p) && TwoBytesAltered(p, q, |p| - 3)
    ensures CrcMatches(q) <==> Hole(p, q, |p| - 3)
  {
    hide Crc, FromLe, Xor;
    var n := |p| - 2;
    var s, x, lo := p[..n], q[n - 1], q[n];
    FromLe2(p[n..]);
    FromLe2(q[n..]);
    assert q[n + 1] == q[n - 1 + 2..][0] == p[n - 1 + 2..][0] == p[n + 1];
    assert q[..n] == q[..n - 1] + [x] == s[..n - 1] + [x];
    StraddlingWindow(s, x, lo);
    SameParts(p, q, n - 1);
  }

  lemma AlteredCrc(p: seq<byte>, q: seq<byte>, i: nat)
    requires |p| >= OVERHEAD && CrcMatches(p) && TwoBytesAltered(p, q, i)
    ensures CrcMatches(q) <==> Hole(p, q, i)
  {
    hide CrcMatches, Xor;
    if i + 4 <= |p| {
      InBody(p, q, i);
    } else if i == |p| - 2 {
      InChecksum(p, q);
    } else {
      Straddling(p, q);
    }
  }

  /**
   A frame with two adjacent bytes altered behind its length field is refused with a checksum
   error, and nothing decoded, exactly unless the two are the last body byte and the low checksum
   byte, altered by 0x89 and 0xA1: then it is taken for another frame.
   */
  lemma DamageNoticed(f: Frame, q: seq<byte>, i: nat, t: seq<byte>)
    requires Sendable(f) && TwoBytesAltered(Encode(f), q, i)
    ensures var turn := FirstTurn(q + t);
            if Hole(Encode(f), q, i) then turn.Take? && turn.frame != f && turn.rest == t
            else turn.Raise? && turn.error.CrcMismatch? && Decode(q + t).frames == []
  {
    hide Crc, FromLe, Xor, CrcMatches, Encode, Fields, Hole;
    var p := Encode(f);
    EncodeThenFields(f);
    AlteredCrc(p, q, i);
    assert q == q[..LENGTH_END] + q[LENGTH_END..];
    assert q[..LENGTH_END] == q[..i][..LENGTH_END] == p[..i][..LENGTH_END] == p[..LENGTH_END];
    assert q[0] == q[..LENGTH_END][0] && q[1] == q[..LENGTH_END][1] && q[2] == q[..LENGTH_END][2];
    assert q[3..5] == q[..LENGTH_END][3..5] == p[3..5];
    HeaderOfPrefix(q, t);
    assert (q + t)[..|q|] == q && (q + t)[|q|..] == t;
    TurnOfSof(q + t);
    if Fields(q) == f && CrcMatches(q) {
      FieldsThenEncode(q);
    }
  }
}
