/**
 CRC-16 with generator x^16+x^12+x^5+1 (section 2 of Recommendation ITU-T V.41),
 initial value 0xFFFF, not reflected: the checksum of every link frame.
 */
module Crc16 {
  import opened Bytes
  import opened Bits

  type word16 = x: int | 0 <= x < 0x1_0000

  const POLY: word16 := 0x1021
  const INIT: word16 := 0xFFFF

  lemma Words()
    ensures Pow2(8) == 0x100 && Pow2(15) == 0x8000 && Pow2(16) == 0x1_0000
  {
    assert Pow2(8) == 0x100;
  }

  function Xor16(a: word16, b: word16): (r: word16)
    ensures r == Xor(a, b)
  {
    Words();
    XorBound(a, b, 16);
    Xor(a, b)
  }

  /** One turn of the inner loop. */
  function BitStep(c: word16): word16 {
    if c >= 0x8000 then Xor16(2 * c - 0x1_0000, POLY) else 2 * c
  }

  /** The register after n turns of the inner loop. */
  function Turns(c: word16, n: nat): word16 {
    if n == 0 then c else BitStep(Turns(c, n - 1))
  }

  function ByteStep(c: word16, b: byte): word16 {
    Turns(Xor16(c, 0x100 * (b as int)), 8)
  }

  /** The register after a byte string. */
  function Fold(c: word16, s: seq<byte>): word16 {
    if |s| == 0 then c else ByteStep(Fold(c, s[..|s| - 1]), s[|s| - 1])
  }

  /** The checksum of a frame body. */
  function Crc(s: seq<byte>): word16 {
    Fold(INIT, s)
  }

  method ByteTurns(start: word16, b: byte) returns (crc: word16)
    ensures crc == ByteStep(start, b)
  {
    hide Xor;
    crc := Xor16(start, 0x100 * (b as int));
    ghost var mixed := crc;
    for bit := 0 to 8
      invariant crc == Turns(mixed, bit)
    {
      if crc >= 0x8000 {
        crc := Xor16(2 * crc % 0x1_0000, 0x1021);
      } else {
        crc := 2 * crc % 0x1_0000;
      }
    }
  }

  method ComputeCrc(data: seq<byte>) returns (crc: word16)
    ensures crc == Crc(data)
  {
    hide ByteStep;
    crc := 0xFFFF;
    for i := 0 to |data|
      invariant crc == Fold(INIT, data[..i])
    {
      crc := ByteTurns(crc, data[i]);
      assert data[..i + 1][..i] == data[..i];
    }
    assert data[..|data|] == data;
  }

  // ----- a turn loses nothing -----

  lemma BitStepInjective(a: word16, b: word16)
    requires BitStep(a) == BitStep(b)
    ensures a == b
  {
    hide Xor;
    if a >= 0x8000 && b >= 0x8000 {
      XorInjective(2 * a - 0x1_0000, 2 * b - 0x1_0000, POLY);
    } else if a >= 0x8000 {
      XorHalves(2 * a - 0x1_0000, POLY);
    } else if b >= 0x8000 {
      XorHalves(2 * b - 0x1_0000, POLY);
    }
  }

  lemma {:induction false} TurnsInjective(a: word16, b: word16, n: nat)
    requires Turns(a, n) == Turns(b, n)
    ensures a == b
  {
    hide BitStep;
    if n > 0 {
      BitStepInjective(Turns(a, n - 1), Turns(b, n - 1));
      TurnsInjective(a, b, n - 1);
    }
  }

  lemma {:induction false} TurnsAdd(c: word16, m: nat, n: nat)
    ensures Turns(Turns(c, m), n) == Turns(c, m + n)
  {
    hide BitStep;
    if n > 0 {
      TurnsAdd(c, m, n - 1);
    }
  }

  /** Different registers stay different, whatever bytes follow. */
  lemma {:induction false} FoldInjective(a: word16, b: word16, s: seq<byte>)
    requires Fold(a, s) == Fold(b, s)
    ensures a == b
  {
    hide Xor, Turns;
    if |s| > 0 {
      var high := 0x100 * (s[|s| - 1] as int);
      var a1, b1 := Fold(a, s[..|s| - 1]), Fold(b, s[..|s| - 1]);
      TurnsInjective(Xor16(a1, high), Xor16(b1, high), 8);
      XorInjective(a1, b1, high);
      FoldInjective(a, b, s[..|s| - 1]);
    }
  }

  lemma {:induction false} FoldConcat(c: word16, s: seq<byte>, t: seq<byte>)
    ensures Fold(c, s + t) == Fold(Fold(c, s), t)
  {
    hide ByteStep;
    if |t| == 0 {
      assert s + t == s;
    } else {
      FoldConcat(c, s, t[..|t| - 1]);
      assert (s + t)[..|s + t| - 1] == s + t[..|t| - 1];
    }
  }

  // ----- the register is linear -----

  lemma XorAssoc16(a: word16, b: word16, c: word16)
    ensures Xor16(Xor16(a, b), c) == Xor16(a, Xor16(b, c))
  {
    XorAssoc(a, b, c);
  }

  lemma XorComm16(a: word16, b: word16)
    ensures Xor16(a, b) == Xor16(b, a)
  {
    XorComm(a, b);
  }

  /** A word with its top bit clear rides through a turn: it only moves up one place. */
  lemma LowWordRides(u: word16, y: word16)
    requires y < 0x8000
    ensures BitStep(Xor16(u, y)) == Xor16(BitStep(u), 2 * y)
  {
    hide Xor;
    Words();
    XorTop(u, y, 15);
    XorDouble(u, y);
    if u >= 0x8000 {
      XorDropTop(u, y, 15);
      XorDouble(u - 0x8000, y);
      assert 2 * Xor16(u, y) - 0x1_0000 == Xor16(2 * u - 0x1_0000, 2 * y);
      XorAssoc16(2 * u - 0x1_0000, 2 * y, POLY);
      XorComm16(2 * y, POLY);
      XorAssoc16(2 * u - 0x1_0000, POLY, 2 * y);
    }
  }

  /** A common term cancels. */
  lemma XorCommonTerm(p: word16, a: word16, b: word16)
    ensures Xor16(Xor16(p, a), Xor16(p, b)) == Xor16(a, b)
  {
    hide Xor;
    XorComm16(p, a);
    XorAssoc16(a, p, Xor16(p, b));
    XorComm16(p, b);
    XorComm16(p, Xor16(b, p));
    XorCancel(b, p);
  }

  /** A word with its top bit set is that bit and a low word. */
  lemma SplitTop(u: word16)
    requires u >= 0x8000
    ensures u == Xor16(0x8000, u - 0x8000)
    ensures BitStep(u) == Xor16(BitStep(0x8000), 2 * (u - 0x8000))
  {
    hide Xor;
    Words();
    XorDropTop(0x8000, u - 0x8000, 15);
    XorComm16(0, u - 0x8000);
    XorZero(u - 0x8000);
    LowWordRides(0x8000, u - 0x8000);
  }

  /** A turn is linear over exclusive or. */
  lemma BitStepLinear(u: word16, v: word16)
    ensures BitStep(Xor16(u, v)) == Xor16(BitStep(u), BitStep(v))
  {
    hide Xor;
    if v < 0x8000 {
      LowWordRides(u, v);
    } else if u < 0x8000 {
      XorComm16(u, v);
      LowWordRides(v, u);
      XorComm16(BitStep(v), 2 * u);
    } else {
      var a, b := u - 0x8000, v - 0x8000;
      SplitTop(u);
      SplitTop(v);
      XorCommonTerm(0x8000, a, b);
      XorCommonTerm(BitStep(0x8000), 2 * a, 2 * b);
      Words();
      XorBound(a, b, 15);
      XorDouble(a, b);
    }
  }

  lemma {:induction false} TurnsLinear(u: word16, v: word16, n: nat)
    ensures Turns(Xor16(u, v), n) == Xor16(Turns(u, n), Turns(v, n))
  {
    hide BitStep, Xor;
    if n > 0 {
      TurnsLinear(u, v, n - 1);
      BitStepLinear(Turns(u, n - 1), Turns(v, n - 1));
    }
  }

  /** A byte fed into an empty register comes out, eight turns later, eight places up. */
  lemma {:induction false} LowByteTurns(y: word16, n: nat)
    requires Shl(y, n) < 0x1_0000
    ensures Turns(y, n) == Shl(y, n)
  {
    hide Xor;
    if n > 0 {
      LowByteTurns(y, n - 1);
    }
  }

  lemma Shl8(y: nat)
    ensures Shl(y, 8) == 0x100 * y
  {
    assert Shl(y, 1) == 2 * y;
    assert Shl(y, 2) == 4 * y;
    assert Shl(y, 4) == 0x10 * y;
    assert Shl(y, 6) == 0x40 * y;
  }

  /** Two bytes act on the register as one 16-bit word and sixteen turns. */
  lemma TwoBytesAsWord(c: word16, x: byte, y: byte)
    ensures ByteStep(ByteStep(c, x), y) == Turns(Xor16(c, 0x100 * (x as int) + y), 16)
  {
    hide Xor, Turns;
    var hx: word16 := 0x100 * (x as int);
    var hy: word16 := 0x100 * (y as int);
    var u := Xor16(c, hx);
    Shl8(y);
    LowByteTurns(y, 8);
    TurnsLinear(u, y, 8);
    TurnsAdd(Xor16(u, y), 8, 8);
    XorAssoc16(c, hx, y);
    Words();
    Shl8(x);
    XorDisjoint(x, y, 8);
  }

  // ----- error detection -----

  /** The same bytes except for the two at i and i+1. */
  ghost predicate DifferInWindow(s: seq<byte>, t: seq<byte>, i: nat) {
    && |s| == |t|
    && i + 2 <= |s|
    && s[..i] == t[..i]
    && s[i + 2..] == t[i + 2..]
    && s[i..i + 2] != t[i..i + 2]
  }

  lemma FoldWindow(s: seq<byte>, i: nat)
    requires i + 2 <= |s|
    ensures Fold(INIT, s)
         == Fold(Turns(Xor16(Fold(INIT, s[..i]), 0x100 * (s[i] as int) + s[i + 1]), 16), s[i + 2..])
  {
    hide ByteStep, Turns;
    var c := Fold(INIT, s[..i]);
    assert s == s[..i] + s[i..i + 2] + s[i + 2..];
    FoldConcat(INIT, s[..i] + s[i..i + 2], s[i + 2..]);
    FoldConcat(INIT, s[..i], s[i..i + 2]);
    var two := s[i..i + 2];
    assert two[..1] == [s[i]] && two[1] == s[i + 1];
    assert [s[i]][..0] == [];
    assert Fold(c, two[..1]) == ByteStep(c, s[i]);
    assert Fold(c, two) == ByteStep(ByteStep(c, s[i]), s[i + 1]);
    TwoBytesAsWord(c, s[i], s[i + 1]);
  }

  lemma SameCrcSameWindow(s: seq<byte>, t: seq<byte>, i: nat)
    requires |s| == |t| && i + 2 <= |s|
    requires s[..i] == t[..i] && s[i + 2..] == t[i + 2..]
    requires Crc(s) == Crc(t)
    ensures s[i] == t[i] && s[i + 1] == t[i + 1]
  {
    hide Xor, Turns, ByteStep;
    var c := Fold(INIT, s[..i]);
    var x: word16, y: word16 := 0x100 * (s[i] as int) + s[i + 1], 0x100 * (t[i] as int) + t[i + 1];
    FoldWindow(s, i);
    FoldWindow(t, i);
    FoldInjective(Turns(Xor16(c, x), 16), Turns(Xor16(c, y), 16), s[i + 2..]);
    TurnsInjective(Xor16(c, x), Xor16(c, y), 16);
    XorComm16(c, x);
    XorComm16(c, y);
    XorInjective(x, y, c);
  }

  /**
   Bodies of any one length that differ only within two adjacent bytes (so within
   any burst that two bytes cover) never have the same checksum.
   */
  lemma WindowChangesCrc(s: seq<byte>, t: seq<byte>, i: nat)
    requires DifferInWindow(s, t, i)
    ensures Crc(s) != Crc(t)
  {
    assert s[i..i + 2] == [s[i], s[i + 1]] && t[i..i + 2] == [t[i], t[i + 1]];
    if Crc(s) == Crc(t) {
      SameCrcSameWindow(s, t, i);
    }
  }
}
