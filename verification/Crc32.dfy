/** The reflected CRC-32 of clause 3.2.9 of IEEE 802.3, which guards the payload of a GLCP frame. */
module Crc32 {
  import opened Bytes
  import opened Bits

  type word32 = x: int | 0 <= x < 0x1_0000_0000

  const POLY: word32 := 0xEDB8_8320
  const INIT: word32 := 0xFFFF_FFFF

  lemma Words()
    ensures Pow2(8) == 0x100 && Pow2(31) == 0x8000_0000 && Pow2(32) == 0x1_0000_0000
  {
    assert Pow2(8) == 0x100;
    assert Pow2(16) == 0x100 * Pow2(8);
    assert Pow2(24) == 0x100 * Pow2(16);
    assert Pow2(31) == 0x80 * Pow2(24);
  }

  function Mix(a: word32, b: word32): (r: word32)
    ensures r == Xor(a, b)
  {
    Words();
    XorBound(a, b, 32);
    Xor(a, b)
  }

  /** One turn of the inner loop. */
  function BitStep(c: word32): word32 {
    if c % 2 == 1 then Mix(c / 2, POLY) else c / 2
  }

  /** The register after n turns. */
  function Turns(c: word32, n: nat): word32 {
    if n == 0 then c else BitStep(Turns(c, n - 1))
  }

  function ByteStep(c: word32, b: byte): word32 {
    Turns(Mix(c, b), 8)
  }

  function Fold(c: word32, s: seq<byte>): word32 {
    if |s| == 0 then c else ByteStep(Fold(c, s[..|s| - 1]), s[|s| - 1])
  }

  /** The checksum, inverted at the end. */
  function Crc(s: seq<byte>): (r: word32) {
    0xFFFF_FFFF - Fold(INIT, s)
  }

  method ComputeCrc(data: array<byte>, from: nat, length: nat) returns (crc: word32)
    requires from + length <= data.Length
    ensures crc == Crc(data[from..from + length])
  {
    var c: word32 := 0xFFFF_FFFF;
    ghost var s := data[from..from + length];
    for i := 0 to length
      invariant c == Fold(INIT, s[..i])
    {
      c := Mix(c, data[from + i]);
      ghost var mixed := c;
      for bit := 0 to 8
        invariant c == Turns(mixed, bit)
      {
        if c % 2 != 0 {
          c := Mix(c / 2, 0xEDB8_8320);
        } else {
          c := c / 2;
        }
      }
      assert s[..i + 1][..i] == s[..i];
    }
    assert s[..length] == s;
    crc := 0xFFFF_FFFF - c;
  }

  // ----- a turn loses nothing, and is linear -----

  lemma BitStepInjective(a: word32, b: word32)
    requires BitStep(a) == BitStep(b)
    ensures a == b
  {
    hide Xor;
    Words();
    XorTop(a / 2, POLY, 31);
    XorTop(b / 2, POLY, 31);
    if a % 2 == 1 && b % 2 == 1 {
      XorInjective(a / 2, b / 2, POLY);
    }
  }

  lemma {:induction false} TurnsInjective(a: word32, b: word32, n: nat)
    requires Turns(a, n) == Turns(b, n)
    ensures a == b
  {
    hide BitStep;
    if n > 0 {
      BitStepInjective(Turns(a, n - 1), Turns(b, n - 1));
      TurnsInjective(a, b, n - 1);
    }
  }

  lemma XorSwap(a: nat, b: nat, p: nat)
    ensures Xor(Xor(a, p), b) == Xor(Xor(a, b), p)
  {
    hide Xor;
    XorAssoc(a, p, b);
    XorComm(p, b);
    XorAssoc(a, b, p);
  }

  lemma XorPair(a: nat, b: nat, p: nat)
    ensures Xor(Xor(a, p), Xor(b, p)) == Xor(a, b)
  {
    hide Xor;
    XorAssoc(a, p, Xor(b, p));
    XorComm(p, Xor(b, p));
    XorCancel(b, p);
  }

  lemma BitStepLinear(a: word32, b: word32)
    ensures BitStep(Mix(a, b)) == Mix(BitStep(a), BitStep(b))
  {
    hide Xor;
    var u, v, m := a / 2, b / 2, Mix(a, b);
    assert m / 2 == Xor(u, v) && m % 2 == (a % 2 + b % 2) % 2 by { XorHalves(a, b); }
    if a % 2 == 1 {
      if b % 2 == 1 {
        XorPair(u, v, POLY);
      } else {
        XorSwap(u, v, POLY);
      }
    } else if b % 2 == 1 {
      XorAssoc(u, v, POLY);
    }
  }

  lemma {:induction false} TurnsLinear(a: word32, b: word32, n: nat)
    ensures Turns(Mix(a, b), n) == Mix(Turns(a, n), Turns(b, n))
  {
    hide BitStep, Mix;
    if n > 0 {
      TurnsLinear(a, b, n - 1);
      BitStepLinear(Turns(a, n - 1), Turns(b, n - 1));
    }
  }

  lemma {:induction false} TurnsAdd(c: word32, m: nat, n: nat)
    ensures Turns(Turns(c, m), n) == Turns(c, m + n)
  {
    hide BitStep;
    if n > 0 {
      TurnsAdd(c, m, n - 1);
    }
  }

  /** Low zero bits are shifted out unseen. */
  lemma {:induction false} TurnsShift(v: nat, n: nat)
    requires v * Pow2(n) < 0x1_0000_0000
    ensures Turns(v * Pow2(n), n) == v
    decreases n
  {
    hide Mix;
    if n > 0 {
      assert v * Pow2(n) == 2 * v * Pow2(n - 1);
      TurnsShift(2 * v, n - 1);
      assert Turns(v * Pow2(n), n - 1) == 2 * v;
    }
  }

  lemma {:induction false} ShlByPow(v: nat, k: nat)
    ensures Shl(v, k) == v * Pow2(k)
  {
    if k > 0 {
      ShlByPow(v, k - 1);
    }
  }

  /** A byte under a shifted word is mixed in by addition. */
  lemma LowByte(v: nat, b: byte)
    ensures Xor(b, 0x100 * v) == b + 0x100 * v
  {
    hide Xor;
    Words();
    ShlByPow(v, 8);
    XorDisjoint(v, b, 8);
    XorComm(b, 0x100 * v);
  }

  // ----- four bytes as one word -----

  lemma {:induction false} FoldFront(c: word32, b: byte, s: seq<byte>)
    ensures Fold(c, [b] + s) == Fold(ByteStep(c, b), s)
  {
    hide ByteStep;
    if |s| == 0 {
      assert [b] + s == [b];
      assert [b][..0] == [];
      assert Fold(c, []) == c;
    } else {
      FoldFront(c, b, s[..|s| - 1]);
      assert ([b] + s)[..|s|] == [b] + s[..|s| - 1];
    }
  }

  lemma {:induction false} FoldConcat(c: word32, s: seq<byte>, t: seq<byte>)
    ensures Fold(c, s + t) == Fold(Fold(c, s), t)
  {
    hide ByteStep;
    if |t| == 0 {
      assert s + t == s;
    } else {
      FoldConcat(c, s, t[..|t| - 1]);
      assert (s + t)[..|s + t| - 1] == s + t[..|t| - 1];
    }
  }

  lemma {:induction false} FoldInjective(a: word32, b: word32, s: seq<byte>)
    requires Fold(a, s) == Fold(b, s)
    ensures a == b
  {
    hide Turns, Xor;
    if |s| > 0 {
      var last := s[|s| - 1];
      var a1, b1 := Fold(a, s[..|s| - 1]), Fold(b, s[..|s| - 1]);
      TurnsInjective(Mix(a1, last), Mix(b1, last), 8);
      XorInjective(a1, b1, last);
      FoldInjective(a, b, s[..|s| - 1]);
    }
  }

  /** Up to four bytes go in like one word of 32 bits. */
  lemma {:induction false} BytesAsWord(c: word32, s: seq<byte>)
    requires |s| <= 4
    ensures FromLe(s) < 0x1_0000_0000
    ensures Fold(c, s) == Turns(Mix(c, FromLe(s)), 8 * |s|)
    decreases |s|
  {
    hide Turns, Xor, BitStep;
    FieldWidths();
    FromLeBound(s);
    if |s| == 0 {
      XorZero(c);
      assert Turns(c, 0) == c by { TurnsNone(c); }
    } else {
      var b, t := s[0], s[1..];
      var v := FromLe(t);
      FromLeBound(t);
      assert v < 0x100_0000;
      assert s == [b] + t;
      FoldFront(c, b, t);
      BytesAsWord(ByteStep(c, b), t);
      Words();
      TurnsShift(v, 8);
      TurnsLinear(Mix(c, b), v * 0x100, 8);
      XorAssoc(c, b, v * 0x100);
      LowByte(v, b);
      assert Mix(Mix(c, b), v * 0x100) == Mix(c, FromLe(s));
      TurnsAdd(Mix(c, FromLe(s)), 8, 8 * |t|);
    }
  }

  lemma TurnsNone(c: word32)
    ensures Turns(c, 0) == c
  {
  }

  /** Same checksum, same start and end: then the four bytes (or fewer) between are the same. */
  lemma WindowChangesCrc(front: seq<byte>, a: seq<byte>, b: seq<byte>, back: seq<byte>)
    requires |a| == |b| <= 4
    requires Crc(front + a + back) == Crc(front + b + back)
    ensures a == b
  {
    hide Turns, Xor, ByteStep, Fold;
    var c := Fold(INIT, front);
    FoldConcat(INIT, front, a);
    FoldConcat(INIT, front, b);
    FoldConcat(INIT, front + a, back);
    FoldConcat(INIT, front + b, back);
    FoldInjective(Fold(c, a), Fold(c, b), back);
    BytesAsWord(c, a);
    BytesAsWord(c, b);
    TurnsInjective(Mix(c, FromLe(a)), Mix(c, FromLe(b)), 8 * |a|);
    XorComm(c, FromLe(a));
    XorComm(c, FromLe(b));
    XorInjective(FromLe(a), FromLe(b), c);
    ToFromLe(a);
    ToFromLe(b);
  }
}
