/** Damage over the last body byte and the first checksum byte of a link frame. */
module CrcStraddle {
  import opened Bytes
  import opened Bits
  import opened Crc16

  /** What a change of x in a byte does to the register after that byte. */
  function Effect(x: byte): word16 {
    Turns(0x100 * (x as int), 8)
  }

  lemma EffectDouble(x: byte)
    requires x < 0x80
    ensures Effect(2 * x) == BitStep(Effect(x))
  {
    var w: word16 := 0x100 * (x as int);
    assert Turns(w, 0) == w;
    assert Turns(w, 1) == 2 * w;
    TurnsAdd(w, 1, 8);
    assert Turns(w, 9) == BitStep(Turns(w, 8));
  }

  lemma EffectLinear(a: byte, b: byte, x: byte)
    requires Xor(a, b) == x
    ensures Effect(x) == Xor16(Effect(a), Effect(b))
  {
    hide Xor, Turns;
    Shl8(a);
    Shl8(b);
    Shl8(x);
    ShlXor(a, b, 8);
    TurnsLinear(0x100 * (a as int), 0x100 * (b as int), 8);
  }

  lemma {:induction false} ShlXor(a: nat, b: nat, k: nat)
    ensures Xor(Shl(a, k), Shl(b, k)) == Shl(Xor(a, b), k)
  {
    if k > 0 {
      ShlXor(a, b, k - 1);
      XorDouble(Shl(a, k - 1), Shl(b, k - 1));
    }
  }

  lemma EffectOne(one: byte)
    requires one == 1
    ensures Effect(one) == POLY
  {
    var w: word16 := 0x100 * one;
    assert Shl(w, 1) == 0x200;
    assert Shl(w, 3) == 0x800;
    assert Shl(w, 5) == 0x2000;
    assert Shl(w, 7) == 0x8000;
    LowByteTurns(w, 7);
    XorComm16(0, POLY);
    XorZero(POLY);
    assert Turns(w, 8) == BitStep(Turns(w, 7));
  }

  function Bit(w: nat, k: nat): (b: nat) {
    if k == 0 then w % 2 else Bit(w / 2, k - 1)
  }

  lemma {:induction false} BitXor(a: nat, b: nat, k: nat)
    ensures Bit(Xor(a, b), k) == (Bit(a, k) + Bit(b, k)) % 2
  {
    hide Xor;
    XorHalves(a, b);
    if k > 0 {
      BitXor(a / 2, b / 2, k - 1);
    }
  }

  lemma {:induction false} HighBitsClear(w: nat, m: nat, k: nat)
    requires w < Pow2(m) && m <= k
    ensures Bit(w, k) == 0
  {
    if m > 0 {
      HighBitsClear(w / 2, m - 1, k - 1);
    } else if k > 0 {
      HighBitsClear(0, 0, k - 1);
    }
  }

  lemma NextBit(x: byte, e: word16, r: word16)
    requires x < 0x80 && Effect(x) == e
    requires r == if e >= 0x8000 then Xor(2 * e - 0x1_0000, POLY) else 2 * e
    ensures Effect(2 * x) == r
  {
    hide Effect, Xor;
    EffectDouble(x);
  }

  lemma XorReduced()
    ensures Xor(0x210, 0x1021) == 0x1231
  {
    hide Xor;
    XorZero(0);
    XorFromHalves(0x0, 0x1, 0x1);
    XorFromHalves(0x0, 0x2, 0x2);
    XorFromHalves(0x0, 0x4, 0x4);
    XorFromHalves(0x1, 0x8, 0x9);
    XorFromHalves(0x2, 0x10, 0x12);
    XorFromHalves(0x4, 0x20, 0x24);
    XorFromHalves(0x8, 0x40, 0x48);
    XorFromHalves(0x10, 0x81, 0x91);
    XorFromHalves(0x21, 0x102, 0x123);
    XorFromHalves(0x42, 0x204, 0x246);
    XorFromHalves(0x84, 0x408, 0x48C);
    XorFromHalves(0x108, 0x810, 0x918);
    XorFromHalves(0x210, 0x1021, 0x1231);
  }

  /** What a change of bit i of a byte does to the register after that byte. */
  function SingleBit(i: nat): word16 {
    match i
    case 0 => 0x1021
    case 1 => 0x2042
    case 2 => 0x4084
    case 3 => 0x8108
    case 4 => 0x1231
    case 5 => 0x2462
    case 6 => 0x48C4
    case _ => 0x9188
  }

  lemma {:induction false} SingleBitEffect(i: nat)
    requires i < 8
    ensures Pow2(i) <= 0x80
    ensures i < 7 ==> Pow2(i) <= 0x40
    ensures Effect(Pow2(i)) == SingleBit(i)
  {
    hide Effect, Xor;
    Words();
    if i == 0 {
      EffectOne(Pow2(i));
    } else {
      SingleBitEffect(i - 1);
      XorReduced();
      NextBit(Pow2(i - 1), SingleBit(i - 1), SingleBit(i));
    }
  }

  lemma PowerDisjoint(p: nat, i: nat)
    requires p < Pow2(i)
    ensures Xor(Pow2(i), p) == Pow2(i) + p
  {
    hide Xor;
    ShlOne(i);
    XorDisjoint(1, p, i);
  }

  lemma {:induction false} ShlOne(i: nat)
    ensures Shl(1, i) == Pow2(i)
  {
    if i > 0 {
      ShlOne(i - 1);
    }
  }

  /** Adding bits to a byte adds their effects. */
  lemma AddBits(q: byte, p: byte, r: byte, k: nat)
    requires r == q as int + p as int && Xor(q, p) == r
    ensures Bit(Effect(r), k) == (Bit(Effect(q), k) + Bit(Effect(p), k)) % 2
  {
    hide Effect, Xor, Bit;
    EffectLinear(q, p, r);
    BitXor(Effect(q), Effect(p), k);
  }

  lemma AddBit(p: byte, i: nat, x: byte, k: nat)
    requires i < 8 && p < Pow2(i) && x == Pow2(i) + p
    ensures Bit(Effect(x), k) == (Bit(SingleBit(i), k) + Bit(Effect(p), k)) % 2
  {
    hide Effect, Xor, Bit;
    SingleBitEffect(i);
    PowerDisjoint(p, i);
    AddBits(Pow2(i), p, x, k);
  }

  /** Bit k of the register is untouched by each of the i lowest bits of a byte. */
  ghost predicate Untouched(i: nat, k: nat) {
    forall j :: 0 <= j < i ==> Bit(SingleBit(j), k) == 0
  }

  lemma {:induction false} UntouchedClear(x: byte, i: nat, k: nat)
    requires i <= 8 && x < Pow2(i) && Untouched(i, k)
    ensures Bit(Effect(x), k) == 0
  {
    hide Effect, Xor, Bit, SingleBit;
    if i == 0 {
      EffectZero();
      HighBitsClear(0, 0, k);
    } else if x < Pow2(i - 1) {
      UntouchedClear(x, i - 1, k);
    } else {
      var p := x - Pow2(i - 1);
      UntouchedClear(p, i - 1, k);
      AddBit(p, i - 1, x, k);
    }
  }

  lemma EffectZero()
    ensures Effect(0) == 0
  {
    Shl8(0);
    LowByteTurns(0, 8);
  }

  /** If bit k shows bit i and no lower one, and is clear, then bit i was clear. */
  lemma Peel(x: byte, i: nat, k: nat)
    requires i < 8 && x < Pow2(i + 1)
    requires Untouched(i, k) && Bit(SingleBit(i), k) == 1
    requires Bit(Effect(x), k) == 0
    ensures x < Pow2(i)
  {
    hide Effect, Xor, Bit;
    if x >= Pow2(i) {
      var p := x - Pow2(i);
      UntouchedClear(p, i, k);
      AddBit(p, i, x, k);
    }
  }

  lemma {:induction false} TopBit(w: nat, k: nat)
    requires Pow2(k) <= w < 2 * Pow2(k)
    ensures Bit(w, k) == 1
  {
    if k > 0 {
      TopBit(w / 2, k - 1);
    }
  }

  lemma Powers()
    ensures Pow2(12) == 0x1000 && Pow2(13) == 0x2000 && Pow2(14) == 0x4000
  {
    assert Pow2(8) == 0x100;
  }

  lemma Position6()
    ensures Untouched(6, 11) && Bit(SingleBit(6), 11) == 1
  {
    assert Bit(0x1021, 11) == 0;
    assert Bit(0x2042, 11) == 0;
    assert Bit(0x4084, 11) == 0;
    assert Bit(0x8108, 11) == 0;
    assert Bit(0x1231, 11) == 0;
    assert Bit(0x2462, 11) == 0;
    assert Bit(0x48C4, 11) == 1;
  }

  lemma Position5()
    ensures Untouched(5, 10) && Bit(SingleBit(5), 10) == 1
  {
    assert Bit(0x1021, 10) == 0;
    assert Bit(0x2042, 10) == 0;
    assert Bit(0x4084, 10) == 0;
    assert Bit(0x8108, 10) == 0;
    assert Bit(0x1231, 10) == 0;
    assert Bit(0x2462, 10) == 1;
  }

  lemma Position4()
    ensures Untouched(4, 9) && Bit(SingleBit(4), 9) == 1
  {
    assert Bit(0x1021, 9) == 0;
    assert Bit(0x2042, 9) == 0;
    assert Bit(0x4084, 9) == 0;
    assert Bit(0x8108, 9) == 0;
    assert Bit(0x1231, 9) == 1;
  }

  lemma Position3()
    ensures Untouched(3, 8) && Bit(SingleBit(3), 8) == 1
  {
    assert Bit(0x1021, 8) == 0;
    assert Bit(0x2042, 8) == 0;
    assert Bit(0x4084, 8) == 0;
    assert Bit(0x8108, 8) == 1;
  }

  lemma Position2()
    ensures Untouched(2, 14) && Bit(SingleBit(2), 14) == 1
  {
    Powers();
    hide Bit;
    HighBitsClear(0x1021, 14, 14);
    HighBitsClear(0x2042, 14, 14);
    TopBit(0x4084, 14);
  }

  lemma Position1()
    ensures Untouched(1, 13) && Bit(SingleBit(1), 13) == 1
  {
    Powers();
    hide Bit;
    HighBitsClear(0x1021, 13, 13);
    TopBit(0x2042, 13);
  }

  lemma Position0()
    ensures Untouched(0, 12) && Bit(SingleBit(0), 12) == 1
  {
    Powers();
    hide Bit;
    TopBit(0x1021, 12);
  }

  /** A change confined to the low seven bits of a byte always reaches the upper half of the register. */
  lemma LowSevenReachHigh(x: byte)
    requires x < 0x80 && Effect(x) < 0x100
    ensures x == 0
  {
    hide Effect, Xor, Bit, SingleBit, Untouched;
    forall k: nat | 8 <= k
      ensures Bit(Effect(x), k) == 0
    {
      Words();
      HighBitsClear(Effect(x), 8, k);
    }
    assert Pow2(7) == 0x80;
    Position6();
    Peel(x, 6, 11);
    Position5();
    Peel(x, 5, 10);
    Position4();
    Peel(x, 4, 9);
    Position3();
    Peel(x, 3, 8);
    Position2();
    Peel(x, 2, 14);
    Position1();
    Peel(x, 1, 13);
    Position0();
    Peel(x, 0, 12);
  }

  lemma XorHole()
    ensures Xor(0x8108, 0x1021) == 0x9129
  {
    hide Xor;
    XorZero(0);
    XorFromHalves(0x1, 0x0, 0x1);
    XorFromHalves(0x2, 0x0, 0x2);
    XorFromHalves(0x4, 0x0, 0x4);
    XorFromHalves(0x8, 0x1, 0x9);
    XorFromHalves(0x10, 0x2, 0x12);
    XorFromHalves(0x20, 0x4, 0x24);
    XorFromHalves(0x40, 0x8, 0x48);
    XorFromHalves(0x81, 0x10, 0x91);
    XorFromHalves(0x102, 0x20, 0x122);
    XorFromHalves(0x204, 0x40, 0x244);
    XorFromHalves(0x408, 0x81, 0x489);
    XorFromHalves(0x810, 0x102, 0x912);
    XorFromHalves(0x1021, 0x204, 0x1225);
    XorFromHalves(0x2042, 0x408, 0x244A);
    XorFromHalves(0x4084, 0x810, 0x4894);
    XorFromHalves(0x8108, 0x1021, 0x9129);
  }

  lemma XorHoleEffect()
    ensures Xor(0x9188, 0x9129) == 0xA1
  {
    hide Xor;
    XorZero(0);
    XorFromHalves(0x1, 0x1, 0x0);
    XorFromHalves(0x2, 0x2, 0x0);
    XorFromHalves(0x4, 0x4, 0x0);
    XorFromHalves(0x9, 0x9, 0x0);
    XorFromHalves(0x12, 0x12, 0x0);
    XorFromHalves(0x24, 0x24, 0x0);
    XorFromHalves(0x48, 0x48, 0x0);
    XorFromHalves(0x91, 0x91, 0x0);
    XorFromHalves(0x123, 0x122, 0x1);
    XorFromHalves(0x246, 0x244, 0x2);
    XorFromHalves(0x48C, 0x489, 0x5);
    XorFromHalves(0x918, 0x912, 0xA);
    XorFromHalves(0x1231, 0x1225, 0x14);
    XorFromHalves(0x2462, 0x244A, 0x28);
    XorFromHalves(0x48C4, 0x4894, 0x50);
    XorFromHalves(0x9188, 0x9129, 0xA1);
  }

  /** The one change of a byte that leaves the upper half of the register alone. */
  lemma HoleEffect()
    ensures Effect(0x89) == 0xA1
  {
    SingleBitEffect(0);
    SingleBitEffect(3);
    SingleBitEffect(7);
    assert Pow2(0) == 1;
    assert Pow2(3) == 8;
    Words();
    assert Pow2(7) == 0x80;
    PowerDisjoint(1, 3);
    EffectLinear(8, 1, 9);
    XorHole();
    PowerDisjoint(9, 7);
    EffectLinear(0x80, 9, 0x89);
    XorHoleEffect();
  }

  lemma XorBytes(a: nat, b: nat)
    requires a < 0x100 && b < 0x100
    ensures Xor(a, b) < 0x100
  {
    hide Xor;
    Words();
    XorBound(a, b, 8);
  }

  /** The changes of a byte that leave the upper half of the register alone. */
  lemma LowEffects(x: byte)
    ensures Effect(x) < 0x100 <==> x == 0 || x == 0x89
    ensures Effect(0) == 0 && Effect(0x89) == 0xA1
  {
    hide Effect, Xor;
    EffectZero();
    HoleEffect();
    if Effect(x) < 0x100 {
      if x < 0x80 {
        LowSevenReachHigh(x);
      } else {
        XorBytes(x, 0x89);
        Words();
        assert Pow2(7) == 0x80;
        XorTop(x, 0x89, 7);
        EffectLinear(x, 0x89, Xor(x, 0x89));
        XorBytes(Effect(x), 0xA1);
        LowSevenReachHigh(Xor(x, 0x89));
        XorSelf(0x89);
        XorInjective(x, 0x89, 0x89);
      }
    }
  }

  lemma LastByteChange(s: seq<byte>, x: byte)
    requires |s| > 0
    ensures Xor(s[|s| - 1], x) < 0x100
    ensures Crc(s[..|s| - 1] + [x]) == Xor16(Crc(s), Effect(Xor(s[|s| - 1], x)))
  {
    hide Xor;
    var n := |s| - 1;
    var c := Fold(INIT, s[..n]);
    var d := Xor(s[n], x);
    XorBytes(s[n], x);
    assert (s[..n] + [x])[..n] == s[..n];
    Shl8(s[n]);
    Shl8(x);
    Shl8(d);
    ShlXor(s[n], d, 8);
    XorComm(s[n], x);
    XorCancel(x, s[n]);
    XorComm(d, s[n]);
    var h: word16, e: word16 := 0x100 * (s[n] as int), 0x100 * d;
    assert Xor16(h, e) == 0x100 * (x as int);
    XorAssoc16(c, h, e);
    TurnsLinear(Xor16(c, h), e, 8);
  }

  lemma LowByteChange(w: word16, lo: byte)
    ensures 0x100 * (w / 0x100) + lo == Xor(w, Xor(w % 0x100, lo))
  {
    hide Xor;
    var hi, old_lo := w / 0x100, w % 0x100;
    Words();
    Shl8(hi);
    XorDisjoint(hi, old_lo, 8);
    XorDisjoint(hi, lo, 8);
    XorAssoc(Shl(hi, 8), old_lo, Xor(old_lo, lo));
    XorComm(old_lo, lo);
    XorCancel(lo, old_lo);
    XorComm(old_lo, Xor(old_lo, lo));
    XorBytes(old_lo, lo);
  }

  /**
   The checksum is sent low byte first, so a burst over the last body byte and the
   first checksum byte is not contiguous for the code. A change of that window goes
   unnoticed exactly when it flips 0x89 in the body byte and 0xA1 in the checksum byte.
   */
  lemma StraddlingWindow(s: seq<byte>, x: byte, lo: byte)
    requires |s| > 0
    ensures (Crc(s[..|s| - 1] + [x]) == 0x100 * (Crc(s) / 0x100) + lo) <==>
            (|| (x == s[|s| - 1] && lo == Crc(s) % 0x100)
             || (Xor(s[|s| - 1], x) == 0x89 && Xor(Crc(s) % 0x100, lo) == 0xA1))
  {
    hide Xor, Effect, Crc;
    var n, w := |s| - 1, Crc(s);
    var d, e := Xor(s[n], x), Xor(w % 0x100, lo);
    LastByteChange(s, x);
    LowByteChange(w, lo);
    XorBytes(w % 0x100, lo);
    LowEffects(d);
    XorSelf(x);
    XorSelf(lo);
    if Xor(w, Effect(d)) == Xor(w, e) {
      XorComm16(w, Effect(d));
      XorComm16(w, e);
      XorInjective(Effect(d), e, w);
    }
    if d == 0 {
      XorInjective(s[n], x, x);
    }
    if e == 0 {
      XorInjective(w % 0x100, lo, lo);
    }
  }
}
