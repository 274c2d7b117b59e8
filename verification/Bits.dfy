/** Exclusive or and left shift of unsigned words. */
module Bits {

  function Xor(a: nat, b: nat): (r: nat)
    decreases a + b
  {
    if a == 0 && b == 0 then 0 else (a % 2 + b % 2) % 2 + 2 * Xor(a / 2, b / 2)
  }

  function Pow2(k: nat): (p: nat)
    ensures p >= 1
  {
    if k == 0 then 1 else 2 * Pow2(k - 1)
  }

  /** a shifted left by k, nothing lost. */
  function Shl(a: nat, k: nat): nat {
    if k == 0 then a else 2 * Shl(a, k - 1)
  }

  lemma XorHalves(a: nat, b: nat)
    ensures Xor(a, b) / 2 == Xor(a / 2, b / 2)
    ensures Xor(a, b) % 2 == (a % 2 + b % 2) % 2
  {
  }

  lemma XorFromHalves(a: nat, b: nat, r: nat)
    requires r % 2 == (a % 2 + b % 2) % 2
    requires r / 2 == Xor(a / 2, b / 2)
    ensures r == Xor(a, b)
  {
    XorHalves(a, b);
  }

  lemma {:induction false} XorZero(a: nat)
    ensures Xor(a, 0) == a
  {
    if a > 0 {
      XorZero(a / 2);
    }
  }

  lemma {:induction false} XorComm(a: nat, b: nat)
    ensures Xor(a, b) == Xor(b, a)
    decreases a + b
  {
    if a + b > 0 {
      XorComm(a / 2, b / 2);
    }
  }

  lemma Parity(a: nat, b: nat, c: nat)
    ensures ((a % 2 + b % 2) % 2 + c % 2) % 2 == (a % 2 + (b % 2 + c % 2) % 2) % 2
  {
  }

  lemma {:induction false} XorAssoc(a: nat, b: nat, c: nat)
    ensures Xor(Xor(a, b), c) == Xor(a, Xor(b, c))
    decreases a + b + c
  {
    if a + b + c > 0 {
      var left, right := Xor(a, b), Xor(b, c);
      assert left / 2 == Xor(a / 2, b / 2) && left % 2 == (a % 2 + b % 2) % 2 by { XorHalves(a, b); }
      assert right / 2 == Xor(b / 2, c / 2) && right % 2 == (b % 2 + c % 2) % 2 by { XorHalves(b, c); }
      XorAssoc(a / 2, b / 2, c / 2);
      hide Xor;
      var r := Xor(left, c);
      assert r / 2 == Xor(left / 2, c / 2) && r % 2 == (left % 2 + c % 2) % 2 by { XorHalves(left, c); }
      Parity(a, b, c);
      XorFromHalves(a, right, r);
    }
  }

  lemma {:induction false} XorSelf(a: nat)
    ensures Xor(a, a) == 0
  {
    if a > 0 {
      XorSelf(a / 2);
    }
  }

  lemma XorCancel(a: nat, b: nat)
    ensures Xor(Xor(a, b), b) == a
  {
    XorAssoc(a, b, b);
    XorSelf(b);
    XorZero(a);
  }

  lemma XorInjective(a: nat, b: nat, x: nat)
    requires Xor(a, x) == Xor(b, x)
    ensures a == b
  {
    XorCancel(a, x);
    XorCancel(b, x);
  }

  lemma {:induction false} XorBound(a: nat, b: nat, k: nat)
    requires a < Pow2(k) && b < Pow2(k)
    ensures Xor(a, b) < Pow2(k)
  {
    if k > 0 {
      XorBound(a / 2, b / 2, k - 1);
      XorHalves(a, b);
    }
  }

  /** Bit k of an exclusive or of two words of k+1 bits. */
  lemma {:induction false} XorTop(a: nat, b: nat, k: nat)
    requires a < 2 * Pow2(k) && b < 2 * Pow2(k)
    ensures Xor(a, b) >= Pow2(k) <==> (a >= Pow2(k)) != (b >= Pow2(k))
  {
    XorHalves(a, b);
    if k > 0 {
      XorTop(a / 2, b / 2, k - 1);
    } else {
      XorBound(a, b, 1);
    }
  }

  /** Clearing the top bit commutes with exclusive or. */
  lemma {:induction false} XorDropTop(a: nat, b: nat, k: nat)
    requires Pow2(k) <= a < 2 * Pow2(k) && b < Pow2(k)
    ensures Xor(a, b) == Pow2(k) + Xor(a - Pow2(k), b)
  {
    hide Xor;
    var low := a - Pow2(k);
    if k == 0 {
      XorZero(1);
      XorZero(0);
    } else {
      XorDropTop(a / 2, b / 2, k - 1);
      XorHalves(low, b);
      assert low / 2 == a / 2 - Pow2(k - 1) && low % 2 == a % 2;
      XorFromHalves(a, b, Pow2(k) + Xor(low, b));
    }
  }

  lemma XorDouble(a: nat, b: nat)
    ensures Xor(2 * a, 2 * b) == 2 * Xor(a, b)
  {
    hide Xor;
    XorHalves(2 * a, 2 * b);
    assert 2 * a / 2 == a && 2 * b / 2 == b && 2 * a % 2 == 0 && 2 * b % 2 == 0;
  }

  /** Words with disjoint bits: exclusive or is addition. */
  lemma {:induction false} XorDisjoint(a: nat, b: nat, k: nat)
    requires b < Pow2(k)
    ensures Xor(Shl(a, k), b) == Shl(a, k) + b
  {
    if k == 0 {
      XorZero(a);
    } else {
      XorDisjoint(a, b / 2, k - 1);
      XorHalves(Shl(a, k), b);
    }
  }
}
