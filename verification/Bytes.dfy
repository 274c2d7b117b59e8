/** Bytes and little-endian integers, as every codec of the link uses them. */
module Bytes {

  type byte = x: int | 0 <= x < 256

  /** 256 to the n-th: the number of values an n-byte field can hold. */
  function Pow256(n: nat): (p: nat)
    ensures p >= 1
  {
    if n == 0 then 1 else 256 * Pow256(n - 1)
  }

  /** The value of a little-endian byte string. */
  function FromLe(s: seq<byte>): (v: nat) {
    if |s| == 0 then 0 else s[0] + 256 * FromLe(s[1..])
  }

  /** The n-byte little-endian representation of v, truncated to n bytes. */
  function ToLe(v: nat, n: nat): (s: seq<byte>)
    ensures |s| == n
  {
    if n == 0 then [] else [v % 256] + ToLe(v / 256, n - 1)
  }

  lemma {:induction false} FromLeBound(s: seq<byte>)
    ensures FromLe(s) < Pow256(|s|)
  {
    if |s| > 0 {
      FromLeBound(s[1..]);
    }
  }

  /** Writing a value that fits and reading it back gives the value. */
  lemma {:induction false} FromToLe(v: nat, n: nat)
    requires v < Pow256(n)
    ensures FromLe(ToLe(v, n)) == v
  {
    if n > 0 {
      FromToLe(v / 256, n - 1);
      assert ToLe(v, n)[1..] == ToLe(v / 256, n - 1);
    }
  }

  /** Reading a field and writing it back gives the same bytes. */
  lemma {:induction false} ToFromLe(s: seq<byte>)
    ensures ToLe(FromLe(s), |s|) == s
  {
    if |s| > 0 {
      ToFromLe(s[1..]);
      var v := FromLe(s[1..]);
      assert (s[0] + 256 * v) % 256 == s[0] && (s[0] + 256 * v) / 256 == v;
    }
  }

  lemma FieldWidths()
    ensures Pow256(1) == 0x100 && Pow256(2) == 0x1_0000 && Pow256(4) == 0x1_0000_0000
    ensures Pow256(8) == 0x1_0000_0000_0000_0000
  {
    assert Pow256(3) == 0x100_0000;
    assert Pow256(5) == 0x100_0000_0000;
    assert Pow256(6) == 0x1_0000_0000_0000;
    assert Pow256(7) == 0x100_0000_0000_0000;
  }

  /** The shift-and-or expression the C sources use for two bytes. */
  lemma FromLe2(s: seq<byte>)
    requires |s| == 2
    ensures FromLe(s) == (s[0] as int) + 0x100 * (s[1] as int)
  {
    assert FromLe(s[1..]) == s[1] + 256 * FromLe(s[1..][1..]);
  }

  /** The shift-and-or expression the C sources use for four bytes. */
  lemma FromLe4(s: seq<byte>)
    requires |s| == 4
    ensures FromLe(s) == (s[0] as int) + 0x100 * (s[1] as int) + 0x1_0000 * (s[2] as int) + 0x100_0000 * (s[3] as int)
  {
    FromLe2(s[2..]);
    assert s[1..][1..] == s[2..];
    assert FromLe(s[1..]) == s[1] + 256 * FromLe(s[1..][1..]);
  }

  lemma ToLe2(v: nat)
    ensures ToLe(v, 2) == [v % 0x100, v / 0x100 % 0x100]
  {
    assert ToLe(v / 256, 1) == [v / 256 % 256] + ToLe(v / 256 / 256, 0);
  }

  lemma ToLe4(v: nat)
    requires v < 0x1_0000_0000
    ensures ToLe(v, 4) == [v % 0x100, v / 0x100 % 0x100, v / 0x1_0000 % 0x100, v / 0x100_0000 % 0x100]
  {
    ToLe2(v / 0x1_0000);
    assert ToLe(v / 256, 3) == [v / 256 % 256] + ToLe(v / 256 / 256, 2);
  }
}
