/** Bits of numbers, for what the kernel writes with shifts and masks. */
module Bits {
  /** `1 << k` */
  function Mask(k: nat): (m: nat)
    ensures m > 0
  {
    if k == 0 then 1 else 2 * Mask(k - 1)
  }

  /** `(x & (1 << k)) != 0` */
  predicate Bit(x: nat, k: nat) {
    if k == 0 then x % 2 == 1 else Bit(x / 2, k - 1)
  }

  /** `x | (1 << k)` or `x & ~(1 << k)`, for `x` of `w` bits. */
  function WithBit(x: nat, k: nat, v: bool, w: nat): (y: nat)
    requires k < w && x < Mask(w)
    ensures y < Mask(w)
  {
    if k == 0 then x / 2 * 2 + (if v then 1 else 0) else 2 * WithBit(x / 2, k - 1, v, w - 1) + x % 2
  }

  lemma {:induction false} WithBitAt(x: nat, k: nat, v: bool, w: nat, j: nat)
    requires k < w && x < Mask(w)
    ensures Bit(WithBit(x, k, v, w), j) == if j == k then v else Bit(x, j)
  {
    if k > 0 && j > 0 { WithBitAt(x / 2, k - 1, v, w - 1, j - 1); }
  }

  lemma ByteMask()
    ensures Mask(8) == 256
  {
    assert Mask(4) == 16;
  }

  /** A number put together from `a << m` and `b`: `a` and `b` are what a shift and a mask take out. */
  lemma {:induction false} BitJoined(a: nat, b: nat, m: nat, k: nat)
    requires b < Mask(m)
    ensures Bit(a * Mask(m) + b, k) == if k < m then Bit(b, k) else Bit(a, k - m)
  {
    if m > 0 {
      var n := Mask(m - 1);
      assert a * Mask(m) + b == 2 * (a * n + b / 2) + b % 2;
      if k > 0 { BitJoined(a, b / 2, m - 1, k - 1); }
    }
  }

  lemma {:induction false} NoBits(k: nat)
    ensures !Bit(0, k)
  {
    if k > 0 { NoBits(k - 1); }
  }

  lemma HighBits(b: nat, m: nat, k: nat)
    requires b < Mask(m) && k >= m
    ensures !Bit(b, k)
  {
    BitJoined(0, b, m, k);
    NoBits(k - m);
  }
}
