/** Unsigned words seen as strings of bits, with the `u64` operators that the replay window uses. */
module Bits {

  function Pow2(n: nat): (p: nat)
    ensures p >= 1
  {
    if n == 0 then 1 else 2 * Pow2(n - 1)
  }

  /** Bit `j` of `w`; the original tests `w & (1 << j) != 0`. */
  predicate Bit(w: nat, j: nat)
    decreases j
  {
    if j == 0 then w % 2 == 1 else Bit(w / 2, j - 1)
  }

  /** Bitwise or. */
  function Or(a: nat, b: nat): nat {
    if a == 0 then b
    else 2 * Or(a / 2, b / 2) + (if a % 2 == 1 || b % 2 == 1 then 1 else 0)
  }

  /** `w << k` on a 64-bit word: the bits pushed out at the top are lost. */
  function ShiftLeft(w: nat, k: nat): nat {
    (w * Pow2(k)) % Pow2(64)
  }

  /** `w >> k`: one bit falls off at the bottom each time. */
  function ShiftRight(w: nat, k: nat): nat {
    if k == 0 then w else ShiftRight(w / 2, k - 1)
  }

  lemma {:induction false} Remainder(a: nat, d: nat)
    requires d >= 1
    ensures a % d <= a && a == d * (a / d) + a % d
  {
  }

  lemma {:induction false} ZeroHasNoBits(j: nat)
    ensures !Bit(0, j)
  {
    if j > 0 { ZeroHasNoBits(j - 1); }
  }

  lemma {:induction false} OrBit(a: nat, b: nat, j: nat)
    ensures Bit(Or(a, b), j) == (Bit(a, j) || Bit(b, j))
    decreases j
  {
    if a == 0 {
      ZeroHasNoBits(j);
    } else if j > 0 {
      OrBit(a / 2, b / 2, j - 1);
      assert Or(a, b) / 2 == Or(a / 2, b / 2);
    }
  }

  lemma {:induction false} OrBound(a: nat, b: nat, n: nat)
    requires a < Pow2(n) && b < Pow2(n)
    ensures Or(a, b) < Pow2(n)
    decreases n
  {
    if a != 0 && n > 0 { OrBound(a / 2, b / 2, n - 1); }
  }

  lemma {:induction false} ModBit(w: nat, n: nat, j: nat)
    requires j < n
    ensures Bit(w % Pow2(n), j) == Bit(w, j)
    decreases n
  {
    var half := Pow2(n - 1);
    HalfMod(w, half);
    if j > 0 { ModBit(w / 2, n - 1, j - 1); }
  }

  lemma {:induction false} HalfMod(w: nat, half: nat)
    requires half > 0
    ensures (w % (2 * half)) % 2 == w % 2
    ensures (w % (2 * half)) / 2 == (w / 2) % half
  {
    var q, r := w / (2 * half), w % (2 * half);
    assert w == 2 * (half * q) + r;
    assert w / 2 == half * q + r / 2;
    DivMod(half, q, r / 2);
  }

  lemma {:induction false} DivMod(d: nat, q: nat, r: nat)
    requires r < d
    ensures (d * q + r) / d == q && (d * q + r) % d == r
  {
    var x := d * q + r;
    var k := x / d - q;
    assert d * k == d * (x / d) - d * q;
    assert x % d == r - d * k;
    MulSign(d, k);
  }

  lemma {:induction false} MulSign(d: nat, k: int)
    ensures k >= 1 ==> d * k >= d
    ensures k <= -1 ==> d * k <= -(d as int)
  {
  }

  lemma {:induction false} MulBit(w: nat, k: nat, j: nat)
    ensures Bit(w * Pow2(k), j) == (j >= k && Bit(w, j - k))
    decreases k
  {
    if k > 0 {
      assert w * Pow2(k) == 2 * (w * Pow2(k - 1));
      if j > 0 { MulBit(w, k - 1, j - 1); }
    }
  }

  lemma {:induction false} ShiftLeftBit(w: nat, k: nat, j: nat)
    requires j < 64
    ensures Bit(ShiftLeft(w, k), j) == (j >= k && Bit(w, j - k))
    ensures ShiftLeft(w, k) < Pow2(64)
  {
    ModBit(w * Pow2(k), 64, j);
    MulBit(w, k, j);
  }

  lemma {:induction false} ShiftRightBit(w: nat, k: nat, j: nat)
    ensures Bit(ShiftRight(w, k), j) == Bit(w, j + k)
    decreases k
  {
    if k > 0 { ShiftRightBit(w / 2, k - 1, j); }
  }

  /** A word has no bit at or above its width. */
  lemma {:induction false} HighBitsClear(w: nat, n: nat, j: nat)
    requires w < Pow2(n) && n <= j
    ensures !Bit(w, j)
    decreases n
  {
    if n == 0 { ZeroHasNoBits(j); } else { HighBitsClear(w / 2, n - 1, j - 1); }
  }
}
