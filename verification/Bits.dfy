/** Bitwise operators on machine words.

Words are natural numbers and every operator is defined bit by bit, so that descriptor and
alignment code can be transcribed operator by operator. The lemmas turn masks, shifts and
unions of disjoint fields into division, remainder and sums.
*/
module Bits {

  const U64_LIMIT: nat := 0x1_0000_0000_0000_0000

  function And(a: nat, b: nat): (r: nat)
    ensures r <= a && r <= b
  {
    if a == 0 || b == 0 then 0
    else 2 * And(a / 2, b / 2) + (if a % 2 == 1 && b % 2 == 1 then 1 else 0)
  }

  function Or(a: nat, b: nat): (r: nat)
    ensures a <= r && b <= r && r <= a + b
    decreases a + b
  {
    if a == 0 then b
    else if b == 0 then a
    else 2 * Or(a / 2, b / 2) + (if a % 2 == 1 || b % 2 == 1 then 1 else 0)
  }

  /** `x << k`, without truncation. */
  function Shl(x: nat, k: nat): (r: nat)
    ensures r >= x
  {
    if k == 0 then x else 2 * Shl(x, k - 1)
  }

  /** `x >> k`. */
  function Shr(x: nat, k: nat): (r: nat)
    ensures r <= x
  {
    if k == 0 then x else Shr(x / 2, k - 1)
  }

  /** The low `k` bits of `x`. */
  function Low(x: nat, k: nat): nat {
    if k == 0 then 0 else 2 * Low(x / 2, k - 1) + x % 2
  }

  lemma {:induction false} LowSplit(x: nat, k: nat)
    ensures x == Shl(Shr(x, k), k) + Low(x, k)
    decreases k
  {
    if k != 0 {
      LowSplit(x / 2, k - 1);
    }
  }

  /** `(1 << k) - 1`. */
  function LowMask(k: nat): nat {
    if k == 0 then 0 else 2 * LowMask(k - 1) + 1
  }

  /** Masking with `(1 << k) - 1` keeps the low `k` bits. */
  lemma {:induction false} AndLowMask(x: nat, k: nat)
    ensures And(x, LowMask(k)) == Low(x, k)
  {
    if k != 0 {
      AndLowMask(x / 2, k - 1);
    }
  }

  lemma {:induction false} LowMaskValue(k: nat)
    ensures LowMask(k) == Shl(1, k) - 1
  {
    if k != 0 {
      LowMaskValue(k - 1);
    }
  }

  /** Masking with the bits from `k` up to `w` keeps exactly that field, in place. */
  lemma {:induction false} AndField(x: nat, k: nat, w: nat)
    requires k <= w
    ensures Shl(1, k) <= Shl(1, w)
    ensures And(x, Shl(1, w) - Shl(1, k)) == Low(x, w) - Low(x, k)
    decreases k
  {
    hide And;
    if k == 0 {
      LowMaskValue(w);
      AndLowMask(x, w);
    } else {
      AndField(x / 2, k - 1, w - 1);
      AndEven(x, Shl(1, w - 1) - Shl(1, k - 1));
    }
  }

  lemma {:induction false} AndEven(x: nat, m: nat)
    ensures And(x, 2 * m) == 2 * And(x / 2, m)
  {
    assert 2 * m / 2 == m && 2 * m % 2 == 0;
  }

  /** Testing the single bit `k`. */
  lemma {:induction false} AndBit(x: nat, k: nat)
    ensures And(x, Shl(1, k)) != 0 <==> Shr(x, k) % 2 == 1
  {
    if k != 0 {
      AndBit(x / 2, k - 1);
      AndEven(x, Shl(1, k - 1));
    }
  }

  /** A field placed above all bits of another value is added to it. */
  lemma {:induction false} OrDisjoint(high: nat, low: nat, k: nat)
    requires Shr(low, k) == 0
    ensures Or(Shl(high, k), low) == Shl(high, k) + low
    ensures Or(low, Shl(high, k)) == Shl(high, k) + low
    decreases k
  {
    if k != 0 {
      OrDisjoint(high, low / 2, k - 1);
    }
  }

  /** A union has its low `k` bits clear exactly when both operands have. */
  lemma {:induction false} OrLow(a: nat, b: nat, k: nat)
    ensures Low(Or(a, b), k) == 0 <==> Low(a, k) == 0 && Low(b, k) == 0
    decreases k
  {
    if k != 0 {
      OrLow(a / 2, b / 2, k - 1);
    }
  }

  lemma {:induction false} ShrAdd(x: nat, j: nat, k: nat)
    ensures Shr(x, j + k) == Shr(Shr(x, j), k)
    decreases j
  {
    if j != 0 {
      ShrAdd(x / 2, j - 1, k);
    }
  }

  lemma {:induction false} ShlAdd(x: nat, j: nat, k: nat)
    ensures Shl(x, j + k) == Shl(Shl(x, j), k)
    decreases k
  {
    if k != 0 {
      ShlAdd(x, j, k - 1);
    }
  }

  lemma Shift3(x: nat)
    ensures Shr(x, 3) == x / 8 && Shl(x, 3) == 8 * x
  {
    assert Shr(x, 3) == Shr(x / 2, 2) == Shr(x / 4, 1) == Shr(x / 8, 0);
    assert Shl(x, 3) == 2 * Shl(x, 2) == 4 * Shl(x, 1) == 8 * Shl(x, 0);
  }

  lemma Shift1(x: nat)
    ensures Shr(x, 1) == x / 2 && Shl(x, 1) == 2 * x
  {
  }

  lemma Shift2(x: nat)
    ensures Shr(x, 2) == x / 4 && Shl(x, 2) == 4 * x
  {
    assert Shr(x, 2) == Shr(x / 2, 1) == Shr(x / 4, 0);
    assert Shl(x, 2) == 2 * Shl(x, 1) == 4 * Shl(x, 0);
  }

  lemma Shift9(x: nat)
    ensures Shr(x, 9) == x / 512 && Shl(x, 9) == 512 * x
  {
    hide Shl, Shr;
    ShrAdd(x, 3, 6);
    ShrAdd(x / 8, 3, 3);
    ShlAdd(x, 3, 6);
    ShlAdd(8 * x, 3, 3);
    Shift3(x);
    Shift3(x / 8);
    Shift3(x / 64);
    Shift3(8 * x);
    Shift3(64 * x);
  }

  lemma Shift12(x: nat)
    ensures Shr(x, 12) == x / 0x1000 && Shl(x, 12) == 0x1000 * x && Low(x, 12) == x % 0x1000
  {
    hide Shl, Shr, Low;
    ShrAdd(x, 9, 3);
    Shift9(x);
    Shift3(x / 512);
    LowSplit(x, 12);
    ShlTwelve(x);
    ShlTwelve(x / 0x1000);
  }

  lemma ShlTwelve(x: nat)
    ensures Shl(x, 12) == 0x1000 * x
  {
    hide Shl, Shr;
    ShlAdd(x, 9, 3);
    Shift9(x);
    Shift3(512 * x);
  }

  lemma Shift21(x: nat)
    ensures Shr(x, 21) == x / 0x20_0000 && Shl(x, 21) == 0x20_0000 * x && Low(x, 21) == x % 0x20_0000
  {
    hide Shl, Shr, Low;
    ShrAdd(x, 12, 9);
    Shift12(x);
    Shift9(x / 0x1000);
    LowSplit(x, 21);
    ShlTwentyOne(x);
    ShlTwentyOne(x / 0x20_0000);
  }

  lemma ShlTwentyOne(x: nat)
    ensures Shl(x, 21) == 0x20_0000 * x
  {
    hide Shl, Shr;
    ShlAdd(x, 12, 9);
    ShlTwelve(x);
    Shift9(0x1000 * x);
  }

  lemma Shift30(x: nat)
    ensures Shr(x, 30) == x / 0x4000_0000 && Shl(x, 30) == 0x4000_0000 * x && Low(x, 30) == x % 0x4000_0000
  {
    hide Shl, Shr, Low;
    ShrAdd(x, 21, 9);
    Shift21(x);
    Shift9(x / 0x20_0000);
    LowSplit(x, 30);
    ShlThirty(x);
    ShlThirty(x / 0x4000_0000);
  }

  lemma ShlThirty(x: nat)
    ensures Shl(x, 30) == 0x4000_0000 * x
  {
    hide Shl, Shr;
    ShlAdd(x, 21, 9);
    ShlTwentyOne(x);
    Shift9(0x20_0000 * x);
  }

  lemma Shift7(x: nat)
    ensures Shr(x, 7) == x / 128 && Shl(x, 7) == 128 * x
  {
    hide Shl, Shr;
    ShrAdd(x, 3, 4);
    ShrAdd(x / 8, 3, 1);
    ShlAdd(x, 3, 4);
    ShlAdd(8 * x, 3, 1);
    Shift3(x);
    Shift3(x / 8);
    Shift3(8 * x);
    Shift1(x / 64);
    Shift1(64 * x);
  }

  lemma Shift18(x: nat)
    ensures Shr(x, 18) == x / 0x4_0000 && Shl(x, 18) == 0x4_0000 * x
  {
    hide Shl, Shr;
    ShrAdd(x, 9, 9);
    ShlAdd(x, 9, 9);
    Shift9(x);
    Shift9(x / 512);
    Shift9(512 * x);
  }

  lemma Shift36(x: nat)
    ensures Shr(x, 36) == x / 0x10_0000_0000 && Shl(x, 36) == 0x10_0000_0000 * x
  {
    hide Shl, Shr;
    ShrAdd(x, 18, 18);
    ShlAdd(x, 18, 18);
    Shift18(x);
    Shift18(x / 0x4_0000);
    Shift18(0x4_0000 * x);
  }

  lemma Shift48(x: nat)
    ensures Shl(x, 48) == 0x1_0000_0000_0000 * x && Low(x, 48) == x % 0x1_0000_0000_0000
  {
    hide Shl, Shr, Low;
    assert Shr(x, 48) == x / 0x1_0000_0000_0000 by {
      ShrAdd(x, 36, 12);
      Shift36(x);
      Shift12(x / 0x10_0000_0000);
    }
    LowSplit(x, 48);
    ShlFortyEight(x);
    ShlFortyEight(x / 0x1_0000_0000_0000);
  }

  lemma ShlFortyEight(x: nat)
    ensures Shl(x, 48) == 0x1_0000_0000_0000 * x
  {
    hide Shl, Shr;
    ShlAdd(x, 36, 12);
    Shift36(x);
    Shift12(0x10_0000_0000 * x);
  }

  lemma Shift64(x: nat)
    requires x < U64_LIMIT
    ensures Shl(1, 64) == U64_LIMIT && Low(x, 64) == x
  {
    hide Shl, Shr, Low;
    ShlAdd(1, 54, 10);
    ShlAdd(0x40_0000_0000_0000, 9, 1);
    Shift54(1);
    Shift9(0x40_0000_0000_0000);
    ShrAdd(x, 54, 10);
    ShrAdd(x / 0x40_0000_0000_0000, 9, 1);
    Shift54(x);
    Shift9(x / 0x40_0000_0000_0000);
    Shift1(512 * 0x40_0000_0000_0000);
    Shift1(x / 0x40_0000_0000_0000 / 512);
    assert Shr(x, 64) == 0;
    ShlZero(64);
    LowSplit(x, 64);
  }

  lemma ShlZero(k: nat)
    ensures Shl(0, k) == 0
  {
  }

  lemma Shift54(x: nat)
    ensures Shr(x, 54) == x / 0x40_0000_0000_0000 && Shl(x, 54) == 0x40_0000_0000_0000 * x
  {
    hide Shl, Shr;
    ShrAdd(x, 36, 18);
    ShlAdd(x, 36, 18);
    Shift36(x);
    Shift18(x / 0x10_0000_0000);
    Shift18(0x10_0000_0000 * x);
  }

  /** The union of two words without a common bit is their sum. */
  lemma {:induction false} OrAdd(a: nat, b: nat)
    requires And(a, b) == 0
    ensures Or(a, b) == a + b
    decreases a + b
  {
    if a != 0 && b != 0 {
      OrAdd(a / 2, b / 2);
    }
  }

  /** Setting the bits from `k` up to `w` of a word in which they are clear adds the field. */
  lemma SetField(x: nat, k: nat, w: nat)
    requires k <= w && Low(x, w) == Low(x, k)
    ensures Shl(1, k) <= Shl(1, w)
    ensures Or(x, Shl(1, w) - Shl(1, k)) == x + Shl(1, w) - Shl(1, k)
  {
    hide And, Or, Low;
    AndField(x, k, w);
    OrAdd(x, Shl(1, w) - Shl(1, k));
  }

  /** The positions of the attribute fields. */
  function SmallPower(k: nat): (p: nat)
    ensures p > 0
  {
    if k == 0 then 1 else if k == 1 then 2 else if k == 2 then 4 else if k == 3 then 8
    else if k == 4 then 16 else if k == 5 then 32 else if k == 6 then 64 else if k == 7 then 128
    else if k == 8 then 256 else if k == 9 then 512 else if k == 10 then 1024 else 2048
  }

  lemma {:induction false} LowSmall(x: nat, k: nat)
    requires k <= 11
    ensures Low(x, k) == x % SmallPower(k) && Shl(1, k) == SmallPower(k)
  {
    if k != 0 {
      LowSmall(x / 2, k - 1);
      ModHalf(x, SmallPower(k - 1));
    }
  }

  lemma ModHalf(x: nat, m: nat)
    requires m > 0
    ensures x % (2 * m) == 2 * (x / 2 % m) + x % 2
  {
    var h := x / 2;
    assert h == m * (h / m) + h % m;
    assert 2 * (m * (h / m)) == (2 * m) * (h / m);
    ModUnique(x, 2 * m, h / m, 2 * (h % m) + x % 2);
  }

  lemma ModUnique(x: nat, m: nat, q: nat, r: nat)
    requires m > 0 && r < m && x == m * q + r
    ensures x % m == r && x / m == q
  {
    var d: int := x / m - q;
    assert m * d == m * (x / m) - m * q;
    assert m * d == r - x % m;
    MulGap(m, d);
  }

  lemma MulGap(m: nat, d: int)
    requires m > 0
    ensures d >= 1 ==> m * d >= m
    ensures d <= -1 ==> m * d <= 0 - m
  {
  }

  lemma OrZero(x: nat)
    ensures Or(x, 0) == x
  {
  }

  lemma Shift0(x: nat)
    ensures Shr(x, 0) == x && Shl(x, 0) == x
  {
  }

  /** Below bit 12, a page-aligned word plus a small value looks like the small value. */
  lemma PageOffset(p: nat, c: nat)
    requires p % 0x1000 == 0 && c < 0x1000
    ensures (p + c) % 0x1000 == c
    ensures (p + c) % 2 == c % 2 && (p + c) % 4 == c % 4 && (p + c) % 8 == c % 8 && (p + c) % 32 == c % 32
    ensures (p + c) % 0x80 == c % 0x80 && (p + c) % 0x100 == c % 0x100
    ensures (p + c) % 0x400 == c % 0x400 && (p + c) % 0x800 == c % 0x800
  {
    var f := p / 0x1000;
    ModUnique(p + c, 0x1000, f, c);
    ModUnique(p + c, 2, 0x800 * f + c / 2, c % 2);
    ModUnique(p + c, 4, 0x400 * f + c / 4, c % 4);
    ModUnique(p + c, 8, 0x200 * f + c / 8, c % 8);
    ModUnique(p + c, 32, 0x80 * f + c / 32, c % 32);
    ModUnique(p + c, 0x80, 0x20 * f + c / 0x80, c % 0x80);
    ModUnique(p + c, 0x100, 0x10 * f + c / 0x100, c % 0x100);
    ModUnique(p + c, 0x400, 4 * f + c / 0x400, c % 0x400);
    ModUnique(p + c, 0x800, 2 * f + c / 0x800, c % 0x800);
  }

  /** The single-bit and attribute fields below bit 12. */
  lemma PageFields(p: nat, c: nat)
    requires p % 0x1000 == 0 && c < 0x1000
    ensures (p + c) / 2 % 2 == c / 2 % 2 && (p + c) / 4 % 8 == c / 4 % 8
    ensures (p + c) / 0x80 % 2 == c / 0x80 % 2
  {
    var f := p / 0x1000;
    ModUnique(p + c, 2, 0x800 * f + c / 2, c % 2);
    ModUnique(p + c, 4, 0x400 * f + c / 4, c % 4);
    ModUnique(p + c, 0x80, 0x20 * f + c / 0x80, c % 0x80);
    ModUnique((p + c) / 2, 2, 0x400 * f + c / 2 / 2, c / 2 % 2);
    ModUnique((p + c) / 4, 8, 0x80 * f + c / 4 / 8, c / 4 % 8);
    ModUnique((p + c) / 0x80, 2, 0x10 * f + c / 0x80 / 2, c / 0x80 % 2);
  }
}
