/** 64-bit square sets (bitboards) and the bit intrinsics all three generations use:
    ffsll, jank::bit::lsb / lsb_pop / popcount are specified here mathematically. */
module Bits {

  /** A bitboard: bit i stands for square i (A1 = 0, H8 = 63). */
  type BB = bv64

  /** A square index. */
  type Sq = s: bv8 | s < 64

  /** Square::None, the value a count of trailing zeros gives for an empty set. */
  const NoSquare: bv8 := 64

  const Full: BB := 0xffff_ffff_ffff_ffff

  /** ToBB(square): the set holding just that square. */
  function Mask(sq: Sq): BB { 1 << sq }

  predicate Has(b: BB, sq: Sq) { (b >> sq) & 1 == 1 }

  /** k is the lowest square of b. */
  predicate IsLowest(b: BB, k: Sq) { b & Mask(k) != 0 && b & (Mask(k) - 1) == 0 }

  /** jank::bit::lsb: the count of trailing zeros, which is Square::None (64) for an empty set. */
  function Lsb(b: BB): (r: bv8)
    ensures r <= 64
    ensures r == NoSquare <==> b == 0
    ensures r < 64 ==> IsLowest(b, r)
  {
    if b == 0 then NoSquare else
    var n0: bv8 := if b & 0xffff_ffff == 0 then 32 else 0;
    var b1 := b >> n0;
    var n1: bv8 := if b1 & 0xffff == 0 then 16 else 0;
    var b2 := b1 >> n1;
    var n2: bv8 := if b2 & 0xff == 0 then 8 else 0;
    var b3 := b2 >> n2;
    var n3: bv8 := if b3 & 0xf == 0 then 4 else 0;
    var b4 := b3 >> n3;
    var n4: bv8 := if b4 & 0x3 == 0 then 2 else 0;
    var b5 := b4 >> n4;
    var n5: bv8 := if b5 & 0x1 == 0 then 1 else 0;
    n0 + n1 + n2 + n3 + n4 + n5
  }

  /** Number of set bits at indices below n. */
  function CountBelow(b: BB, n: bv8): nat
    requires n <= 64
    decreases n
  {
    if n == 0 then 0 else CountBelow(b, n - 1) + (if Has(b, n - 1) then 1 else 0)
  }

  /** The population count of a bitboard. */
  function PopCount(b: BB): nat { CountBelow(b, 64) }

  /** jank::bit::lsb_pop's effect on its argument: the lowest square is removed. */
  function PopLsb(b: BB): (r: BB)
    ensures b != 0 ==> r == b ^ Mask(Lsb(b)) && PopCount(r) + 1 == PopCount(b)
    ensures b == 0 ==> r == 0
  {
    if b == 0 then 0 else
    ClearLowest(b);
    b & (b - 1)
  }

  /** ffsll: one plus the index of the lowest set bit, 0 for an empty set. */
  function Ffs(b: BB): (r: int)
    ensures b == 0 <==> r == 0
    ensures b != 0 ==> 1 <= r <= 64 && IsLowest(b, (r - 1) as bv8)
  {
    if b == 0 then 0 else Lsb(b) as int + 1
  }

  lemma HasAnd(a: BB, b: BB, s: Sq)
    ensures Has(a & b, s) <==> Has(a, s) && Has(b, s)
  {}

  lemma HasOr(a: BB, b: BB, s: Sq)
    ensures Has(a | b, s) <==> Has(a, s) || Has(b, s)
  {}

  lemma HasXor(a: BB, b: BB, s: Sq)
    ensures Has(a ^ b, s) <==> Has(a, s) != Has(b, s)
  {}

  lemma HasNot(a: BB, s: Sq)
    ensures Has(!a, s) <==> !Has(a, s)
  {}

  lemma HasMask(k: Sq, s: Sq)
    ensures Has(Mask(k), s) <==> s == k
  {}

  lemma HasZero(s: Sq)
    ensures !Has(0, s)
  {}

  lemma LsbOfMask(k: Sq)
    ensures Lsb(Mask(k)) == k
  {
    var r := Lsb(Mask(k));
    assert IsLowest(Mask(k), r);
    MaskLowest(k, r);
  }

  lemma MaskLowest(k: Sq, r: Sq)
    requires IsLowest(Mask(k), r)
    ensures r == k
  {}

  /** A set is empty exactly when it holds no square. */
  lemma EmptyIffNoSquare(b: BB)
    ensures b == 0 <==> PopCount(b) == 0
  {
    if b != 0 {
      ClearLowest(b);
    } else {
      NoneBelow(b, 64);
    }
  }

  lemma {:induction false} NoneBelow(b: BB, n: bv8)
    requires b == 0 && n <= 64
    ensures CountBelow(b, n) == 0
    decreases n
  {
    if n > 0 {
      NoneBelow(b, n - 1);
      HasZero(n - 1);
    }
  }

  lemma LowestCleared(b: BB, k: Sq)
    requires IsLowest(b, k)
    ensures b & (b - 1) == b ^ Mask(k)
  {}

  lemma XorOut(b: BB, k: Sq, s: Sq)
    requires Has(b, k)
    ensures Has(b ^ Mask(k), s) <==> Has(b, s) && s != k
  {}

  /** Removing one present square removes exactly one from every count that covers it. */
  lemma {:induction false} CountWithout(b: BB, c: BB, k: Sq, n: bv8)
    requires k < n <= 64 && Has(b, k)
    requires forall s: Sq :: Has(c, s) <==> Has(b, s) && s != k
    ensures CountBelow(c, n) + 1 == CountBelow(b, n)
    decreases n
  {
    var m := n - 1;
    CountStep(b, c, k, m);
    if k < m {
      CountWithout(b, c, k, m);
    } else {
      CountBelowSquare(b, c, k, m);
    }
  }

  /** Below the removed square the counts agree. */
  lemma {:induction false} CountBelowSquare(b: BB, c: BB, k: Sq, n: bv8)
    requires n <= k
    requires forall s: Sq :: Has(c, s) <==> Has(b, s) && s != k
    ensures CountBelow(c, n) == CountBelow(b, n)
    decreases n
  {
    if n > 0 {
      var m := n - 1;
      CountBelowSquare(b, c, k, m);
      assert Has(c, m) <==> Has(b, m);
    }
  }

  lemma CountStep(b: BB, c: BB, k: Sq, m: Sq)
    requires Has(b, k)
    requires forall s: Sq :: Has(c, s) <==> Has(b, s) && s != k
    ensures (if Has(c, m) then 1 else 0) + (if k == m then 1 else 0) == (if Has(b, m) then 1 else 0)
  {
    assert Has(c, m) <==> Has(b, m) && m != k;
  }

  lemma LowestHas(b: BB, k: Sq)
    requires IsLowest(b, k)
    ensures Has(b, k)
  {}

  /** The Kernighan step x & (x - 1) removes the lowest square and nothing else. */
  lemma ClearLowest(b: BB)
    requires b != 0
    ensures b & (b - 1) == b ^ Mask(Lsb(b))
    ensures PopCount(b & (b - 1)) + 1 == PopCount(b)
  {
    var k := Lsb(b);
    LowestCleared(b, k);
    LowestHas(b, k);
    ClearedSquares(b, k);
    CountWithout(b, b ^ Mask(k), k, 64);
  }

  /** The squares left after popping are the others. */
  lemma PopLsbHas(b: BB, s: Sq)
    requires b != 0
    ensures Has(PopLsb(b), s) <==> Has(b, s) && s != Lsb(b)
  {
    LowestHas(b, Lsb(b));
    XorOut(b, Lsb(b), s);
  }

  lemma ClearedSquares(b: BB, k: Sq)
    requires Has(b, k)
    ensures forall s: Sq :: Has(b ^ Mask(k), s) <==> Has(b, s) && s != k
  {
    forall s: Sq ensures Has(b ^ Mask(k), s) <==> Has(b, s) && s != k {
      XorOut(b, k, s);
    }
  }
}
