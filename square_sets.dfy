/** The square-set reading of a bitboard, used by the third generation's board and move
    generator: a BB stands for the set of squares whose bits are set, |, & and ^ with a
    single square's mask are union, intersection and a toggle, and jank::bit::lsb_pop takes
    the lowest square out. The bridge lemmas at the end tie this reading to the bv64 one of
    module Bits. */
module SquareSets {
  import opened Bits

  /** A bitboard read as the squares it holds. */
  type Squares = set<Sq>

  /** x ^= ToBB(square) on a set of squares, and a Zobrist flip on a set of keys: the element
      goes in if absent and out if present. */
  function Flip<T(!new)>(s: set<T>, x: T): (r: set<T>)
    ensures x in r <==> x !in s
  {
    if x in s then s - {x} else s + {x}
  }

  /** a ^ b on square sets: the squares in exactly one of them. */
  function Xor(a: Squares, b: Squares): (r: Squares)
    ensures b <= a ==> r == a - b
  {
    (a - b) + (b - a)
  }

  /** ToBB(square) for a square that may be Square::None (64), whose set is taken to be empty. */
  function Single(k: bv8): (r: Squares)
    ensures k < 64 ==> r == {k as Sq}
    ensures k >= 64 ==> r == {}
  {
    if k < 64 then {k as Sq} else {}
  }

  /** The smallest square of s that is at least n, when there is one. */
  function LowestFrom(s: Squares, n: bv8): (k: Sq)
    requires n <= 64 && exists j :: j in s && n <= j
    ensures k in s && n <= k
    decreases 64 - n
  {
    if n in s then n
    else
      assert exists j :: j in s && n + 1 <= j by {
        var j :| j in s && n <= j;
        assert j != n;
      }
      LowestFrom(s, n + 1)
  }

  /** No square of s from n on lies below LowestFrom(s, n). */
  lemma {:induction false} LowestFromIsMin(s: Squares, n: bv8, j: Sq)
    requires n <= 64 && j in s && n <= j
    ensures LowestFrom(s, n) <= j
    decreases 64 - n
  {
    if n !in s {
      assert j != n;
      LowestFromIsMin(s, n + 1, j);
    }
  }

  /** jank::bit::lsb on a set: its lowest square, or Square::None (64) when it is empty. */
  function Lowest(s: Squares): (k: bv8)
    ensures k == NoSquare <==> s == {}
    ensures k != NoSquare ==> k in s && forall j :: j in s ==> k <= j
  {
    if s == {} then NoSquare
    else
      LowestFromMin(s);
      LowestFrom(s, 0)
  }

  lemma LowestFromMin(s: Squares)
    requires exists j :: j in s
    ensures exists j :: j in s && 0 <= j
    ensures forall j :: j in s ==> LowestFrom(s, 0) <= j
  {
    forall j | j in s ensures LowestFrom(s, 0) <= j {
      LowestFromIsMin(s, 0, j);
    }
  }

  /** jank::bit::lsb_pop's effect on a set: the lowest square is taken out. */
  function PopLowest(s: Squares): (r: Squares)
    requires s != {}
    ensures |r| + 1 == |s|
  {
    s - {Lowest(s) as Sq}
  }

  /** The squares below n that a bv64 bitboard holds. */
  function SquaresBelow(b: BB, n: bv8): (r: Squares)
    requires n <= 64
    ensures forall s :: s in r ==> s < n && Has(b, s)
    decreases n
  {
    if n == 0 then {} else SquaresBelow(b, n - 1) + (if Has(b, n - 1) then {n - 1 as Sq} else {})
  }

  /** The squares a bv64 bitboard holds. */
  function SquaresOf(b: BB): Squares
  {
    SquaresBelow(b, 64)
  }

  /** Every held square is in the set. */
  lemma {:induction false} HeldBelow(b: BB, n: bv8, s: Sq)
    requires n <= 64 && s < n && Has(b, s)
    ensures s in SquaresBelow(b, n)
    decreases n
  {
    if s < n - 1 {
      HeldBelow(b, n - 1, s);
    }
  }

  /** Membership in SquaresOf is Has. */
  lemma InSquaresOf(b: BB, s: Sq)
    ensures s in SquaresOf(b) <==> Has(b, s)
  {
    if Has(b, s) {
      HeldBelow(b, 64, s);
    }
  }

  /** ToBB(square) holds that square alone. */
  lemma SquaresOfMask(k: Sq)
    ensures SquaresOf(Mask(k)) == {k}
  {
    forall s: Sq ensures s in SquaresOf(Mask(k)) <==> s == k {
      HasMask(k, s);
      InSquaresOf(Mask(k), s);
    }
  }

  /** | is union. */
  lemma SquaresOfOr(a: BB, b: BB)
    ensures SquaresOf(a | b) == SquaresOf(a) + SquaresOf(b)
  {
    forall s: Sq ensures s in SquaresOf(a | b) <==> s in SquaresOf(a) || s in SquaresOf(b) {
      OrAt(a, b, s);
    }
  }

  lemma OrAt(a: BB, b: BB, s: Sq)
    ensures s in SquaresOf(a | b) <==> s in SquaresOf(a) || s in SquaresOf(b)
  {
    HasOr(a, b, s);
    InSquaresOf(a | b, s);
    InSquaresOf(a, s);
    InSquaresOf(b, s);
  }

  /** & is intersection. */
  lemma SquaresOfAnd(a: BB, b: BB)
    ensures SquaresOf(a & b) == SquaresOf(a) * SquaresOf(b)
  {
    forall s: Sq ensures s in SquaresOf(a & b) <==> s in SquaresOf(a) && s in SquaresOf(b) {
      AndAt(a, b, s);
    }
  }

  lemma AndAt(a: BB, b: BB, s: Sq)
    ensures s in SquaresOf(a & b) <==> s in SquaresOf(a) && s in SquaresOf(b)
  {
    HasAnd(a, b, s);
    InSquaresOf(a & b, s);
    InSquaresOf(a, s);
    InSquaresOf(b, s);
  }

  /** ^ with one square's mask toggles that square. */
  lemma SquaresOfXorMask(b: BB, k: Sq)
    ensures SquaresOf(b ^ Mask(k)) == Flip(SquaresOf(b), k)
  {
    forall s: Sq ensures s in SquaresOf(b ^ Mask(k)) <==> s in Flip(SquaresOf(b), k) {
      XorMaskAt(b, k, s);
    }
  }

  lemma XorMaskAt(b: BB, k: Sq, s: Sq)
    ensures s in SquaresOf(b ^ Mask(k)) <==> s in Flip(SquaresOf(b), k)
  {
    XorMaskHas(b, k, s);
    InSquaresOf(b ^ Mask(k), s);
    InSquaresOf(b, s);
  }

  lemma XorMaskHas(b: BB, k: Sq, s: Sq)
    ensures Has(b ^ Mask(k), s) <==> (Has(b, s) != (s == k))
  {
    HasXor(b, Mask(k), s);
    HasMask(k, s);
  }

  /** The empty bitboard holds no square. */
  lemma SquaresOfZero()
    ensures SquaresOf(0) == {}
  {
    forall s: Sq ensures s !in SquaresOf(0) {
      HasZero(s);
      InSquaresOf(0, s);
    }
  }

  /** The bv64 count of trailing zeros is the lowest square of the set. */
  lemma LsbIsLowest(b: BB)
    ensures Bits.Lsb(b) == Lowest(SquaresOf(b))
  {
    if b == 0 {
      SquaresOfZero();
    } else {
      LowestOfSet(b, Bits.Lsb(b));
    }
  }

  lemma LowestOfSet(b: BB, k: Sq)
    requires IsLowest(b, k)
    ensures Lowest(SquaresOf(b)) == k
  {
    LowestInSet(b, k);
    SetMin(SquaresOf(b), k);
  }

  lemma LowestInSet(b: BB, k: Sq)
    requires IsLowest(b, k)
    ensures k in SquaresOf(b) && forall j :: j in SquaresOf(b) ==> k <= j
  {
    LowestHas(b, k);
    InSquaresOf(b, k);
    forall j | j in SquaresOf(b) ensures k <= j {
      MinAt(b, k, j);
    }
  }

  /** Lowest finds the least element. */
  lemma SetMin(s: Squares, k: Sq)
    requires k in s && forall j :: j in s ==> k <= j
    ensures Lowest(s) == k
  {
    LowestUnique(s, k, Lowest(s));
  }

  lemma MinAt(b: BB, k: Sq, j: Sq)
    requires IsLowest(b, k) && j in SquaresOf(b)
    ensures k <= j
  {
    InSquaresOf(b, j);
    LowestIsMin(b, k, j);
  }

  lemma LowestIsMin(b: BB, k: Sq, j: Sq)
    requires IsLowest(b, k) && Has(b, j)
    ensures k <= j
  {}

  lemma LowestUnique(s: Squares, k: Sq, l: bv8)
    requires k in s && forall j :: j in s ==> k <= j
    requires l in s && forall j :: j in s ==> l <= j
    ensures k == l
  {}

  /** popcount is the number of squares held. */
  lemma PopCountIsSize(b: BB)
    ensures PopCount(b) == |SquaresOf(b)|
  {
    CountIsSize(b, 64);
  }

  lemma {:induction false} CountIsSize(b: BB, n: bv8)
    requires n <= 64
    ensures CountBelow(b, n) == |SquaresBelow(b, n)|
    decreases n
  {
    if n > 0 {
      CountIsSize(b, n - 1);
      assert (n - 1) as Sq !in SquaresBelow(b, n - 1);
    }
  }
}
