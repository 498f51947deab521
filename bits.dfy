/**
 * The bit-level facts behind Bitboard: square `s` is a member of a 64-bit
 * word `b` when bit `s` of `b` is one.  Every fact is proved once on 8-bit
 * bit-vector indices, where the solver handles shifts well, and carried over
 * to squares through `Idx`.
 */
module Bits {
  import opened Squares

  /** `Bitboard(u64)`: a set of squares, one bit per square. */
  type Bitboard = bv64

  /** Bit `x` of `b`. */
  predicate BitAt(b: bv64, x: bv8)
    requires x < 64
  {
    (b >> x) & 1 == 1
  }

  /** The square index as a shift amount. */
  function Idx(s: Square): (x: bv8)
    ensures x < 64 && x as int == s
  {
    s as bv8
  }

  /** Square `s` is in `b`. */
  predicate Has(b: Bitboard, s: Square) {
    BitAt(b, Idx(s))
  }

  /** `1u64 << square`: the word with only bit `s` set. */
  function Mask(s: Square): Bitboard {
    1 << Idx(s)
  }

  /** The set of squares a word stands for. */
  ghost function Members(b: Bitboard): set<Square> {
    set s: Square | 0 <= s < 64 && Has(b, s)
  }

  // ---- facts on bit-vector indices -----------------------------------

  lemma BitAtMask(x: bv8, y: bv8)
    requires x < 64 && y < 64
    ensures BitAt(1 << x, y) == (x == y)
  {
  }

  lemma BitAtXor(a: bv64, b: bv64, y: bv8)
    requires y < 64
    ensures BitAt(a ^ b, y) == (BitAt(a, y) != BitAt(b, y))
  {
  }

  lemma BitAtOr(a: bv64, b: bv64, y: bv8)
    requires y < 64
    ensures BitAt(a | b, y) == (BitAt(a, y) || BitAt(b, y))
  {
  }

  lemma BitAtAnd(a: bv64, b: bv64, y: bv8)
    requires y < 64
    ensures BitAt(a & b, y) == (BitAt(a, y) && BitAt(b, y))
  {
  }

  lemma BitAtNot(a: bv64, y: bv8)
    requires y < 64
    ensures BitAt(!a, y) == !BitAt(a, y)
  {
  }

  lemma BitAtToggle(b: bv64, x: bv8, y: bv8)
    requires x < 64 && y < 64
    ensures BitAt(b ^ (1 << x), y) == (BitAt(b, y) != (x == y))
  {
  }

  lemma BitAtSet(b: bv64, x: bv8, y: bv8)
    requires x < 64 && y < 64
    ensures BitAt(b | (1 << x), y) == (BitAt(b, y) || x == y)
  {
  }

  lemma BitAtByMask(b: bv64, x: bv8)
    requires x < 64
    ensures BitAt(b, x) == (b & (1 << x) != 0)
  {
  }

  /** Shifting right by `x` leaves zero iff bit `x` is clear and shifting by `x + 1` leaves zero. */
  lemma ShiftedOutStep(b: bv64, x: bv8)
    requires x < 64
    ensures (b >> x == 0) == (b >> (x + 1) == 0 && !BitAt(b, x))
  {
  }

  // ---- the same facts on squares --------------------------------------

  lemma HasMask(s: Square, t: Square)
    ensures Has(Mask(s), t) == (s == t)
  {
    BitAtMask(Idx(s), Idx(t));
  }

  /** The zero word holds no square. */
  lemma HasZero(s: Square)
    ensures !Has(0, s)
  {
    assert (0 as bv64 >> Idx(s)) == 0;
  }

  /** The source's membership test `b & (1 << s) != 0`. */
  lemma HasByMask(b: Bitboard, s: Square)
    ensures Has(b, s) == (b & Mask(s) != 0)
  {
    BitAtByMask(b, Idx(s));
  }

  lemma HasToggle(b: Bitboard, s: Square, t: Square)
    ensures Has(b ^ Mask(s), t) == (Has(b, t) != (t == s))
  {
    BitAtToggle(b, Idx(s), Idx(t));
  }

  lemma HasSet(b: Bitboard, s: Square, t: Square)
    ensures Has(b | Mask(s), t) == (Has(b, t) || t == s)
  {
    BitAtSet(b, Idx(s), Idx(t));
  }

  lemma HasXor(a: Bitboard, b: Bitboard, t: Square)
    ensures Has(a ^ b, t) == (Has(a, t) != Has(b, t))
  {
    BitAtXor(a, b, Idx(t));
  }

  lemma HasOr(a: Bitboard, b: Bitboard, t: Square)
    ensures Has(a | b, t) == (Has(a, t) || Has(b, t))
  {
    BitAtOr(a, b, Idx(t));
  }

  lemma HasAnd(a: Bitboard, b: Bitboard, t: Square)
    ensures Has(a & b, t) == (Has(a, t) && Has(b, t))
  {
    BitAtAnd(a, b, Idx(t));
  }

  lemma HasNot(a: Bitboard, t: Square)
    ensures Has(!a, t) == !Has(a, t)
  {
    BitAtNot(a, Idx(t));
  }

  /** A shift amount 0..64 (64 shifts every bit out). */
  function Amount(n: nat): (x: bv8)
    requires n <= 64
    ensures x <= 64 && x as int == n
  {
    n as bv8
  }

  lemma {:induction false} ShiftedOutFrom(b: Bitboard, n: nat)
    requires n <= 64
    requires forall s: Square :: n <= s ==> !Has(b, s)
    ensures b >> Amount(n) == 0
    decreases 64 - n
  {
    if n < 64 {
      ShiftedOutFrom(b, n + 1);
      assert Amount(n + 1) == Amount(n) + 1;
      assert !Has(b, n);
      ShiftedOutStep(b, Amount(n));
    }
  }

  /** A word with no member square is zero. */
  lemma NoMembersIsZero(b: Bitboard)
    requires forall s: Square :: !Has(b, s)
    ensures b == 0
  {
    ShiftedOutFrom(b, 0);
  }

  /** Two words with the same member squares are equal. */
  lemma Extensionality(a: Bitboard, b: Bitboard)
    requires forall s: Square :: Has(a, s) == Has(b, s)
    ensures a == b
  {
    var c := a ^ b;
    forall s: Square
      ensures !Has(c, s)
    {
      HasXor(a, b, s);
    }
    NoMembersIsZero(c);
  }
}
