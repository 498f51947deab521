/**
 * Bitboard: a 64-bit word read as a set of squares (bit i set iff square i is
 * occupied), with set algebra, single-square updates, lowest and highest
 * member, population count and the `{:#018x}` debug text.  The three
 * snapshots agree on all of these; they differ only in `Square::new` and in
 * the masks of `shift` (module Shifts).
 */
module Bitboards {
  import opened Wrappers
  import opened Squares
  import opened Bits

  const EMPTY: Bitboard := 0
  const UNIVERSE: Bitboard := 0xFFFF_FFFF_FFFF_FFFF

  const FILE_A: Bitboard := 0x0101_0101_0101_0101
  const FILE_B: Bitboard := 0x0202_0202_0202_0202
  const FILE_C: Bitboard := 0x0404_0404_0404_0404
  const FILE_D: Bitboard := 0x0808_0808_0808_0808
  const FILE_E: Bitboard := 0x1010_1010_1010_1010
  const FILE_F: Bitboard := 0x2020_2020_2020_2020
  const FILE_G: Bitboard := 0x4040_4040_4040_4040
  const FILE_H: Bitboard := 0x8080_8080_8080_8080

  const RANK_1: Bitboard := 0x0000_0000_0000_00FF
  const RANK_2: Bitboard := 0x0000_0000_0000_FF00
  const RANK_3: Bitboard := 0x0000_0000_00FF_0000
  const RANK_4: Bitboard := 0x0000_0000_FF00_0000
  const RANK_5: Bitboard := 0x0000_00FF_0000_0000
  const RANK_6: Bitboard := 0x0000_FF00_0000_0000
  const RANK_7: Bitboard := 0x00FF_0000_0000_0000
  const RANK_8: Bitboard := 0xFF00_0000_0000_0000

  /** The file masks, file a first. */
  function FileMask(f: nat): Bitboard
    requires f < 8
  {
    [FILE_A, FILE_B, FILE_C, FILE_D, FILE_E, FILE_F, FILE_G, FILE_H][f]
  }

  /** The rank masks, rank 1 first. */
  function RankMask(r: nat): Bitboard
    requires r < 8
  {
    [RANK_1, RANK_2, RANK_3, RANK_4, RANK_5, RANK_6, RANK_7, RANK_8][r]
  }

  lemma BitAtFileMask(f: bv8, x: bv8)
    requires f < 8 && x < 64
    ensures BitAt(FILE_A << f, x) == (x % 8 == f)
  {
  }

  lemma BitAtRankMask(r: bv8, x: bv8)
    requires r < 8 && x < 64
    ensures BitAt(RANK_1 << (8 * r), x) == (x / 8 == r)
  {
  }

  lemma FileMaskShifted(f: nat)
    requires f < 8
    ensures FileMask(f) == FILE_A << (f as bv8)
  {
  }

  lemma RankMaskShifted(r: nat)
    requires r < 8
    ensures RankMask(r) == RANK_1 << (8 * r as bv8)
  {
  }

  lemma IdxDivMod(s: Square)
    ensures (Idx(s) % 8) as int == File(s)
    ensures (Idx(s) / 8) as int == Rank(s)
  {
  }

  /** Each file mask holds exactly the squares of its file. */
  lemma FileMaskMembers(f: nat, s: Square)
    requires f < 8
    ensures Has(FileMask(f), s) == (File(s) == f)
  {
    FileMaskShifted(f);
    BitAtFileMask(f as bv8, Idx(s));
    IdxDivMod(s);
  }

  /** Each rank mask holds exactly the squares of its rank. */
  lemma RankMaskMembers(r: nat, s: Square)
    requires r < 8
    ensures Has(RankMask(r), s) == (Rank(s) == r)
  {
    RankMaskShifted(r);
    BitAtRankMask(r as bv8, Idx(s));
    IdxDivMod(s);
  }

  lemma MaskMembers(s: Square)
    ensures forall t: Square :: Has(Mask(s), t) <==> t == s
  {
    forall t: Square
      ensures Has(Mask(s), t) <==> t == s
    {
      HasMask(s, t);
    }
  }

  /** `from_square`: the set holding only `s`. */
  function FromSquare(s: Square): (r: Bitboard)
    ensures forall t: Square :: Has(r, t) <==> t == s
  {
    MaskMembers(s);
    Mask(s)
  }

  /** `xor_square` (in place in the source, see BitboardCell): flips the membership of `s`. */
  function Toggle(b: Bitboard, s: Square): (r: Bitboard)
    ensures forall t: Square :: Has(r, t) == (Has(b, t) != (t == s))
  {
    forall t: Square
      ensures Has(b ^ Mask(s), t) == (Has(b, t) != (t == s))
    {
      HasToggle(b, s, t);
    }
    b ^ Mask(s)
  }

  /** `set_square` (in place in the source, see BitboardCell): adds `s`. */
  function SetSquare(b: Bitboard, s: Square): (r: Bitboard)
    ensures forall t: Square :: Has(r, t) == (Has(b, t) || t == s)
  {
    forall t: Square
      ensures Has(b | Mask(s), t) == (Has(b, t) || t == s)
    {
      HasSet(b, s, t);
    }
    b | Mask(s)
  }

  /** `&`: intersection. */
  function BitAnd(a: Bitboard, b: Bitboard): (r: Bitboard)
    ensures forall t: Square :: Has(r, t) == (Has(a, t) && Has(b, t))
  {
    forall t: Square
      ensures Has(a & b, t) == (Has(a, t) && Has(b, t))
    {
      HasAnd(a, b, t);
    }
    a & b
  }

  /** `|` and `|=`: union. */
  function BitOr(a: Bitboard, b: Bitboard): (r: Bitboard)
    ensures forall t: Square :: Has(r, t) == (Has(a, t) || Has(b, t))
  {
    forall t: Square
      ensures Has(a | b, t) == (Has(a, t) || Has(b, t))
    {
      HasOr(a, b, t);
    }
    a | b
  }

  /** `^`: symmetric difference. */
  function BitXor(a: Bitboard, b: Bitboard): (r: Bitboard)
    ensures forall t: Square :: Has(r, t) == (Has(a, t) != Has(b, t))
  {
    forall t: Square
      ensures Has(a ^ b, t) == (Has(a, t) != Has(b, t))
    {
      HasXor(a, b, t);
    }
    a ^ b
  }

  /** `!`: complement. */
  function BitNot(a: Bitboard): (r: Bitboard)
    ensures forall t: Square :: Has(r, t) == !Has(a, t)
  {
    forall t: Square
      ensures Has(!a, t) == !Has(a, t)
    {
      HasNot(a, t);
    }
    !a
  }

  /** The boolean-algebra laws the operators obey. */
  lemma AlgebraLaws(a: Bitboard, b: Bitboard)
    ensures BitAnd(a, b) == BitAnd(b, a)
    ensures BitOr(a, b) == BitOr(b, a)
    ensures BitXor(a, b) == BitXor(b, a)
    ensures BitXor(a, a) == EMPTY
    ensures BitOr(a, BitNot(a)) == UNIVERSE
    ensures BitNot(EMPTY) == UNIVERSE && BitNot(UNIVERSE) == EMPTY
    ensures BitNot(BitAnd(a, b)) == BitOr(BitNot(a), BitNot(b))
  {
  }

  /** `&`, `|` and `^` are associative, and `&` distributes over `|`. */
  lemma AssociativeLaws(a: Bitboard, b: Bitboard, c: Bitboard)
    ensures BitAnd(BitAnd(a, b), c) == BitAnd(a, BitAnd(b, c))
    ensures BitOr(BitOr(a, b), c) == BitOr(a, BitOr(b, c))
    ensures BitXor(BitXor(a, b), c) == BitXor(a, BitXor(b, c))
    ensures BitAnd(a, BitOr(b, c)) == BitOr(BitAnd(a, b), BitAnd(a, c))
  {
    AndAssociative(a, b, c);
    OrAssociative(a, b, c);
    XorAssociative(a, b, c);
    AndDistributes(a, b, c);
  }

  lemma AndAssociative(a: Bitboard, b: Bitboard, c: Bitboard)
    ensures BitAnd(BitAnd(a, b), c) == BitAnd(a, BitAnd(b, c))
  {
    assert (a & b) & c == a & (b & c);
  }

  lemma OrAssociative(a: Bitboard, b: Bitboard, c: Bitboard)
    ensures BitOr(BitOr(a, b), c) == BitOr(a, BitOr(b, c))
  {
    assert (a | b) | c == a | (b | c);
  }

  lemma XorAssociative(a: Bitboard, b: Bitboard, c: Bitboard)
    ensures BitXor(BitXor(a, b), c) == BitXor(a, BitXor(b, c))
  {
    assert (a ^ b) ^ c == a ^ (b ^ c);
  }

  lemma AndDistributes(a: Bitboard, b: Bitboard, c: Bitboard)
    ensures BitAnd(a, BitOr(b, c)) == BitOr(BitAnd(a, b), BitAnd(a, c))
  {
    assert a & (b | c) == (a & b) | (a & c);
  }

  /** `set_square` twice is `set_square` once, and `from_square` is `set_square` on the empty set. */
  lemma SetSquareLaws(b: Bitboard, s: Square)
    ensures SetSquare(SetSquare(b, s), s) == SetSquare(b, s)
    ensures FromSquare(s) == SetSquare(EMPTY, s)
  {
  }

  /** `xor_square` twice restores the board. */
  lemma ToggleTwice(b: Bitboard, s: Square)
    ensures Toggle(Toggle(b, s), s) == b
  {
  }

  // ---------------------------------------------------------------------
  // pop_count
  // ---------------------------------------------------------------------

  /** Number of members of `b` below square `n`. */
  function CountBelow(b: Bitboard, n: nat): (c: nat)
    requires n <= 64
    ensures c <= n
  {
    if n == 0 then 0 else CountBelow(b, n - 1) + (if Has(b, n - 1) then 1 else 0)
  }

  /** `pop_count` (`count_ones`). */
  function PopCount(b: Bitboard): (r: nat)
    ensures r <= 64
  {
    CountBelow(b, 64)
  }

  /** The squares below `n`. */
  ghost function Below(n: nat): set<Square>
    requires n <= 64
  {
    if n == 0 then {} else Below(n - 1) + {n - 1}
  }

  lemma {:induction false} BelowMembers(n: nat)
    requires n <= 64
    ensures forall s: Square :: s in Below(n) <==> s < n
  {
    if n > 0 {
      BelowMembers(n - 1);
    }
  }

  lemma SplitBelow(m: set<Square>, n: nat)
    requires 0 < n <= 64
    ensures m * Below(n) == m * Below(n - 1) + (if n - 1 in m then {n - 1} else {})
  {
  }

  lemma {:induction false} CountBelowIsSize(b: Bitboard, n: nat)
    requires n <= 64
    ensures CountBelow(b, n) == |Members(b) * Below(n)|
  {
    if n > 0 {
      CountBelowIsSize(b, n - 1);
      var m := Members(b);
      SplitBelow(m, n);
      BelowMembers(n - 1);
      assert n - 1 !in m * Below(n - 1);
      assert Has(b, n - 1) <==> n - 1 in m;
    } else {
      assert Members(b) * Below(n) == {};
    }
  }

  lemma SubsetSize<T>(x: set<T>, y: set<T>)
    requires x <= y
    ensures |x| <= |y|
  {
    var d := y - x;
    assert y == x + d;
    assert x * d == {};
  }

  /** `pop_count` is the number of squares in the set. */
  lemma PopCountIsSize(b: Bitboard)
    ensures PopCount(b) == |Members(b)|
  {
    CountBelowIsSize(b, 64);
    BelowMembers(64);
    assert Members(b) * Below(64) == Members(b);
  }

  lemma FromSquarePopCount(s: Square)
    ensures PopCount(FromSquare(s)) == 1
  {
    PopCountIsSize(FromSquare(s));
    assert Members(FromSquare(s)) == {s};
  }

  /** `xor_square` changes `pop_count` by exactly one. */
  lemma TogglePopCount(b: Bitboard, s: Square)
    ensures PopCount(Toggle(b, s)) == if Has(b, s) then PopCount(b) - 1 else PopCount(b) + 1
  {
    PopCountIsSize(b);
    PopCountIsSize(Toggle(b, s));
    ToggleSize(b, s);
  }

  lemma ToggleSize(b: Bitboard, s: Square)
    ensures |Members(Toggle(b, s))| == if Has(b, s) then |Members(b)| - 1 else |Members(b)| + 1
  {
    var m := Members(b);
    if Has(b, s) {
      assert s in m;
      ToggleMembers(b, s, m - {s});
    } else {
      assert s !in m;
      ToggleMembers(b, s, m + {s});
    }
  }

  lemma ToggleMembers(b: Bitboard, s: Square, m: set<Square>)
    requires forall t: Square :: t in m <==> (Has(b, t) != (t == s))
    ensures Members(Toggle(b, s)) == m
  {
  }

  /** An intersection has no more members than either side. */
  lemma IntersectionPopCount(a: Bitboard, b: Bitboard)
    ensures PopCount(BitAnd(a, b)) <= PopCount(a)
    ensures PopCount(BitAnd(a, b)) <= PopCount(b)
  {
    var r := BitAnd(a, b);
    PopCountIsSize(a);
    PopCountIsSize(b);
    PopCountIsSize(r);
    SubsetSize(Members(r), Members(a));
    SubsetSize(Members(r), Members(b));
  }

  // ---------------------------------------------------------------------
  // ls1b and ms1b
  // ---------------------------------------------------------------------

  /** The lowest member of `b` from square `n` on, or 64 if there is none. */
  function LowestFrom(b: Bitboard, n: nat): (r: nat)
    requires n <= 64
    ensures n <= r <= 64
    ensures r < 64 ==> Has(b, r)
    ensures forall s: Square :: n <= s < r ==> !Has(b, s)
    decreases 64 - n
  {
    if n == 64 then 64 else if Has(b, n) then n else LowestFrom(b, n + 1)
  }

  /** `trailing_zeros`: the number of clear bits below the lowest set one (64 for zero). */
  function TrailingZeros(b: Bitboard): (r: nat)
    ensures r <= 64
  {
    LowestFrom(b, 0)
  }

  /** `k` plus the number of clear bits from bit `63 - k` downwards to the highest set one. */
  function ZerosFromTop(b: Bitboard, k: nat): (r: nat)
    requires k <= 64
    ensures k <= r <= 64
    ensures r < 64 ==> Has(b, 63 - r)
    ensures forall s: Square :: 64 - r <= s < 64 - k ==> !Has(b, s)
    decreases 64 - k
  {
    if k == 64 then 64 else if Has(b, 63 - k) then k else ZerosFromTop(b, k + 1)
  }

  /** `leading_zeros`: the number of clear bits above the highest set one (64 for zero). */
  function LeadingZeros(b: Bitboard): (r: nat)
    ensures r <= 64
  {
    ZerosFromTop(b, 0)
  }

  /** A non-empty set has a lowest member. */
  lemma TrailingZerosBelow(b: Bitboard)
    requires b != 0
    ensures TrailingZeros(b) < 64
  {
    if TrailingZeros(b) == 64 {
      NoMembersIsZero(b);
    }
  }

  /** A non-empty set has a highest member. */
  lemma LeadingZerosBelow(b: Bitboard)
    requires b != 0
    ensures LeadingZeros(b) < 64
  {
    if LeadingZeros(b) == 64 {
      NoMembersIsZero(b);
    }
  }

  /**
   * `ls1b`: `None` for the empty set, else the lowest member, built with
   * `Square::from_u8(trailing_zeros).unwrap()`; the unwrap cannot fail.
   */
  function Ls1b(b: Bitboard): (r: Option<Square>)
    ensures r.None? <==> b == EMPTY
    ensures r.Some? ==> Has(b, r.value) && forall s: Square :: Has(b, s) ==> r.value <= s
  {
    if b == 0 then None
    else
      var tz := TrailingZeros(b);
      TrailingZerosBelow(b);
      var sq := FromU8(tz);
      Some(sq.value)
  }

  /**
   * `ms1b`: `None` for the empty set, else the highest member,
   * `Square::from_u8(63 - leading_zeros).unwrap()`; the unwrap cannot fail.
   */
  function Ms1b(b: Bitboard): (r: Option<Square>)
    ensures r.None? <==> b == EMPTY
    ensures r.Some? ==> Has(b, r.value) && forall s: Square :: Has(b, s) ==> s <= r.value
  {
    if b == 0 then None
    else
      var lz := LeadingZeros(b);
      LeadingZerosBelow(b);
      var sq := FromU8(63 - lz);
      Some(sq.value)
  }

  // ---------------------------------------------------------------------
  // Debug: "{:#018x}"
  // ---------------------------------------------------------------------

  const HEX_DIGITS: string := "0123456789abcdef"

  function Pow16(k: nat): (p: nat)
    ensures p >= 1
  {
    if k == 0 then 1 else 16 * Pow16(k - 1)
  }

  /** The lowest `k` hexadecimal digits of `n`, most significant first, zero-padded. */
  function HexDigits(n: nat, k: nat): (r: string)
    ensures |r| == k
    ensures forall i :: 0 <= i < k ==> r[i] in HEX_DIGITS
  {
    if k == 0 then [] else HexDigits(n / 16, k - 1) + [HEX_DIGITS[n % 16]]
  }

  /** `Debug`: "0x" and the word's value in 16 lower-case, zero-padded hexadecimal digits. */
  function DebugText(b: Bitboard): (r: string)
    ensures |r| == 18 && r[..2] == "0x"
    ensures forall i :: 2 <= i < 18 ==> r[i] in HEX_DIGITS
  {
    "0x" + HexDigits(b as nat, 16)
  }

  function HexDigitValue(c: char): nat {
    if '0' <= c <= '9' then c as int - '0' as int
    else if 'a' <= c <= 'f' then c as int - 'a' as int + 10
    else 0
  }

  /** The value a string of hexadecimal digits denotes. */
  function HexValue(s: string): nat {
    if s == [] then 0 else HexValue(s[..|s| - 1]) * 16 + HexDigitValue(s[|s| - 1])
  }

  lemma {:induction false} HexDigitsValue(n: nat, k: nat)
    requires n < Pow16(k)
    ensures HexValue(HexDigits(n, k)) == n
  {
    if k > 0 {
      var q, d := n / 16, n % 16;
      assert n == q * 16 + d && q < Pow16(k - 1);
      var p := HexDigits(q, k - 1);
      var s := p + [HEX_DIGITS[d]];
      assert s[..|s| - 1] == p && s[|s| - 1] == HEX_DIGITS[d];
      HexDigitsValue(q, k - 1);
      HexDigitOf(d);
    }
  }

  /** Each hexadecimal digit reads back as its index in `HEX_DIGITS`. */
  lemma HexDigitOf(d: nat)
    requires d < 16
    ensures HexDigitValue(HEX_DIGITS[d]) == d
  {
  }

  lemma WordBound(b: Bitboard)
    ensures b as nat < Pow16(16)
  {
    assert Pow16(4) == 0x1_0000;
    assert Pow16(8) == 0x1_0000_0000;
    assert Pow16(12) == 0x1_0000_0000_0000;
    assert Pow16(16) == 0x1_0000_0000_0000_0000;
  }

  /** The debug text's digits denote exactly the word's value. */
  lemma DebugTextValue(b: Bitboard)
    ensures HexValue(DebugText(b)[2..]) == b as nat
  {
    WordBound(b);
    HexDigitsValue(b as nat, 16);
    assert DebugText(b)[2..] == HexDigits(b as nat, 16);
  }

  // ---------------------------------------------------------------------
  // The `&mut self` receivers
  // ---------------------------------------------------------------------

  /** A Bitboard held in a mutable place, for the methods that update it in place. */
  class BitboardCell {
    var bits: Bitboard

    constructor (b: Bitboard)
      ensures bits == b
    {
      bits := b;
    }

    /** `xor_square`: `self.0 ^= 1 << square`. */
    method XorSquare(s: Square)
      modifies this
      ensures bits == Toggle(old(bits), s)
      ensures forall t: Square :: Has(bits, t) == (Has(old(bits), t) != (t == s))
    {
      bits := bits ^ Mask(s);
    }

    /** `set_square`: `self.0 |= 1 << square_idx`. */
    method SetSquareInPlace(s: Square)
      modifies this
      ensures bits == SetSquare(old(bits), s)
      ensures forall t: Square :: Has(bits, t) == (Has(old(bits), t) || t == s)
    {
      bits := bits | Mask(s);
    }

    /** `bitor_assign`: `self.0 |= rhs.0`. */
    method OrAssign(rhs: Bitboard)
      modifies this
      ensures bits == BitOr(old(bits), rhs)
      ensures forall t: Square :: Has(bits, t) == (Has(old(bits), t) || Has(rhs, t))
    {
      bits := bits | rhs;
    }
  }
}
