/**
 * `shift`: moves every square of a bitboard one step in a compass direction.
 * The newer snapshots clear file h before an eastward move and file a before
 * a westward one and let the word's ends drop whatever leaves rank 1 or 8;
 * the oldest snapshot spells out a rank-and-file mask for each direction.
 * Both give the same word, and that word is the set of on-board neighbours.
 */
module Shifts {
  import opened Wrappers
  import opened Squares
  import opened Bits
  import opened Bitboards

  /** The eight compass directions; north is towards rank 8, east towards file h. */
  datatype Direction = North | South | East | West | NorthEast | NorthWest | SouthEast | SouthWest

  function Opposite(d: Direction): Direction {
    match d
    case North => South
    case South => North
    case East => West
    case West => East
    case NorthEast => SouthWest
    case NorthWest => SouthEast
    case SouthEast => NorthWest
    case SouthWest => NorthEast
  }

  /** How far a step in `d` moves the rank. */
  function RankStep(d: Direction): int {
    match d
    case North | NorthEast | NorthWest => 1
    case South | SouthEast | SouthWest => -1
    case East | West => 0
  }

  /** How far a step in `d` moves the file. */
  function FileStep(d: Direction): int {
    match d
    case East | NorthEast | SouthEast => 1
    case West | NorthWest | SouthWest => -1
    case North | South => 0
  }

  predicate Eastward(d: Direction) {
    FileStep(d) == 1
  }

  predicate Westward(d: Direction) {
    FileStep(d) == -1
  }

  /** The square one step from `s` in direction `d`, if that is on the board. */
  function Neighbour(s: Square, d: Direction): (r: Option<Square>)
    ensures r.Some? <==> 0 <= Rank(s) + RankStep(d) < 8 && 0 <= File(s) + FileStep(d) < 8
    ensures r.Some? ==> Rank(r.value) == Rank(s) + RankStep(d) && File(r.value) == File(s) + FileStep(d)
  {
    var rank := Rank(s) + RankStep(d);
    var file := File(s) + FileStep(d);
    if 0 <= rank < 8 && 0 <= file < 8 then Some(rank * 8 + file) else None
  }

  /** Stepping back from a neighbour returns to the square. */
  lemma NeighbourOpposite(s: Square, t: Square, d: Direction)
    ensures Neighbour(s, d) == Some(t) <==> Neighbour(t, Opposite(d)) == Some(s)
  {
  }

  /** `shift` with file-only masks. */
  function Shift(b: Bitboard, d: Direction): (r: Bitboard)
    ensures Eastward(d) ==> BitAnd(r, FILE_A) == EMPTY
    ensures Westward(d) ==> BitAnd(r, FILE_H) == EMPTY
  {
    match d
    case North => b << 8
    case South => b >> 8
    case East => (b & !FILE_H) << 1
    case West => (b & !FILE_A) >> 1
    case NorthEast => (b & !FILE_H) << 9
    case NorthWest => (b & !FILE_A) << 7
    case SouthEast => (b & !FILE_H) >> 7
    case SouthWest => (b & !FILE_A) >> 9
  }

  /** `shift` with a rank-and-file mask per direction; the same word as `Shift`. */
  function ShiftWithRankMasks(b: Bitboard, d: Direction): (r: Bitboard)
    ensures r == Shift(b, d)
  {
    match d
    case North => (b & 0x00FF_FFFF_FFFF_FFFF) << 8
    case South => (b & 0xFFFF_FFFF_FFFF_FF00) >> 8
    case East => (b & 0x7F7F_7F7F_7F7F_7F7F) << 1
    case West => (b & 0xFEFE_FEFE_FEFE_FEFE) >> 1
    case NorthEast => (b & 0x007F_7F7F_7F7F_7F7F) << 9
    case NorthWest => (b & 0x00FE_FEFE_FEFE_FEFE) << 7
    case SouthEast => (b & 0x7F7F_7F7F_7F7F_7F00) >> 7
    case SouthWest => (b & 0xFEFE_FEFE_FEFE_FE00) >> 9
  }

  // ---- one bit of each shifted word ------------------------------------

  lemma BitNorth(b: Bitboard, x: bv8)
    requires x < 64
    ensures BitAt(Shift(b, North), x) == (x >= 8 && BitAt(b, x - 8))
  {
  }

  lemma BitSouth(b: Bitboard, x: bv8)
    requires x < 64
    ensures BitAt(Shift(b, South), x) == (x < 56 && BitAt(b, x + 8))
  {
  }

  lemma BitEast(b: Bitboard, x: bv8)
    requires x < 64
    ensures BitAt(Shift(b, East), x) == (x % 8 != 0 && BitAt(b, x - 1))
  {
  }

  lemma BitWest(b: Bitboard, x: bv8)
    requires x < 64
    ensures BitAt(Shift(b, West), x) == (x % 8 != 7 && BitAt(b, x + 1))
  {
  }

  lemma BitNorthEast(b: Bitboard, x: bv8)
    requires x < 64
    ensures BitAt(Shift(b, NorthEast), x) == (x >= 8 && x % 8 != 0 && BitAt(b, x - 9))
  {
  }

  lemma BitNorthWest(b: Bitboard, x: bv8)
    requires x < 64
    ensures BitAt(Shift(b, NorthWest), x) == (x >= 8 && x % 8 != 7 && BitAt(b, x - 7))
  {
  }

  lemma BitSouthEast(b: Bitboard, x: bv8)
    requires x < 64
    ensures BitAt(Shift(b, SouthEast), x) == (x < 56 && x % 8 != 0 && BitAt(b, x + 7))
  {
  }

  lemma BitSouthWest(b: Bitboard, x: bv8)
    requires x < 64
    ensures BitAt(Shift(b, SouthWest), x) == (x < 56 && x % 8 != 7 && BitAt(b, x + 9))
  {
  }

  // ---- from bit indices to squares --------------------------------------

  lemma IdxFacts(t: Square)
    ensures (Idx(t) % 8) as int == File(t)
    ensures (Idx(t) >= 8) == (t >= 8) && (Idx(t) < 56) == (t < 56)
  {
  }

  lemma IdxPlus1(t: Square)
    requires t + 1 < 64
    ensures Idx(t + 1) == Idx(t) + 1
  {
  }

  lemma IdxPlus7(t: Square)
    requires t + 7 < 64
    ensures Idx(t + 7) == Idx(t) + 7
  {
  }

  lemma IdxPlus8(t: Square)
    requires t + 8 < 64
    ensures Idx(t + 8) == Idx(t) + 8
  {
  }

  lemma IdxPlus9(t: Square)
    requires t + 9 < 64
    ensures Idx(t + 9) == Idx(t) + 9
  {
  }

  lemma HasNorth(b: Bitboard, t: Square)
    ensures Has(Shift(b, North), t) == (t >= 8 && Has(b, t - 8))
  {
    BitNorth(b, Idx(t));
    IdxFacts(t);
    if t >= 8 {
      IdxPlus8(t - 8);
    }
  }

  lemma HasSouth(b: Bitboard, t: Square)
    ensures Has(Shift(b, South), t) == (t < 56 && Has(b, t + 8))
  {
    BitSouth(b, Idx(t));
    IdxFacts(t);
    if t < 56 {
      IdxPlus8(t);
    }
  }

  lemma HasEast(b: Bitboard, t: Square)
    ensures Has(Shift(b, East), t) == (t % 8 != 0 && Has(b, t - 1))
  {
    BitEast(b, Idx(t));
    IdxFacts(t);
    if t % 8 != 0 {
      IdxPlus1(t - 1);
    }
  }

  lemma HasWest(b: Bitboard, t: Square)
    ensures Has(Shift(b, West), t) == (t % 8 != 7 && Has(b, t + 1))
  {
    BitWest(b, Idx(t));
    IdxFacts(t);
    if t % 8 != 7 {
      IdxPlus1(t);
    }
  }

  lemma HasNorthEast(b: Bitboard, t: Square)
    ensures Has(Shift(b, NorthEast), t) == (t >= 8 && t % 8 != 0 && Has(b, t - 9))
  {
    BitNorthEast(b, Idx(t));
    IdxFacts(t);
    if t >= 8 && t % 8 != 0 {
      IdxPlus9(t - 9);
    }
  }

  lemma HasNorthWest(b: Bitboard, t: Square)
    ensures Has(Shift(b, NorthWest), t) == (t >= 8 && t % 8 != 7 && Has(b, t - 7))
  {
    BitNorthWest(b, Idx(t));
    IdxFacts(t);
    if t >= 8 && t % 8 != 7 {
      IdxPlus7(t - 7);
    }
  }

  lemma HasSouthEast(b: Bitboard, t: Square)
    ensures Has(Shift(b, SouthEast), t) == (t < 56 && t % 8 != 0 && Has(b, t + 7))
  {
    BitSouthEast(b, Idx(t));
    IdxFacts(t);
    if t < 56 && t % 8 != 0 {
      IdxPlus7(t);
    }
  }

  lemma HasSouthWest(b: Bitboard, t: Square)
    ensures Has(Shift(b, SouthWest), t) == (t < 56 && t % 8 != 7 && Has(b, t + 9))
  {
    BitSouthWest(b, Idx(t));
    IdxFacts(t);
    if t < 56 && t % 8 != 7 {
      IdxPlus9(t);
    }
  }

  /** The square whose content a shift in `d` moves onto `t`, if any. */
  function Source(t: Square, d: Direction): Option<Square> {
    Neighbour(t, Opposite(d))
  }

  /** Square `t` is in the shifted word iff the square one step back against `d` is in `b`. */
  lemma ShiftMembers(b: Bitboard, d: Direction, t: Square)
    ensures Has(Shift(b, d), t) == (Source(t, d).Some? && Has(b, Source(t, d).value))
  {
    SourceForms(t);
    match d
    case North => HasNorth(b, t);
    case South => HasSouth(b, t);
    case East => HasEast(b, t);
    case West => HasWest(b, t);
    case NorthEast => HasNorthEast(b, t);
    case NorthWest => HasNorthWest(b, t);
    case SouthEast => HasSouthEast(b, t);
    case SouthWest => HasSouthWest(b, t);
  }

  /** `Source` in index arithmetic, direction by direction. */
  lemma SourceForms(t: Square)
    ensures Source(t, North) == if t >= 8 then Some(t - 8) else None
    ensures Source(t, South) == if t < 56 then Some(t + 8) else None
    ensures Source(t, East) == if t % 8 != 0 then Some(t - 1) else None
    ensures Source(t, West) == if t % 8 != 7 then Some(t + 1) else None
    ensures Source(t, NorthEast) == if t >= 8 && t % 8 != 0 then Some(t - 9) else None
    ensures Source(t, NorthWest) == if t >= 8 && t % 8 != 7 then Some(t - 7) else None
    ensures Source(t, SouthEast) == if t < 56 && t % 8 != 0 then Some(t + 7) else None
    ensures Source(t, SouthWest) == if t < 56 && t % 8 != 7 then Some(t + 9) else None
  {
    var r, f := Rank(t), File(t);
    assert t == r * 8 + f && 0 <= f < 8;
    assert t >= 8 <==> r >= 1;
    assert t < 56 <==> r < 7;
    assert t % 8 == f;
  }

  /** A single square shifts onto its neighbour, or off the board. */
  lemma ShiftSingle(s: Square, d: Direction)
    ensures Shift(FromSquare(s), d) == match Neighbour(s, d) {
      case Some(n) => FromSquare(n)
      case None => EMPTY
    }
  {
    var r := Shift(FromSquare(s), d);
    var e := match Neighbour(s, d) {
      case Some(n) => FromSquare(n)
      case None => EMPTY
    };
    forall t: Square
      ensures Has(r, t) == Has(e, t)
    {
      ShiftMembers(FromSquare(s), d, t);
      NeighbourOpposite(s, t, d);
      if Neighbour(s, d).None? {
        HasMask(0, t);
        assert !Has(EMPTY, t);
      }
    }
    Extensionality(r, e);
  }
}
