/**
 * Square: one of the 64 cells, stored as the `u8` index rank * 8 + file
 * (rank 0 is rank "1", file 0 is file "a"), with its algebraic text "a1".."h8".
 *
 * The newer snapshot builds squares only through checked constructors; the
 * older ones wrap any `u8` and build it with an unchecked `rank * 8 + file`.
 * Projections and both text conversions are the same code in all snapshots.
 */
module Squares {
  import opened Wrappers
  import opened Text

  /** An unsigned 8-bit value. */
  type U8 = n: nat | n < 256

  /** An index that names a cell of the board. */
  type Square = i: nat | i < 64

  /** `rank()`: the row, 0 for rank "1". */
  function Rank(idx: U8): nat {
    idx / 8
  }

  /** `file()`: the column, 0 for file "a". */
  function File(idx: U8): nat {
    idx % 8
  }

  /** `to_u8()`. */
  function ToU8(s: Square): U8 {
    s
  }

  /** Checked `Square::new(rank, file)`: a square only for coordinates on the board. */
  function New(rank: U8, file: U8): (r: Option<Square>)
    ensures r.Some? <==> rank < 8 && file < 8
    ensures r.Some? ==> Rank(r.value) == rank && File(r.value) == file
  {
    if rank < 8 && file < 8 then Some(rank * 8 + file) else None
  }

  /** `Square::from_u8(i)`: a square only for an index on the board. */
  function FromU8(i: U8): (r: Option<Square>)
    ensures r.Some? <==> i < 64
    ensures r.Some? ==> ToU8(r.value) == i
  {
    if i < 64 then Some(i) else None
  }

  /**
   * Unchecked `Square::new(rank, file)` of the older snapshots: `rank * 8 + file`
   * computed in `u8`, which aborts when it exceeds 255 (hence the requires).
   */
  function NewUnchecked(rank: U8, file: U8): (idx: U8)
    requires rank * 8 + file < 256
    ensures rank < 8 && file < 8 ==> idx < 64
    ensures file < 8 ==> Rank(idx) == rank && File(idx) == file
  {
    rank * 8 + file
  }

  function FileLetter(f: nat): (c: char)
    requires f < 8
    ensures 'a' <= c <= 'h' && c as int - 'a' as int == f
  {
    (('a' as int) + f) as char
  }

  /**
   * `Display`: the file letter, then rank + 1 in decimal.  Defined for every
   * `u8` index, as in the older snapshots where a `Square` may hold any `u8`;
   * on the board it is exactly two characters.
   */
  function SquareText(idx: U8): (r: string)
    ensures idx < 64 ==> |r| == 2 && 'a' <= r[0] <= 'h' && '1' <= r[1] <= '8'
    ensures idx < 64 ==> r[0] as int - 'a' as int == File(idx) && r[1] as int - '1' as int == Rank(idx)
  {
    [FileLetter(File(idx))] + NatToString(Rank(idx) + 1)
  }

  predicate IsSquareText(s: string) {
    |s| == 2 && 'a' <= s[0] <= 'h' && '1' <= s[1] <= '8'
  }

  /**
   * `FromStr`: exactly two UTF-8 bytes, a file letter 'a'..'h' and a rank digit
   * '1'..'8'.  A two-byte string is either two ASCII characters or one wider
   * character; the latter fails on its first character, so the second
   * character is always there when it is read.
   */
  function FromText(s: string): (r: Result<Square>)
    ensures r.Ok? <==> IsSquareText(s)
    ensures r.Ok? ==> File(r.value) == s[0] as int - 'a' as int
    ensures r.Ok? ==> Rank(r.value) == s[1] as int - '1' as int
  {
    if Utf8Length(s) != 2 then
      assert !IsSquareText(s) by {
        if IsSquareText(s) { AsciiPairLength(s); }
      }
      Err(ParseError)
    else if !('a' <= s[0] <= 'h') then Err(ParseError)
    else
      assert |s| == 2 by {
        assert Utf8Length(s) == 1 + Utf8Length(s[1..]);
        assert s[1..] != [];
      }
      if !('1' <= s[1] <= '8') then Err(ParseError)
      else
        var file := s[0] as int - 'a' as int;
        var rank := s[1] as int - '1' as int;
        Ok(file + rank * 8)
  }

  lemma AsciiPairLength(s: string)
    requires |s| == 2 && s[0] < '\U{0080}' && s[1] < '\U{0080}'
    ensures Utf8Length(s) == 2
  {
    assert Utf8Length(s) == Utf8Width(s[0]) + Utf8Width(s[1]) + Utf8Length(s[2..]);
  }

  /** Every square prints as text that parses back to it. */
  lemma TextRoundTrip(s: Square)
    ensures FromText(SquareText(s)) == Ok(s)
  {
    AsciiPairLength(SquareText(s));
  }

  /** Every accepted text is the text of the square it parses to. */
  lemma ParseRoundTrip(t: string)
    requires FromText(t).Ok?
    ensures SquareText(FromText(t).value) == t
  {
    var s := FromText(t).value;
    assert SquareText(s)[0] == t[0] && SquareText(s)[1] == t[1];
  }

  /** Distinct squares have distinct texts. */
  lemma SquareTextInjective(a: Square, b: Square)
    requires SquareText(a) == SquareText(b)
    ensures a == b
  {
    TextRoundTrip(a);
    TextRoundTrip(b);
  }
}
