/**
 * `Position::new`: the standard starting position, decoded from its FEN.
 * The decode never fails, and displaying the result gives the FEN back.
 */
module StartPosition {
  import opened Wrappers
  import opened Text
  import opened Squares
  import opened Bits
  import opened Placements
  import opened ActiveColors
  import opened Castling
  import opened Positions

  /** "rnbqkbnr/pppppppp/8/8/8/8/PPPPPPPP/RNBQKBNR", one rank at a time. */
  const START_PLACEMENT_TEXT: string :=
    "rnbqkbnr" + "/" + ("pppppppp" + "/" + ("8" + "/" + ("8" + "/" + ("8" + "/" + ("8" + "/" + ("PPPPPPPP" + "/" + "RNBQKBNR"))))))

  /** The twelve boards of the starting position, K Q R B N P k q r b n p. */
  const START_BOARDS: Placement := [
    0x0000_0000_0000_0010, 0x0000_0000_0000_0008, 0x0000_0000_0000_0081,
    0x0000_0000_0000_0024, 0x0000_0000_0000_0042, 0x0000_0000_0000_FF00,
    0x1000_0000_0000_0000, 0x0800_0000_0000_0000, 0x8100_0000_0000_0000,
    0x2400_0000_0000_0000, 0x4200_0000_0000_0000, 0x00FF_0000_0000_0000]

  const START_POSITION := Position(START_BOARDS, White, CastlingAvailability(true, true, true, true), None, 0, 1)

  /** The piece the starting position has on square `s`. */
  function StartPiece(s: int): Option<Piece> {
    if s == 4 then Some(0)
    else if s == 3 then Some(1)
    else if s == 0 || s == 7 then Some(2)
    else if s == 2 || s == 5 then Some(3)
    else if s == 1 || s == 6 then Some(4)
    else if 8 <= s < 16 then Some(5)
    else if s == 60 then Some(6)
    else if s == 59 then Some(7)
    else if s == 56 || s == 63 then Some(8)
    else if s == 58 || s == 61 then Some(9)
    else if s == 57 || s == 62 then Some(10)
    else if 48 <= s < 56 then Some(11)
    else None
  }

  lemma StartBit(k: Piece, x: bv8)
    requires x < 64
    ensures BitAt(START_BOARDS[k], x) == (StartPiece(x as int) == Some(k))
  {
  }

  /** Each starting board holds exactly the squares of its piece. */
  lemma StartMembers(k: Piece, s: Square)
    ensures Has(START_BOARDS[k], s) == (StartPiece(s) == Some(k))
  {
    StartBit(k, Idx(s));
  }

  lemma StartPieceAt(s: Square)
    ensures PieceAt(START_BOARDS, s) == StartPiece(s)
  {
    var p := PieceAt(START_BOARDS, s);
    if p.Some? {
      StartMembers(p.value, s);
    } else if StartPiece(s).Some? {
      StartMembers(StartPiece(s).value, s);
    }
  }

  lemma StartRow(rank: nat)
    requires rank < 8
    ensures Row(START_BOARDS, rank) == seq(8, f requires 0 <= f < 8 => StartPiece(rank * 8 + f))
  {
    forall f | 0 <= f < 8
      ensures Row(START_BOARDS, rank)[f] == StartPiece(rank * 8 + f)
    {
      StartPieceAt(rank * 8 + f);
    }
  }

  /** A row of pieces only is written as their letters. */
  lemma {:induction false} FullRowText(row: seq<Option<Piece>>)
    requires forall i :: 0 <= i < |row| ==> row[i].Some?
    ensures |RowText(row, 0)| == |row|
    ensures forall i :: 0 <= i < |row| ==> RowText(row, 0)[i] == PIECE_LETTERS[row[i].value]
  {
    if row != [] {
      FullRowText(row[1..]);
      assert RowText(row, 0) == [PIECE_LETTERS[row[0].value]] + RowText(row[1..], 0);
    }
  }

  /** A row of empty squares is written as one run length. */
  lemma {:induction false} EmptyRowText(row: seq<Option<Piece>>, e: nat)
    requires forall i :: 0 <= i < |row| ==> row[i].None?
    ensures RowText(row, e) == Flush(e + |row|)
  {
    if row != [] {
      EmptyRowText(row[1..], e + 1);
    }
  }

  /** The text of a rank whose squares hold `pieces`. */
  lemma PieceRank(rank: nat, pieces: seq<Piece>, text: string)
    requires rank < 8 && |pieces| == 8 && |text| == 8
    requires forall f :: 0 <= f < 8 ==> StartPiece(rank * 8 + f) == Some(pieces[f])
    requires forall f :: 0 <= f < 8 ==> PIECE_LETTERS[pieces[f]] == text[f]
    ensures RankText(START_BOARDS, rank) == text
  {
    var row := Row(START_BOARDS, rank);
    StartRow(rank);
    assert forall f :: 0 <= f < 8 ==> row[f] == Some(pieces[f]);
    FullRowText(row);
  }

  lemma EmptyRank(rank: nat)
    requires 2 <= rank < 6
    ensures RankText(START_BOARDS, rank) == "8"
  {
    var row := Row(START_BOARDS, rank);
    StartRow(rank);
    assert forall f :: 0 <= f < 8 ==> row[f].None?;
    EmptyRowText(row, 0);
    assert DigitChar(8) == '8';
  }

  /** The eight rank texts of the starting position, rank 8 first. */
  predicate StartRanks(ts: seq<string>) {
    && |ts| == 8
    && ts[0] == "rnbqkbnr" && ts[1] == "pppppppp"
    && ts[2] == "8" && ts[3] == "8" && ts[4] == "8" && ts[5] == "8"
    && ts[6] == "PPPPPPPP" && ts[7] == "RNBQKBNR"
  }

  lemma Rank8Text()
    ensures RankText(START_BOARDS, 7) == "rnbqkbnr"
  {
    PieceRank(7, [8, 10, 9, 7, 6, 9, 10, 8], "rnbqkbnr");
  }

  lemma Rank7Text()
    ensures RankText(START_BOARDS, 6) == "pppppppp"
  {
    PieceRank(6, [11, 11, 11, 11, 11, 11, 11, 11], "pppppppp");
  }

  lemma Rank2Text()
    ensures RankText(START_BOARDS, 1) == "PPPPPPPP"
  {
    PieceRank(1, [5, 5, 5, 5, 5, 5, 5, 5], "PPPPPPPP");
  }

  lemma Rank1Text()
    ensures RankText(START_BOARDS, 0) == "RNBQKBNR"
  {
    PieceRank(0, [2, 4, 3, 1, 0, 3, 4, 2], "RNBQKBNR");
  }

  lemma StartRankTexts()
    ensures StartRanks(RankTexts(START_BOARDS))
  {
    var ts := RankTexts(START_BOARDS);
    Rank8Text();
    Rank7Text();
    EmptyRank(5);
    EmptyRank(4);
    EmptyRank(3);
    EmptyRank(2);
    Rank2Text();
    Rank1Text();
  }

  lemma StartJoin(ts: seq<string>)
    requires StartRanks(ts)
    ensures JoinRanks(ts) == START_PLACEMENT_TEXT
  {
    assert ts[7..] == ["RNBQKBNR"];
    assert JoinRanks(ts[7..]) == "RNBQKBNR";
    JoinTail(ts, 6);
    JoinTail(ts, 5);
    JoinTail(ts, 4);
    JoinTail(ts, 3);
    JoinTail(ts, 2);
    JoinTail(ts, 1);
    JoinTail(ts, 0);
    assert ts[0..] == ts;
  }

  /** The encoder writes the starting placement as the standard piece placement field. */
  lemma StartPlacementText()
    ensures PlacementText(START_BOARDS) == START_PLACEMENT_TEXT
  {
    StartRankTexts();
    StartJoin(RankTexts(START_BOARDS));
  }

  /** "rnbqkbnr/pppppppp/8/8/8/8/PPPPPPPP/RNBQKBNR w KQkq - 0 1", one field at a time. */
  const START_FEN: string :=
    START_PLACEMENT_TEXT + " " + ("w" + " " + ("KQkq" + " " + ("-" + " " + ("0" + " " + "1"))))

  /** No square of the starting position is on two boards. */
  lemma StartDisjoint()
    ensures Disjoint(START_BOARDS)
  {
    forall j, k, s: Square | 0 <= j < k < 12
      ensures !(Has(START_BOARDS[j], s) && Has(START_BOARDS[k], s))
    {
      StartMembers(j, s);
      StartMembers(k, s);
    }
  }

  lemma {:induction false} JoinWordsTail(ts: seq<string>, k: nat)
    requires k + 1 < |ts|
    ensures JoinWords(ts[k..]) == ts[k] + " " + JoinWords(ts[k + 1..])
  {
    assert ts[k..][0] == ts[k] && ts[k..][1..] == ts[k + 1..];
  }

  lemma ClockTexts()
    ensures NatToString(0) == "0" && NatToString(1) == "1"
  {
  }

  lemma StartCastlingText()
    ensures CastlingText(CastlingAvailability(true, true, true, true)) == "KQkq"
  {
    assert FlagLetters(CastlingAvailability(true, true, true, true)) == "K" + "Q" + "k" + "q";
  }

  /** The text of a position with the start position's five trailing fields. */
  lemma StartFieldsText(p: Position, placement: string)
    requires PlacementText(p.placement) == placement
    requires p.activeColor == White && p.castling == CastlingAvailability(true, true, true, true)
    requires p.enPassant == None && p.halfmoveClock == 0 && p.fullmoveNumber == 1
    ensures PositionText(p) == placement + " " + ("w" + " " + ("KQkq" + " " + ("-" + " " + ("0" + " " + "1"))))
  {
    var fs := Fields(p);
    ClockTexts();
    StartCastlingText();
    assert fs == [placement, "w", "KQkq", "-", "0", "1"];
    assert fs[5..] == ["1"];
    JoinWordsTail(fs, 4);
    JoinWordsTail(fs, 3);
    JoinWordsTail(fs, 2);
    JoinWordsTail(fs, 1);
    JoinWordsTail(fs, 0);
    assert fs[0..] == fs;
  }

  /** `Display` of the starting position is the standard start FEN. */
  lemma StartText()
    ensures PositionText(START_POSITION) == START_FEN
  {
    StartPlacementText();
    StartFieldsText(START_POSITION, START_PLACEMENT_TEXT);
  }

  /** `Position::new`: decoding the start FEN, which never fails, in either snapshot. */
  function New(): (p: Position)
    ensures DecodeFen(START_FEN) == Ok(p)
    ensures DecodeFenTokensFirst(START_FEN) == Ok(p)
    ensures PositionText(p) == START_FEN
  {
    StartDisjoint();
    StartText();
    PositionRoundTrip(START_POSITION);
    START_POSITION
  }
}
