/**
 * What the placement decoders do with the encoder's text, and with the
 * texts the encoder never writes.
 *
 * Both decoders read squares rank 8 first, file a first.  `Holds` says the
 * boards carry exactly the pieces of a placement on the squares read so far;
 * `Fresh` says nothing was placed on a square not yet read.  The encoder's
 * text keeps `Holds` for every decoder, so it decodes back to the normalized
 * placement.  `Fresh` is what keeps the boards disjoint: the lenient decoder
 * keeps it on every text, the checked strict step on every text without a
 * line break, and the strict step as written does not.
 */
module PlacementProofs {
  import opened Wrappers
  import opened Text
  import opened Squares
  import opened Bits
  import opened Bitboards
  import opened Placements
  import opened PlacementDecoders

  /** Square `s` comes before the cursor (rank, file) in reading order. */
  predicate Visited(s: Square, rank: nat, file: nat) {
    Rank(s) > rank || (Rank(s) == rank && File(s) < file)
  }

  /** Reading one more square of the rank visits exactly that square. */
  lemma VisitedNext(s: Square, rank: nat, file: nat)
    requires rank < 8 && file < 8
    ensures Visited(s, rank, file + 1) == (Visited(s, rank, file) || s == rank * 8 + file)
  {
  }

  /** After the whole rank comes the start of the rank below. */
  lemma VisitedRankEnd(s: Square, rank: nat)
    requires 0 < rank
    ensures Visited(s, rank, 8) == Visited(s, rank - 1, 0)
  {
  }

  /** `boards` hold the pieces of `b` on the squares read before (rank, file), and nothing else. */
  ghost predicate Holds(boards: Placement, b: Placement, rank: nat, file: nat) {
    forall k: Piece, s: Square :: Has(boards[k], s) <==> PieceAt(b, s) == Some(k) && Visited(s, rank, file)
  }

  /** Running over `x + y` is running over `x`, then over `y` from where `x` ended. */
  lemma {:induction false} RunAppend(v: Variant, cur: Cursor, x: string, y: string)
    ensures Run(v, cur, x + y) == match Run(v, cur, x) {
      case Ok(c) => Run(v, c, y)
      case Err(e) => Err(e)
    }
    decreases |x|
  {
    if x == [] {
      assert x + y == y;
    } else {
      assert (x + y)[0] == x[0];
      assert (x + y)[1..] == x[1..] + y;
      match Step(v, cur, x[0])
      case Err(e) =>
      case Ok(next) => RunAppend(v, next, x[1..], y);
    }
  }

  /** A run length of at most 8 empty squares skips that many files. */
  lemma FlushRun(v: Variant, cur: Cursor, e: nat)
    requires e <= 8 && cur.file + e <= 8
    ensures Run(v, cur, Flush(e)) == Ok(cur.(file := cur.file + e))
  {
    if e > 0 {
      var d := DigitChar(e);
      assert IsSkipDigit(d) && !IsPieceLetter(d);
      assert [d][1..] == [];
    }
  }

  /** A piece letter on an empty in-board square adds that square to the letter's board. */
  lemma LetterStep(v: Variant, cur: Cursor, c: char, k: Piece) returns (next: Cursor)
    requires cur.rank < 8 && cur.file < 8
    requires !Has(cur.boards[k], cur.rank * 8 + cur.file)
    requires PieceIndex(c) == Some(k)
    ensures Step(v, cur, c) == Ok(next)
    ensures next == Cursor(cur.rank, cur.file + 1, cur.boards[k := next.boards[k]])
    ensures forall s: Square :: Has(next.boards[k], s) == (Has(cur.boards[k], s) || s == cur.rank * 8 + cur.file)
  {
    PieceIndexOfLetter(k);
    if v == Lenient {
      next := LenientLetter(cur, c, k);
    } else {
      next := StrictLetter(cur, c, k);
      assert Step(v, cur, c) == StrictStep(cur, c);
    }
  }

  /** `LetterStep` for the lenient decoder: the letter toggles its square. */
  lemma LenientLetter(cur: Cursor, c: char, k: Piece) returns (next: Cursor)
    requires cur.rank < 8 && cur.file < 8
    requires !Has(cur.boards[k], cur.rank * 8 + cur.file)
    requires c != '/' && !IsSkipDigit(c) && PieceIndex(c) == Some(k)
    ensures LenientStep(cur, c) == Ok(next)
    ensures next == Cursor(cur.rank, cur.file + 1, cur.boards[k := next.boards[k]])
    ensures forall s: Square :: Has(next.boards[k], s) == (Has(cur.boards[k], s) || s == cur.rank * 8 + cur.file)
  {
    var w := Toggle(cur.boards[k], cur.rank * 8 + cur.file);
    next := Cursor(cur.rank, cur.file + 1, cur.boards[k := w]);
  }

  /** `LetterStep` for the strict decoders: the letter ORs its square in. */
  lemma StrictLetter(cur: Cursor, c: char, k: Piece) returns (next: Cursor)
    requires cur.rank < 8 && cur.file < 8
    requires PieceIndex(c) == Some(k)
    ensures StrictStep(cur, c) == Ok(next)
    ensures next == Cursor(cur.rank, cur.file + 1, cur.boards[k := next.boards[k]])
    ensures forall s: Square :: Has(next.boards[k], s) == (Has(cur.boards[k], s) || s == cur.rank * 8 + cur.file)
  {
    var w := BitOr(cur.boards[k], FromSquare(cur.rank * 8 + cur.file));
    next := Cursor(cur.rank, cur.file + 1, cur.boards[k := w]);
  }

  /** Adding the next square's piece to its board extends `Holds` by that square. */
  lemma PlaceHolds(boards: Placement, b: Placement, rank: nat, f: nat, k: Piece, w: Bitboard)
    requires rank < 8 && f < 8
    requires Holds(boards, b, rank, f)
    requires PieceAt(b, rank * 8 + f) == Some(k)
    requires forall s: Square :: Has(w, s) == (Has(boards[k], s) || s == rank * 8 + f)
    ensures Holds(boards[k := w], b, rank, f + 1)
  {
    forall j: Piece, s: Square
      ensures Has(boards[k := w][j], s) <==> PieceAt(b, s) == Some(j) && Visited(s, rank, f + 1)
    {
      PlaceSquare(boards, b, rank, f, k, w, j, s);
    }
    HoldsIntro(boards[k := w], b, rank, f + 1);
  }

  lemma HoldsIntro(nb: Placement, b: Placement, rank: nat, file: nat)
    requires forall j: Piece, s: Square :: Has(nb[j], s) <==> PieceAt(b, s) == Some(j) && Visited(s, rank, file)
    ensures Holds(nb, b, rank, file)
  {
  }

  lemma PlaceSquare(boards: Placement, b: Placement, rank: nat, f: nat, k: Piece, w: Bitboard, j: Piece, s: Square)
    requires rank < 8 && f < 8
    requires Holds(boards, b, rank, f)
    requires PieceAt(b, rank * 8 + f) == Some(k)
    requires forall s: Square :: Has(w, s) == (Has(boards[k], s) || s == rank * 8 + f)
    ensures Has(boards[k := w][j], s) <==> PieceAt(b, s) == Some(j) && Visited(s, rank, f + 1)
  {
    VisitedNext(s, rank, f);
    assert Has(boards[j], s) <==> PieceAt(b, s) == Some(j) && Visited(s, rank, f);
  }

  /** A letter for the piece `b` has on the cursor's square puts it there. */
  lemma LetterRun(v: Variant, cur: Cursor, b: Placement, c: char, k: Piece) returns (next: Cursor)
    requires cur.rank < 8 && cur.file < 8
    requires Holds(cur.boards, b, cur.rank, cur.file)
    requires PieceAt(b, cur.rank * 8 + cur.file) == Some(k) && PieceIndex(c) == Some(k)
    ensures Step(v, cur, c) == Ok(next)
    ensures next.rank == cur.rank && next.file == cur.file + 1
    ensures Holds(next.boards, b, cur.rank, cur.file + 1)
  {
    HoldsFree(cur.boards, b, cur.rank, cur.file, k);
    next := LetterStep(v, cur, c, k);
    LetterHolds(cur, b, k, next);
  }

  /** The square at the cursor is on no board yet. */
  lemma HoldsFree(boards: Placement, b: Placement, rank: nat, file: nat, k: Piece)
    requires rank < 8 && file < 8
    requires Holds(boards, b, rank, file)
    ensures !Has(boards[k], rank * 8 + file)
  {
    var q: Square := rank * 8 + file;
    assert !Visited(q, rank, file);
  }

  /** The boards after a letter step hold the square the letter was read on. */
  lemma LetterHolds(cur: Cursor, b: Placement, k: Piece, next: Cursor)
    requires cur.rank < 8 && cur.file < 8
    requires Holds(cur.boards, b, cur.rank, cur.file)
    requires PieceAt(b, cur.rank * 8 + cur.file) == Some(k)
    requires next == Cursor(cur.rank, cur.file + 1, cur.boards[k := next.boards[k]])
    requires forall s: Square :: Has(next.boards[k], s) == (Has(cur.boards[k], s) || s == cur.rank * 8 + cur.file)
    ensures Holds(next.boards, b, cur.rank, cur.file + 1)
  {
    PlaceHolds(cur.boards, b, cur.rank, cur.file, k, next.boards[k]);
  }

  /** An empty square extends `Holds` by that square without touching the boards. */
  lemma SkipHolds(boards: Placement, b: Placement, rank: nat, f: nat)
    requires rank < 8 && f < 8
    requires Holds(boards, b, rank, f)
    requires PieceAt(b, rank * 8 + f).None?
    ensures Holds(boards, b, rank, f + 1)
  {
    forall k: Piece, s: Square
      ensures Has(boards[k], s) <==> PieceAt(b, s) == Some(k) && Visited(s, rank, f + 1)
    {
      VisitedNext(s, rank, f);
    }
  }

  /** Reading a run length, a letter, then the rest. */
  lemma LetterThenRest(v: Variant, cur: Cursor, e: nat, c: char, rest: string, after: Cursor)
    requires e <= 8 && cur.file + e <= 8
    requires Step(v, cur.(file := cur.file + e), c) == Ok(after)
    ensures Run(v, cur, Flush(e) + [c] + rest) == Run(v, after, rest)
  {
    var mid := cur.(file := cur.file + e);
    FlushRun(v, cur, e);
    assert [c][1..] == [];
    assert Run(v, mid, [c]) == Ok(after);
    RunAppend(v, cur, Flush(e), [c]);
    RunAppend(v, cur, Flush(e) + [c], rest);
  }

  lemma RowTextEnd(b: Placement, rank: nat, e: nat)
    requires rank < 8
    ensures RowText(Row(b, rank)[8..], e) == Flush(e)
  {
    assert Row(b, rank)[8..] == [];
  }

  lemma RowTextSkip(b: Placement, rank: nat, f: nat, e: nat)
    requires rank < 8 && f < 8
    requires PieceAt(b, rank * 8 + f).None?
    ensures RowText(Row(b, rank)[f..], e) == RowText(Row(b, rank)[f + 1..], e + 1)
  {
    var row := Row(b, rank);
    var tail := row[f..];
    assert tail[0] == row[f] && tail[1..] == row[f + 1..];
  }

  lemma RowTextLetter(b: Placement, rank: nat, f: nat, e: nat, k: Piece)
    requires rank < 8 && f < 8
    requires PieceAt(b, rank * 8 + f) == Some(k)
    ensures RowText(Row(b, rank)[f..], e) == Flush(e) + [PIECE_LETTERS[k]] + RowText(Row(b, rank)[f + 1..], 0)
  {
    var row := Row(b, rank);
    var tail := row[f..];
    assert tail[0] == row[f] && tail[1..] == row[f + 1..];
  }

  /** Reading the run length before a piece letter, then the letter. */
  lemma LetterAdvance(v: Variant, b: Placement, rank: nat, f: nat, e: nat, cur: Cursor, c: char, k: Piece, rest: string)
      returns (after: Cursor)
    requires rank < 8 && e <= f < 8
    requires cur.rank == rank && cur.file + e == f
    requires Holds(cur.boards, b, rank, f)
    requires PieceAt(b, rank * 8 + f) == Some(k) && PieceIndex(c) == Some(k)
    ensures Run(v, cur, Flush(e) + [c] + rest) == Run(v, after, rest)
    ensures after.rank == rank && after.file == f + 1 && Holds(after.boards, b, rank, f + 1)
  {
    var mid := cur.(file := cur.file + e);
    after := LetterRun(v, mid, b, c, k);
    LetterThenRest(v, cur, e, c, rest, after);
  }

  /**
   * Decoding the text of squares `f..8` of `rank` (with `e` empty squares
   * pending before them) from a cursor that holds everything before `f`
   * ends at file 8 holding the whole rank.
   */
  lemma {:induction false} RowRun(v: Variant, b: Placement, rank: nat, f: nat, e: nat, cur: Cursor)
      returns (next: Cursor)
    requires rank < 8 && e <= f <= 8
    requires cur.rank == rank && cur.file + e == f
    requires Holds(cur.boards, b, rank, f)
    ensures Run(v, cur, RowText(Row(b, rank)[f..], e)) == Ok(next)
    ensures next.rank == rank && next.file == 8 && Holds(next.boards, b, rank, 8)
    decreases 8 - f, 1
  {
    if f == 8 {
      RowTextEnd(b, rank, e);
      FlushRun(v, cur, e);
      next := cur.(file := 8);
    } else if PieceAt(b, rank * 8 + f).None? {
      next := RowRunSkip(v, b, rank, f, e, cur);
    } else {
      next := RowRunLetter(v, b, rank, f, e, cur, PieceAt(b, rank * 8 + f).value);
    }
  }

  /** `RowRun` when square `f` is empty. */
  lemma {:induction false} RowRunSkip(v: Variant, b: Placement, rank: nat, f: nat, e: nat, cur: Cursor)
      returns (next: Cursor)
    requires rank < 8 && e <= f < 8
    requires cur.rank == rank && cur.file + e == f
    requires Holds(cur.boards, b, rank, f)
    requires PieceAt(b, rank * 8 + f).None?
    ensures Run(v, cur, RowText(Row(b, rank)[f..], e)) == Ok(next)
    ensures next.rank == rank && next.file == 8 && Holds(next.boards, b, rank, 8)
    decreases 8 - f, 0
  {
    RowTextSkip(b, rank, f, e);
    SkipHolds(cur.boards, b, rank, f);
    next := RowRun(v, b, rank, f + 1, e + 1, cur);
  }

  /** `RowRun` when square `f` holds piece `k`. */
  lemma {:induction false} RowRunLetter(v: Variant, b: Placement, rank: nat, f: nat, e: nat, cur: Cursor, k: Piece)
      returns (next: Cursor)
    requires rank < 8 && e <= f < 8
    requires cur.rank == rank && cur.file + e == f
    requires Holds(cur.boards, b, rank, f)
    requires PieceAt(b, rank * 8 + f) == Some(k)
    ensures Run(v, cur, RowText(Row(b, rank)[f..], e)) == Ok(next)
    ensures next.rank == rank && next.file == 8 && Holds(next.boards, b, rank, 8)
    decreases 8 - f, 0
  {
    RowTextLetter(b, rank, f, e, k);
    var rest := RowText(Row(b, rank)[f + 1..], 0);
    PieceIndexOfLetter(k);
    var after := LetterAdvance(v, b, rank, f, e, cur, PIECE_LETTERS[k], k, rest);
    next := RowRun(v, b, rank, f + 1, 0, after);
  }

  /** Holding a whole rank is holding everything before the rank below. */
  lemma RankEndHolds(boards: Placement, b: Placement, rank: nat, below: nat)
    requires below + 1 == rank
    requires Holds(boards, b, rank, 8)
    ensures Holds(boards, b, below, 0)
  {
    forall k: Piece, s: Square
      ensures Has(boards[k], s) <==> PieceAt(b, s) == Some(k) && Visited(s, below, 0)
    {
      VisitedRankEnd(s, rank);
    }
  }

  /** Reading a full rank, a '/', then the rest. */
  lemma SlashThenRest(v: Variant, cur: Cursor, t: string, end: Cursor, rest: string)
    requires Run(v, cur, t) == Ok(end)
    requires end.file == 8 && 0 < end.rank
    ensures Run(v, cur, t + "/" + rest) == Run(v, Cursor(end.rank - 1, 0, end.boards), rest)
  {
    var down := Cursor(end.rank - 1, 0, end.boards);
    assert Step(v, end, '/') == Ok(down);
    assert ['/'][1..] == [];
    assert Run(v, end, "/") == Ok(down);
    RunAppend(v, cur, t, "/");
    RunAppend(v, cur, t + "/", rest);
  }

  /** Decoding one whole rank's text from the start of that rank. */
  lemma RankRun(v: Variant, b: Placement, i: nat, cur: Cursor) returns (end: Cursor)
    requires i < 8
    requires cur.rank == 7 - i && cur.file == 0 && Holds(cur.boards, b, 7 - i, 0)
    ensures Run(v, cur, RankTexts(b)[i]) == Ok(end)
    ensures end.rank == 7 - i && end.file == 8 && Holds(end.boards, b, 7 - i, 8)
  {
    assert Row(b, 7 - i)[0..] == Row(b, 7 - i);
    end := RowRun(v, b, 7 - i, 0, 0, cur);
  }

  /** Decoding joined texts from text `i`, when text `i` decodes to a full rank. */
  lemma SlashJoin(v: Variant, ts: seq<string>, i: nat, cur: Cursor, end: Cursor)
    requires i + 1 < |ts|
    requires Run(v, cur, ts[i]) == Ok(end)
    requires end.file == 8 && 0 < end.rank
    ensures Run(v, cur, JoinRanks(ts[i..])) == Run(v, Cursor(end.rank - 1, 0, end.boards), JoinRanks(ts[i + 1..]))
  {
    JoinTail(ts, i);
    SlashThenRest(v, cur, ts[i], end, JoinRanks(ts[i + 1..]));
  }

  /** Decoding the joined texts of ranks `7 - i` down to 1 ends holding the whole board. */
  lemma {:induction false} RanksRun(v: Variant, b: Placement, i: nat, cur: Cursor) returns (next: Cursor)
    requires i < 8
    requires cur.rank == 7 - i && cur.file == 0 && Holds(cur.boards, b, 7 - i, 0)
    ensures Run(v, cur, JoinRanks(RankTexts(b)[i..])) == Ok(next)
    ensures Holds(next.boards, b, 0, 8)
    decreases 8 - i
  {
    var end := RankRun(v, b, i, cur);
    if i == 7 {
      JoinLast(RankTexts(b));
      next := end;
    } else {
      SlashJoin(v, RankTexts(b), i, cur, end);
      RankEndHolds(end.boards, b, 7 - i, 7 - (i + 1));
      next := RanksRun(v, b, i + 1, Cursor(end.rank - 1, 0, end.boards));
    }
  }

  lemma StartHolds(b: Placement)
    ensures Holds(START.boards, b, 7, 0)
  {
    forall k: Piece, s: Square
      ensures Has(START.boards[k], s) <==> PieceAt(b, s) == Some(k) && Visited(s, 7, 0)
    {
      StartSquare(k, s);
    }
    HoldsIntro(START.boards, b, 7, 0);
  }

  /** No square is on a starting board, and none is visited yet. */
  lemma StartSquare(k: Piece, s: Square)
    ensures !Has(START.boards[k], s) && !Visited(s, 7, 0)
  {
    assert START.boards[k] == 0;
    HasZero(s);
    assert Rank(s) <= 7;
  }

  /** Boards holding every square of `b` are `b` normalized. */
  lemma HoldsAll(boards: Placement, b: Placement)
    requires Holds(boards, b, 0, 8)
    ensures boards == Normalized(b)
  {
    var n := Normalized(b);
    forall k: Piece
      ensures boards[k] == n[k]
    {
      var w := NormalBoard(b, k);
      assert n[k] == w;
      forall s: Square
        ensures Has(boards[k], s) == Has(w, s)
      {
        assert Visited(s, 0, 8);
      }
      Extensionality(boards[k], w);
    }
  }

  /** Every decoder reads the encoder's text back to the normalized placement. */
  lemma PlacementRun(v: Variant, b: Placement) returns (last: Cursor)
    ensures Run(v, START, PlacementText(b)) == Ok(last)
    ensures last.boards == Normalized(b)
  {
    StartHolds(b);
    assert RankTexts(b)[0..] == RankTexts(b);
    last := RanksRun(v, b, 0, START);
    HoldsAll(last.boards, b);
  }

  /** The encoder's text has no line break, so the strict decoders see it as one line. */
  lemma PlacementLines(v: Variant, b: Placement)
    ensures LinesRun(v, START, Lines(PlacementText(b))) == Run(v, START, PlacementText(b))
  {
    var t := PlacementText(b);
    PlacementTextShape(b);
    assert '\n' !in t by {
      forall i | 0 <= i < |t| ensures t[i] != '\n' {
        assert IsRankChar(t[i]) || t[i] == '/';
      }
    }
    SingleLine(t);
    assert START.(file := 0) == START;
    assert [t][1..] == [];
  }

  /** Lenient decoding inverts encoding up to normalization. */
  lemma LenientRoundTrip(b: Placement)
    ensures DecodeLenient(PlacementText(b)) == Ok(Normalized(b))
  {
    var last := PlacementRun(Lenient, b);
  }

  /** Strict decoding, as written, inverts encoding up to normalization. */
  lemma StrictRoundTrip(b: Placement)
    ensures DecodeStrict(PlacementText(b)) == Ok(Normalized(b))
  {
    var last := PlacementRun(Strict, b);
    PlacementLines(Strict, b);
  }

  /** The checked strict decoder inverts encoding up to normalization. */
  lemma StrictCheckedRoundTrip(b: Placement)
    ensures DecodeStrictChecked(PlacementText(b)) == Ok(Normalized(b))
  {
    var last := PlacementRun(StrictChecked, b);
    PlacementLines(StrictChecked, b);
  }

  /** On disjoint boards all three decoders return exactly the encoded placement. */
  lemma DisjointRoundTrip(b: Placement)
    requires Disjoint(b)
    ensures DecodeLenient(PlacementText(b)) == Ok(b)
    ensures DecodeStrict(PlacementText(b)) == Ok(b)
    ensures DecodeStrictChecked(PlacementText(b)) == Ok(b)
  {
    LenientRoundTrip(b);
    StrictRoundTrip(b);
    StrictCheckedRoundTrip(b);
    NormalizedDisjoint(b);
  }

  // ---- disjointness ------------------------------------------------------

  /** Nothing is placed on a square the cursor has not read yet. */
  ghost predicate Fresh(cur: Cursor) {
    forall k: Piece, s: Square :: Has(cur.boards[k], s) ==> Visited(s, cur.rank, cur.file)
  }

  lemma StartFresh()
    ensures Fresh(START) && Disjoint(START.boards)
  {
    forall k: Piece, s: Square
      ensures !Has(START.boards[k], s)
    {
      assert START.boards[k] == 0;
      HasZero(s);
    }
  }

  /** Adding an unread square to one board keeps the boards fresh and disjoint. */
  lemma PlaceFresh(cur: Cursor, k: Piece, w: Bitboard)
    requires cur.rank < 8 && cur.file < 8
    requires Fresh(cur) && Disjoint(cur.boards)
    requires forall s: Square :: Has(w, s) == (Has(cur.boards[k], s) || s == cur.rank * 8 + cur.file)
    ensures Fresh(Cursor(cur.rank, cur.file + 1, cur.boards[k := w]))
    ensures Disjoint(cur.boards[k := w])
  {
    var q: Square := cur.rank * 8 + cur.file;
    var nb := cur.boards[k := w];
    assert !Visited(q, cur.rank, cur.file);
    forall j: Piece, s: Square | Has(nb[j], s)
      ensures Visited(s, cur.rank, cur.file + 1)
    {
      VisitedNext(s, cur.rank, cur.file);
    }
    forall i, j, s: Square | 0 <= i < j < 12
      ensures !(Has(nb[i], s) && Has(nb[j], s))
    {
      if s == q {
        assert !Has(cur.boards[i], q) && !Has(cur.boards[j], q);
      }
    }
  }

  /**
   * A lenient step, or a checked strict step, keeps the boards fresh and
   * disjoint: a letter is only ever placed on the square under the cursor.
   */
  lemma {:induction false} StepFresh(v: Variant, cur: Cursor, c: char)
    requires v != Strict
    requires Fresh(cur) && Disjoint(cur.boards)
    requires Step(v, cur, c).Ok?
    ensures Fresh(Step(v, cur, c).value) && Disjoint(Step(v, cur, c).value.boards)
  {
    var next := Step(v, cur, c).value;
    if IsPieceLetter(c) {
      var k := PieceIndex(c).value;
      PieceIndexOfLetter(k);
      assert PIECE_LETTERS[k] == c;
      assert cur.file < 8 && cur.rank < 8;
      assert !Has(cur.boards[k], cur.rank * 8 + cur.file) by {
        assert !Visited(cur.rank * 8 + cur.file, cur.rank, cur.file);
      }
      var n := LetterStep(v, cur, c, k);
      PlaceFresh(cur, k, n.boards[k]);
    } else {
      if c == '/' {
        assert next == Cursor(cur.rank - 1, 0, cur.boards);
      } else {
        assert next.rank == cur.rank && next.file >= cur.file && next.boards == cur.boards;
      }
      forall k: Piece, s: Square | Has(next.boards[k], s)
        ensures Visited(s, next.rank, next.file)
      {
        assert Visited(s, cur.rank, cur.file);
      }
    }
  }

  lemma {:induction false} RunFresh(v: Variant, cur: Cursor, s: string)
    requires v != Strict
    requires Fresh(cur) && Disjoint(cur.boards)
    requires Run(v, cur, s).Ok?
    ensures Fresh(Run(v, cur, s).value) && Disjoint(Run(v, cur, s).value.boards)
    decreases |s|
  {
    if s != [] {
      StepFresh(v, cur, s[0]);
      RunFresh(v, Step(v, cur, s[0]).value, s[1..]);
    }
  }

  /** Whatever the lenient decoder accepts, no square is on two boards. */
  lemma LenientDisjoint(s: string)
    requires DecodeLenient(s).Ok?
    ensures Disjoint(DecodeLenient(s).value)
  {
    StartFresh();
    RunFresh(Lenient, START, s);
  }

  /** Whatever the checked strict decoder accepts on one line, no square is on two boards. */
  lemma StrictCheckedDisjoint(s: string)
    requires '\n' !in s
    requires DecodeStrictChecked(s).Ok?
    ensures Disjoint(DecodeStrictChecked(s).value)
  {
    StartFresh();
    if s == [] {
      assert Lines(s) == [];
    } else {
      SingleLine(s);
      assert START.(file := 0) == START;
      assert |[s][1..]| == 0;
      var r := Run(StrictChecked, START, s);
      assert LinesRun(StrictChecked, START, [s]) == r;
      RunFresh(StrictChecked, START, s);
    }
  }

  // ---- the strict decoder as written -------------------------------------

  /** A queen on a8, then a king written after the eight empty squares of rank 7. */
  const OVERLAP: string := "Q7/8K"

  /**
   * The strict decoder never checks the width of the last rank: "Q7/8K"
   * reads `K` at file 8 of rank 7, index 56, which is the queen's square a8.
   */
  lemma StrictOverlap()
    ensures DecodeStrict(OVERLAP).Ok?
    ensures Has(DecodeStrict(OVERLAP).value[0], 56) && Has(DecodeStrict(OVERLAP).value[1], 56)
    ensures !Disjoint(DecodeStrict(OVERLAP).value)
  {
    var s: string := OVERLAP;
    SingleLine(s);
    assert START.(file := 0) == START;
    StrictOverlapRun();
    assert |[s][1..]| == 0;
    var b := DecodeStrict(s).value;
    assert b[0] == b[1] == BitOr(0, FromSquare(56));
  }

  /** The character-by-character run behind `StrictOverlap`. */
  lemma StrictOverlapRun()
    ensures var q := BitOr(0, FromSquare(56)); Run(Strict, START, OVERLAP) == Ok(Cursor(6, 9, EMPTY_PLACEMENT[1 := q][0 := q]))
  {
    var s: string := OVERLAP;
    var q := BitOr(0, FromSquare(56));
    var c3 := Cursor(6, 0, EMPTY_PLACEMENT[1 := q]);
    OverlapFirstRank(Strict);
    var c4 := Cursor(6, 8, c3.boards);
    RunOk(Strict, c3, s, 3, c4);
    PieceIndexOfLetter(0);
    var c5 := StrictStep(c4, 'K').value;
    assert c5.boards == c3.boards[0 := q];
    RunOk(Strict, c4, s, 4, c5);
    assert s[5..] == [];
  }

  /** Both strict decoders read "Q7/" of `OVERLAP` alike: a queen on a8, then rank 7 from file 0. */
  lemma OverlapFirstRank(v: Variant)
    requires v != Lenient
    ensures var q := BitOr(0, FromSquare(56));
      Run(v, START, OVERLAP) == Run(v, Cursor(6, 0, EMPTY_PLACEMENT[1 := q]), OVERLAP[3..])
  {
    var s: string := OVERLAP;
    PieceIndexOfLetter(1);
    var c1 := Step(v, START, 'Q').value;
    assert c1.boards == EMPTY_PLACEMENT[1 := BitOr(0, FromSquare(56))];
    var c2 := Step(v, c1, '7').value;
    var c3 := Step(v, c2, '/').value;
    RunOk(v, START, s, 0, c1);
    RunOk(v, c1, s, 1, c2);
    RunOk(v, c2, s, 2, c3);
  }

  /** The checked strict decoder rejects the same text. */
  lemma StrictCheckedRejectsOverlap()
    ensures DecodeStrictChecked(OVERLAP) == Err(ParseError)
  {
    var s: string := OVERLAP;
    SingleLine(s);
    assert START.(file := 0) == START;
    PieceIndexOfLetter(0);
    OverlapFirstRank(StrictChecked);
    var c3 := Cursor(6, 0, EMPTY_PLACEMENT[1 := BitOr(0, FromSquare(56))]);
    var c4 := Cursor(6, 8, c3.boards);
    RunOk(StrictChecked, c3, s, 3, c4);
    RunErr(StrictChecked, c4, s, 4, ParseError);
    assert |[s][1..]| == 0;
  }

  /** The lenient decoder's `Square::new(rank, 8)` unwrap aborts on it. */
  lemma LenientPanicsOnOverlap()
    ensures DecodeLenient(OVERLAP) == Err(Panicked)
  {
    var s: string := OVERLAP;
    PieceIndexOfLetter(1);
    PieceIndexOfLetter(0);
    var c1 := LenientStep(START, 'Q').value;
    var c2 := LenientStep(c1, '7').value;
    var c3 := LenientStep(c2, '/').value;
    var c4 := LenientStep(c3, '8').value;
    assert c4.rank == 6 && c4.file == 8;
    RunOk(Lenient, START, s, 0, c1);
    RunOk(Lenient, c1, s, 1, c2);
    RunOk(Lenient, c2, s, 2, c3);
    RunOk(Lenient, c3, s, 3, c4);
    RunErr(Lenient, c4, s, 4, Panicked);
  }

  /**
   * A line break restarts the file but not the rank, so even the checked
   * strict decoder reads "Q\nK" as a queen and a king both on a8.
   */
  lemma StrictCheckedNewlineOverlap()
    ensures DecodeStrictChecked("Q\nK").Ok?
    ensures !Disjoint(DecodeStrictChecked("Q\nK").value)
  {
    var s: string := "Q\nK";
    assert LineLength(s) == 1;
    assert s[..1] == "Q" && StripCarriageReturn("Q") == "Q";
    assert s[2..] == "K";
    SingleLine("K");
    assert Lines(s) == ["Q", "K"];
    PieceIndexOfLetter(1);
    PieceIndexOfLetter(0);
    var c1 := StrictCheckedStep(START, 'Q').value;
    assert Has(c1.boards[1], 56);
    assert Run(StrictChecked, START, "Q") == Ok(c1);
    var c2 := StrictCheckedStep(c1.(file := 0), 'K').value;
    assert Has(c2.boards[0], 56) && Has(c2.boards[1], 56);
    assert Run(StrictChecked, c1.(file := 0), "K") == Ok(c2);
    var lines: seq<string> := ["Q", "K"];
    assert lines[1..] == ["K"] && |lines[1..][1..]| == 0;
  }

  // ---- which texts are accepted --------------------------------------------

  /** Every decoder rejects a text with a character outside "/12345678KQRBNPkqrbnp". */
  lemma {:induction false} RunOkChars(v: Variant, cur: Cursor, s: string)
    requires Run(v, cur, s).Ok?
    ensures forall i :: 0 <= i < |s| ==> IsPlacementChar(s[i])
    decreases |s|
  {
    if s != [] {
      assert IsPlacementChar(s[0]);
      RunOkChars(v, Step(v, cur, s[0]).value, s[1..]);
      assert forall i :: 1 <= i < |s| ==> s[i] == s[1..][i - 1];
    }
  }

  lemma LenientOkChars(s: string)
    requires DecodeLenient(s).Ok?
    ensures forall i :: 0 <= i < |s| ==> IsPlacementChar(s[i])
  {
    RunOkChars(Lenient, START, s);
  }

  /** Wherever the checked strict step succeeds, the step as written does the same. */
  lemma {:induction false} CheckedRunAgrees(cur: Cursor, s: string)
    requires Run(StrictChecked, cur, s).Ok?
    ensures Run(Strict, cur, s) == Run(StrictChecked, cur, s)
    decreases |s|
  {
    if s != [] {
      CheckedRunAgrees(StrictCheckedStep(cur, s[0]).value, s[1..]);
    }
  }

  lemma {:induction false} CheckedLinesAgree(cur: Cursor, lines: seq<string>)
    requires LinesRun(StrictChecked, cur, lines).Ok?
    ensures LinesRun(Strict, cur, lines) == LinesRun(StrictChecked, cur, lines)
    decreases |lines|
  {
    if lines != [] {
      CheckedRunAgrees(cur.(file := 0), lines[0]);
      CheckedLinesAgree(Run(StrictChecked, cur.(file := 0), lines[0]).value, lines[1..]);
    }
  }

  /** The check only removes inputs: what the checked decoder accepts, the decoder as written decodes the same way. */
  lemma CheckedAgrees(s: string)
    requires DecodeStrictChecked(s).Ok?
    ensures DecodeStrict(s) == DecodeStrictChecked(s)
  {
    CheckedLinesAgree(START, Lines(s));
  }

  /** `n + 1` empty ranks, joined by '/'. */
  function EmptyRanks(n: nat): (t: string)
    ensures '\n' !in t && t != []
  {
    if n == 0 then "8" else "8/" + EmptyRanks(n - 1)
  }

  /** An empty rank and its '/' take the cursor to the start of the rank below, or abort below rank 1. */
  lemma EmptyRankRun(v: Variant, cur: Cursor, rest: string)
    requires cur.file == 0
    ensures Run(v, cur, "8/" + rest) ==
      if cur.rank == 0 then Err(Panicked) else Run(v, Cursor(cur.rank - 1, 0, cur.boards), rest)
  {
    var t := "8/" + rest;
    assert t[0] == '8' && t[1..][0] == '/' && t[1..][1..] == rest;
  }

  lemma LastEmptyRankRun(v: Variant, cur: Cursor)
    requires cur.file == 0
    ensures Run(v, cur, "8") == Ok(cur.(file := 8))
  {
    var t: string := "8";
    assert |t[1..]| == 0;
  }

  /** Empty ranks move the cursor down one rank each; one rank too many aborts. */
  lemma {:induction false} EmptyRanksRun(v: Variant, r: nat, n: nat)
    ensures n <= r ==> Run(v, Cursor(r, 0, EMPTY_PLACEMENT), EmptyRanks(n)) == Ok(Cursor(r - n, 8, EMPTY_PLACEMENT))
    ensures n > r ==> Run(v, Cursor(r, 0, EMPTY_PLACEMENT), EmptyRanks(n)) == Err(Panicked)
  {
    var cur := Cursor(r, 0, EMPTY_PLACEMENT);
    if n == 0 {
      LastEmptyRankRun(v, cur);
    } else {
      EmptyRankRun(v, cur, EmptyRanks(n - 1));
      if r > 0 {
        EmptyRanksRun(v, r - 1, n - 1);
      }
    }
  }

  /**
   * Neither decoder counts ranks: up to eight empty ranks decode to the empty
   * placement, and a ninth aborts on the rank moving below 0.
   */
  lemma EmptyRanksDecode(n: nat)
    ensures n < 8 ==> DecodeLenient(EmptyRanks(n)) == Ok(EMPTY_PLACEMENT)
    ensures n < 8 ==> DecodeStrict(EmptyRanks(n)) == Ok(EMPTY_PLACEMENT)
    ensures n >= 8 ==> DecodeLenient(EmptyRanks(n)) == Err(Panicked)
    ensures n >= 8 ==> DecodeStrict(EmptyRanks(n)) == Err(Panicked)
  {
    var t := EmptyRanks(n);
    EmptyRanksRun(Lenient, 7, n);
    EmptyRanksRun(Strict, 7, n);
    SingleLine(t);
    assert START.(file := 0) == START;
    assert |[t][1..]| == 0;
    assert LinesRun(Strict, START, [t]) == Run(Strict, START, t);
  }
}
