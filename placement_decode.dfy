/**
 * The two placement decoders, as one character step each over a cursor
 * (rank, file, boards) folded over the text, and the imperative `from_str`
 * loops proved equal to those folds.
 *
 * The lenient decoder reads the whole text as one stream: '/' moves to the
 * next rank down, a digit skips squares, a letter toggles its square on the
 * letter's board.  The strict decoder reads the text line by line (the file
 * restarts with each line, the rank does not), ORs a letter's square into the
 * letter's board, and rejects a '/' that does not end a full rank.  Neither
 * checks the width of the last rank or the number of ranks.
 *
 * `rank` and `file` are `u8` in the source and `Square::new`'s result is
 * unwrapped or shifted by; the inputs on which that aborts give `Panicked`.
 */
module PlacementDecoders {
  import opened Wrappers
  import opened Text
  import opened Squares
  import opened Bits
  import opened Bitboards
  import opened Placements

  /** Where the decoder stands, and the boards built so far. */
  datatype Cursor = Cursor(rank: nat, file: nat, boards: Placement)

  /** Rank 8 (index 7), file a, nothing placed. */
  const START := Cursor(7, 0, EMPTY_PLACEMENT)

  predicate IsSkipDigit(c: char) {
    '1' <= c <= '8'
  }

  /** A character either decoder has a case for. */
  predicate IsPlacementChar(c: char) {
    c == '/' || IsSkipDigit(c) || IsPieceLetter(c)
  }

  /** One character of the lenient decoder. */
  function LenientStep(cur: Cursor, c: char): (r: Result<Cursor>)
    ensures r == Err(ParseError) <==> !IsPlacementChar(c)
    ensures c == '/' ==> (r.Err? <==> cur.rank == 0)
    ensures IsPieceLetter(c) ==> (r.Err? <==> cur.rank >= 8 || cur.file >= 8)
    ensures r.Ok? ==> r.value.rank <= cur.rank
  {
    if c == '/' then
      if cur.rank == 0 then Err(Panicked)
      else Ok(Cursor(cur.rank - 1, 0, cur.boards))
    else if IsSkipDigit(c) then
      var file := cur.file + DigitValue(c);
      if file > 255 then Err(Panicked) else Ok(cur.(file := file))
    else
      match PieceIndex(c)
      case None => Err(ParseError)
      case Some(k) =>
        if cur.rank >= 8 || cur.file >= 8 then Err(Panicked)
        else
          var square := cur.rank * 8 + cur.file;
          Ok(Cursor(cur.rank, cur.file + 1, cur.boards[k := Toggle(cur.boards[k], square)]))
  }

  /**
   * One character of the strict decoder.  A letter's square index
   * `rank * 8 + file` is used unchecked: from 64 on, the `u8` sum or the
   * 64-bit shift overflows.
   */
  function StrictStep(cur: Cursor, c: char): (r: Result<Cursor>)
    ensures !IsPlacementChar(c) ==> r == Err(ParseError)
    ensures c == '/' ==> (r == Err(ParseError) <==> cur.file != 8)
    ensures c == '/' && cur.file == 8 ==> (r.Err? <==> cur.rank == 0)
    ensures IsPieceLetter(c) ==> (r.Err? <==> cur.rank * 8 + cur.file >= 64)
    ensures r.Ok? ==> r.value.rank <= cur.rank
  {
    match PieceIndex(c)
    case Some(k) =>
      var square := cur.rank * 8 + cur.file;
      if square >= 64 then Err(Panicked)
      else Ok(Cursor(cur.rank, cur.file + 1, cur.boards[k := BitOr(cur.boards[k], FromSquare(square))]))
    case None =>
      if IsSkipDigit(c) then
        var file := cur.file + DigitValue(c);
        if file > 255 then Err(Panicked) else Ok(cur.(file := file))
      else if c == '/' then
        if cur.file != 8 then Err(ParseError)
        else if cur.rank == 0 then Err(Panicked)
        else Ok(Cursor(cur.rank - 1, 0, cur.boards))
      else Err(ParseError)
  }

  /**
   * The strict step with the letter's file checked as the lenient decoder's
   * `Square::new` does: a letter past file h is a parse error instead of a
   * square of the rank above.
   */
  function StrictCheckedStep(cur: Cursor, c: char): (r: Result<Cursor>)
    ensures IsPieceLetter(c) && cur.file >= 8 ==> r == Err(ParseError)
    ensures !(IsPieceLetter(c) && cur.file >= 8) ==> r == StrictStep(cur, c)
  {
    if IsPieceLetter(c) && cur.file >= 8 then Err(ParseError) else StrictStep(cur, c)
  }

  datatype Variant = Lenient | Strict | StrictChecked

  function Step(v: Variant, cur: Cursor, c: char): Result<Cursor> {
    match v
    case Lenient => LenientStep(cur, c)
    case Strict => StrictStep(cur, c)
    case StrictChecked => StrictCheckedStep(cur, c)
  }

  /** The steps of `v` over `s`, stopping at the first failure. */
  function Run(v: Variant, cur: Cursor, s: string): Result<Cursor>
    decreases |s|
  {
    if s == [] then Ok(cur)
    else
      match Step(v, cur, s[0])
      case Err(e) => Err(e)
      case Ok(next) => Run(v, next, s[1..])
  }

  /** The strict decoders' outer loop: each line starts at file 0 of the current rank. */
  function LinesRun(v: Variant, cur: Cursor, lines: seq<string>): Result<Cursor>
    decreases |lines|
  {
    if lines == [] then Ok(cur)
    else
      match Run(v, cur.(file := 0), lines[0])
      case Err(e) => Err(e)
      case Ok(next) => LinesRun(v, next, lines[1..])
  }

  function Boards(r: Result<Cursor>): Result<Placement> {
    match r
    case Ok(cur) => Ok(cur.boards)
    case Err(e) => Err(e)
  }

  /** `FromStr` of the lenient snapshot. */
  function DecodeLenient(s: string): Result<Placement> {
    Boards(Run(Lenient, START, s))
  }

  /** `FromStr` of the strict snapshots, as written. */
  function DecodeStrict(s: string): Result<Placement> {
    Boards(LinesRun(Strict, START, Lines(s)))
  }

  /** `FromStr` of the strict snapshots with the letter's file checked. */
  function DecodeStrictChecked(s: string): Result<Placement> {
    Boards(LinesRun(StrictChecked, START, Lines(s)))
  }

  /** A successful step at character `i` leaves the run from `i + 1`. */
  lemma RunOk(v: Variant, cur: Cursor, s: string, i: nat, next: Cursor)
    requires i < |s| && Step(v, cur, s[i]) == Ok(next)
    ensures Run(v, cur, s[i..]) == Run(v, next, s[i + 1..])
  {
    assert s[i..][0] == s[i] && s[i..][1..] == s[i + 1..];
  }

  /** A failing step at character `i` ends the run with its error. */
  lemma RunErr(v: Variant, cur: Cursor, s: string, i: nat, e: Error)
    requires i < |s| && Step(v, cur, s[i]) == Err(e)
    ensures Run(v, cur, s[i..]) == Err(e)
  {
    assert s[i..][0] == s[i];
  }

  /**
   * One character of the lenient `from_str`, on the array itself: a letter
   * toggles its square in its board, and the rank and file move on.
   */
  method LenientStepInPlace(pieces: array<Bitboard>, rank: nat, file: nat, c: char) returns (r: Result<Cursor>)
    requires pieces.Length == 12
    modifies pieces
    ensures r == Step(Lenient, Cursor(rank, file, old(pieces[..])), c)
    ensures r.Ok? ==> pieces[..] == r.value.boards
  {
    if c == '/' {
      if rank == 0 {
        return Err(Panicked);
      }
      return Ok(Cursor(rank - 1, 0, pieces[..]));
    } else if IsSkipDigit(c) {
      if file + DigitValue(c) > 255 {
        return Err(Panicked);
      }
      return Ok(Cursor(rank, file + DigitValue(c), pieces[..]));
    }
    var piece := PieceIndex(c);
    if piece.None? {
      return Err(ParseError);
    }
    if rank >= 8 || file >= 8 {
      return Err(Panicked);
    }
    var k := piece.value;
    pieces[k] := Toggle(pieces[k], rank * 8 + file);
    assert pieces[..] == old(pieces[..])[k := Toggle(old(pieces[k]), rank * 8 + file)];
    r := Ok(Cursor(rank, file + 1, pieces[..]));
  }

  /** The lenient `from_str`: one pass over the characters, toggling squares of a 12-board array. */
  method LenientFromStr(s: string) returns (r: Result<Placement>)
    ensures r == DecodeLenient(s)
  {
    var pieces := new Bitboard[12](_ => 0);
    assert pieces[..] == EMPTY_PLACEMENT;
    var rank: nat, file: nat := 7, 0;
    var i := 0;
    while i < |s|
      invariant 0 <= i <= |s|
      invariant Run(Lenient, Cursor(rank, file, pieces[..]), s[i..]) == Run(Lenient, START, s)
    {
      ghost var cur := Cursor(rank, file, pieces[..]);
      var next := LenientStepInPlace(pieces, rank, file, s[i]);
      if next.Err? {
        RunErr(Lenient, cur, s, i, next.error);
        return Err(next.error);
      }
      RunOk(Lenient, cur, s, i, next.value);
      rank, file := next.value.rank, next.value.file;
      i := i + 1;
    }
    assert s[|s|..] == [];
    r := Ok(pieces[..]);
  }

  /**
   * The strict `from_str`: a loop over the lines, each a loop over its
   * characters (`ReadLine`), OR-ing squares into a 12-board array.
   */
  method StrictFromStr(s: string) returns (r: Result<Placement>)
    ensures r == DecodeStrict(s)
  {
    var ppd := new Bitboard[12](_ => 0);
    assert ppd[..] == EMPTY_PLACEMENT;
    var rank: nat, file: nat := 7, 0;
    var lines := Lines(s);
    var n := 0;
    while n < |lines|
      invariant 0 <= n <= |lines|
      invariant LinesRun(Strict, START, lines) == LinesRun(Strict, Cursor(rank, file, ppd[..]), lines[n..])
    {
      assert lines[n..][0] == lines[n] && lines[n..][1..] == lines[n + 1..];
      var line := ReadLine(ppd, rank, lines[n]);
      if line.Err? {
        return Err(line.error);
      }
      rank, file := line.value.rank, line.value.file;
      n := n + 1;
    }
    r := Ok(ppd[..]);
  }

  /**
   * One character of the strict `from_str`, on the array itself: a letter
   * ORs its square into its board, and the rank and file move on.
   */
  method StrictStepInPlace(ppd: array<Bitboard>, rank: nat, file: nat, c: char) returns (r: Result<Cursor>)
    requires ppd.Length == 12
    modifies ppd
    ensures r == Step(Strict, Cursor(rank, file, old(ppd[..])), c)
    ensures r.Ok? ==> ppd[..] == r.value.boards
  {
    var piece := PieceIndex(c);
    if piece.Some? {
      if rank * 8 + file >= 64 {
        return Err(Panicked);
      }
      var k := piece.value;
      ppd[k] := BitOr(ppd[k], FromSquare(rank * 8 + file));
      assert ppd[..] == old(ppd[..])[k := BitOr(old(ppd[k]), FromSquare(rank * 8 + file))];
      return Ok(Cursor(rank, file + 1, ppd[..]));
    } else if IsSkipDigit(c) {
      if file + DigitValue(c) > 255 {
        return Err(Panicked);
      }
      return Ok(Cursor(rank, file + DigitValue(c), ppd[..]));
    } else if c == '/' {
      if file != 8 {
        return Err(ParseError);
      }
      if rank == 0 {
        return Err(Panicked);
      }
      return Ok(Cursor(rank - 1, 0, ppd[..]));
    }
    r := Err(ParseError);
  }

  /** One line of the strict `from_str`: the file restarts at 0, the rank carries on. */
  method ReadLine(ppd: array<Bitboard>, rank0: nat, line: string) returns (r: Result<Cursor>)
    requires ppd.Length == 12
    modifies ppd
    ensures r == Run(Strict, Cursor(rank0, 0, old(ppd[..])), line)
    ensures r.Ok? ==> ppd[..] == r.value.boards
  {
    ghost var lineStart := Cursor(rank0, 0, ppd[..]);
    var rank: nat, file: nat := rank0, 0;
    var i := 0;
    while i < |line|
      invariant 0 <= i <= |line|
      invariant Run(Strict, Cursor(rank, file, ppd[..]), line[i..]) == Run(Strict, lineStart, line)
    {
      ghost var cur := Cursor(rank, file, ppd[..]);
      var next := StrictStepInPlace(ppd, rank, file, line[i]);
      if next.Err? {
        RunErr(Strict, cur, line, i, next.error);
        return Err(next.error);
      }
      RunOk(Strict, cur, line, i, next.value);
      rank, file := next.value.rank, next.value.file;
      i := i + 1;
    }
    assert line[|line|..] == [];
    r := Ok(Cursor(rank, file, ppd[..]));
  }
}
