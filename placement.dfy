/**
 * Piece placement data: twelve bitboards, one per piece kind in the order
 * K Q R B N P k q r b n p (white pieces upper-case), and its FEN text.
 *
 * The encoder is the same in both snapshots: ranks 8 down to 1, files a to h;
 * a square shows the letter of the first board that holds it, a run of empty
 * squares shows as its length, and ranks are separated by '/'.
 */
module Placements {
  import opened Wrappers
  import opened Text
  import opened Squares
  import opened Bits
  import opened Bitboards

  /** `PiecePlacementData([Bitboard; 12])`. */
  type Placement = b: seq<Bitboard> | |b| == 12 witness [0, 0, 0, 0, 0, 0, 0, 0, 0, 0, 0, 0]

  /** The index of a board, 0 for white king through 11 for black pawn. */
  type Piece = k: nat | k < 12

  const EMPTY_PLACEMENT: Placement := [0, 0, 0, 0, 0, 0, 0, 0, 0, 0, 0, 0]

  /** The FEN letter of each board, by index. */
  const PIECE_LETTERS: string := "KQRBNPkqrbnp"

  predicate IsPieceLetter(c: char) {
    || c == 'K' || c == 'Q' || c == 'R' || c == 'B' || c == 'N' || c == 'P'
    || c == 'k' || c == 'q' || c == 'r' || c == 'b' || c == 'n' || c == 'p'
  }

  /** The board a piece letter selects, if `c` is one. */
  function PieceIndex(c: char): (r: Option<Piece>)
    ensures r.Some? <==> IsPieceLetter(c)
    ensures r.Some? ==> r.value < 12 && PIECE_LETTERS[r.value] == c
  {
    match c
    case 'K' => Some(0)
    case 'Q' => Some(1)
    case 'R' => Some(2)
    case 'B' => Some(3)
    case 'N' => Some(4)
    case 'P' => Some(5)
    case 'k' => Some(6)
    case 'q' => Some(7)
    case 'r' => Some(8)
    case 'b' => Some(9)
    case 'n' => Some(10)
    case 'p' => Some(11)
    case _ => None
  }

  lemma PieceIndexOfLetter(k: nat)
    requires k < 12
    ensures PieceIndex(PIECE_LETTERS[k]) == Some(k)
    ensures IsPieceLetter(PIECE_LETTERS[k]) && PIECE_LETTERS[k] != '/' && !('1' <= PIECE_LETTERS[k] <= '8')
  {
  }

  // ---------------------------------------------------------------------
  // Which piece stands on a square
  // ---------------------------------------------------------------------

  /** The first board from index `i` on that holds `s`. */
  function FirstHit(b: Placement, s: Square, i: nat): (r: Option<Piece>)
    requires i <= 12
    ensures r.Some? ==> i <= r.value < 12 && Has(b[r.value], s)
    ensures r.Some? ==> forall k :: i <= k < r.value ==> !Has(b[k], s)
    ensures r.None? ==> forall k :: i <= k < 12 ==> !Has(b[k], s)
    decreases 12 - i
  {
    if i == 12 then None
    else if Has(b[i], s) then Some(i)
    else FirstHit(b, s, i + 1)
  }

  /** The piece the encoder shows on `s`: the first board holding it. */
  function PieceAt(b: Placement, s: Square): Option<Piece> {
    FirstHit(b, s, 0)
  }

  lemma FirstHitAt(b: Placement, s: Square, i: nat)
    requires i < 12 && Has(b[i], s)
    requires forall k :: 0 <= k < i ==> !Has(b[k], s)
    ensures FirstHit(b, s, 0) == Some(i)
  {
    var r := FirstHit(b, s, 0);
    assert r.Some?;
    if r.value < i {
    } else if r.value > i {
    }
  }

  /** The `find_map` / `break` search over the twelve boards. */
  method FindPiece(b: Placement, s: Square) returns (piece: Option<Piece>)
    ensures piece == PieceAt(b, s)
  {
    var i := 0;
    while i < 12
      invariant 0 <= i <= 12
      invariant forall k :: 0 <= k < i ==> !Has(b[k], s)
    {
      HasByMask(b[i], s);
      if b[i] & Mask(s) != 0 {
        assert FirstHit(b, s, 0) == Some(i) by { FirstHitAt(b, s, i); }
        return Some(i);
      }
      i := i + 1;
    }
    return None;
  }

  /** No square is on two boards. */
  predicate Disjoint(b: Placement) {
    forall j, k, s: Square :: 0 <= j < k < 12 ==> !(Has(b[j], s) && Has(b[k], s))
  }

  /** The union of the boards below index `k`. */
  function UnionBelow(b: Placement, k: nat): (u: Bitboard)
    requires k <= 12
    ensures forall s: Square :: Has(u, s) <==> PieceAt(b, s).Some? && PieceAt(b, s).value < k
  {
    if k == 0 then
      assert forall s: Square :: !Has(EMPTY, s) by {
        forall s: Square ensures !Has(EMPTY, s) { HasMask(0, s); HasAnd(EMPTY, Mask(0), s); }
      }
      EMPTY
    else BitOr(UnionBelow(b, k - 1), b[k - 1])
  }

  /** Board `k` without the squares an earlier board already holds. */
  function NormalBoard(b: Placement, k: nat): (r: Bitboard)
    requires k < 12
    ensures forall s: Square :: Has(r, s) <==> PieceAt(b, s) == Some(k)
  {
    BitAnd(b[k], BitNot(UnionBelow(b, k)))
  }

  /** The placement the encoder actually shows: each square on its first board only. */
  function Normalized(b: Placement): Placement {
    seq(12, k requires 0 <= k < 12 => NormalBoard(b, k))
  }

  /** A normalised placement is disjoint, and shows the same pieces. */
  lemma NormalizedFacts(b: Placement)
    ensures Disjoint(Normalized(b))
    ensures forall s: Square :: PieceAt(Normalized(b), s) == PieceAt(b, s)
  {
    var n := Normalized(b);
    assert forall k, s: Square :: 0 <= k < 12 ==> (Has(n[k], s) <==> PieceAt(b, s) == Some(k));
    forall s: Square
      ensures PieceAt(n, s) == PieceAt(b, s)
    {
      var p := PieceAt(b, s);
      if p.Some? {
        FirstHitAt(n, s, p.value);
      }
    }
  }

  /** Normalising changes nothing when the boards are already disjoint. */
  lemma NormalizedDisjoint(b: Placement)
    requires Disjoint(b)
    ensures Normalized(b) == b
  {
    var n := Normalized(b);
    forall k | 0 <= k < 12
      ensures n[k] == b[k]
    {
      forall s: Square
        ensures Has(n[k], s) == Has(b[k], s)
      {
        var p := PieceAt(b, s);
        if Has(b[k], s) {
          assert p.Some? && p.value <= k;
        }
      }
      Extensionality(n[k], b[k]);
    }
  }

  // ---------------------------------------------------------------------
  // The encoded text
  // ---------------------------------------------------------------------

  /** What the encoder sees on the eight squares of `rank`, file a first. */
  function Row(b: Placement, rank: nat): (row: seq<Option<Piece>>)
    requires rank < 8
    ensures |row| == 8
    ensures forall f :: 0 <= f < 8 ==> row[f] == PieceAt(b, rank * 8 + f)
  {
    seq(8, f requires 0 <= f < 8 => PieceAt(b, rank * 8 + f))
  }

  /** The decimal run length, printed only when there is one. */
  function Flush(e: nat): (r: string)
    ensures e == 0 ==> r == []
    ensures 1 <= e < 10 ==> r == [DigitChar(e)]
  {
    if e > 0 then NatToString(e) else []
  }

  /**
   * The text of the squares `row`, `e` empty squares being pending just
   * before them: a letter per piece, each run of empty squares as its length.
   */
  function RowText(row: seq<Option<Piece>>, e: nat): string {
    if row == [] then Flush(e)
    else
      match row[0]
      case Some(k) => Flush(e) + [PIECE_LETTERS[k]] + RowText(row[1..], 0)
      case None => RowText(row[1..], e + 1)
  }

  function RankText(b: Placement, rank: nat): string
    requires rank < 8
  {
    RowText(Row(b, rank), 0)
  }

  /** The texts of the eight ranks, rank 8 (index 7) first. */
  function RankTexts(b: Placement): (ts: seq<string>)
    ensures |ts| == 8
    ensures forall i :: 0 <= i < 8 ==> ts[i] == RankText(b, 7 - i)
  {
    seq(8, i requires 0 <= i < 8 => RankText(b, 7 - i))
  }

  /** The texts `ts` separated by '/'. */
  function JoinRanks(ts: seq<string>): string {
    if ts == [] then []
    else ts[0] + (if |ts| > 1 then "/" else "") + JoinRanks(ts[1..])
  }

  /** Joining from text `k` on, when another text follows it. */
  lemma {:induction false} JoinTail(ts: seq<string>, k: nat)
    requires k + 1 < |ts|
    ensures JoinRanks(ts[k..]) == ts[k] + "/" + JoinRanks(ts[k + 1..])
  {
    assert ts[k..][0] == ts[k] && ts[k..][1..] == ts[k + 1..];
  }

  /** Joining the last text alone. */
  lemma {:induction false} JoinLast(ts: seq<string>)
    requires |ts| > 0
    ensures JoinRanks(ts[|ts| - 1..]) == ts[|ts| - 1]
  {
    var k := |ts| - 1;
    assert ts[k..][0] == ts[k] && ts[k..][1..] == [];
  }

  /** The FEN piece placement field. */
  function PlacementText(b: Placement): string {
    JoinRanks(RankTexts(b))
  }

  /** `Display`: a rank loop, from rank 8 down, each rank followed by '/' but the last. */
  method Encode(b: Placement) returns (result: string)
    ensures result == PlacementText(b)
  {
    ghost var done := 0;
    result := "";
    for rank := 8 downto 0
      invariant done == 8 - rank
      invariant result + JoinRanks(RankTexts(b)[done..]) == PlacementText(b)
    {
      var text := EncodeRank(b, rank);
      result := PushRank(b, rank, done, result, text);
      done := done + 1;
    }
  }

  /** One step of the rank loop: the rank's text, then '/' when another rank follows. */
  method PushRank(b: Placement, rank: nat, ghost done: nat, text: string, rankText: string)
    returns (text': string)
    requires rank < 8 && done == 7 - rank && rankText == RankText(b, rank)
    requires text + JoinRanks(RankTexts(b)[done..]) == PlacementText(b)
    ensures text' + JoinRanks(RankTexts(b)[done + 1..]) == PlacementText(b)
  {
    ghost var ts := RankTexts(b);
    assert ts[done] == rankText;
    JoinRanksStep(ts, done, text, PlacementText(b));
    text' := text + rankText;
    if rank > 0 {
      text' := text' + "/";
    }
  }

  /** One rank of the rank loop: what is left of the placement text after it. */
  lemma JoinRanksStep(ts: seq<string>, k: nat, before: string, target: string)
    requires k < |ts|
    requires before + JoinRanks(ts[k..]) == target
    ensures k + 1 < |ts| ==> before + ts[k] + "/" + JoinRanks(ts[k + 1..]) == target
    ensures k + 1 == |ts| ==> before + ts[k] + JoinRanks(ts[k + 1..]) == target
  {
    var rest := ts[k..];
    assert rest[0] == ts[k] && rest[1..] == ts[k + 1..];
    var sep := if k + 1 < |ts| then "/" else "";
    assert JoinRanks(rest) == ts[k] + sep + JoinRanks(ts[k + 1..]);
    SeqAssoc(before, ts[k] + sep, JoinRanks(ts[k + 1..]));
    if k + 1 == |ts| {
      assert ts[k] + sep == ts[k];
    }
  }

  lemma SeqAssoc(x: string, y: string, z: string)
    ensures (x + y) + z == x + (y + z)
  {
  }

  /** One square of the file loop: what is left of the rank's text after it. */
  lemma RowTextStep(row: seq<Option<Piece>>, file: nat, e: nat, before: string, target: string)
    requires file < |row|
    requires before + RowText(row[file..], e) == target
    ensures row[file].Some? ==>
      before + Flush(e) + [PIECE_LETTERS[row[file].value]] + RowText(row[file + 1..], 0) == target
    ensures row[file].None? ==> before + RowText(row[file + 1..], e + 1) == target
  {
    var here := row[file..];
    assert here[0] == row[file] && here[1..] == row[file + 1..];
    if row[file].Some? {
      var head := Flush(e) + [PIECE_LETTERS[row[file].value]];
      var tail := RowText(row[file + 1..], 0);
      assert RowText(here, e) == head + tail;
      SeqAssoc(before, head, tail);
    }
  }

  /**
   * The body of the rank loop: a file loop that pushes the letter of each
   * occupied square and the length of each run of empty ones.
   */
  method EncodeRank(b: Placement, rank: nat) returns (result: string)
    requires rank < 8
    ensures result == RankText(b, rank)
  {
    ghost var row := Row(b, rank);
    result := "";
    var empty := 0;
    var file := 0;
    while file < 8
      invariant 0 <= file <= 8 && empty <= file
      invariant result + RowText(row[file..], empty) == RankText(b, rank)
    {
      var piece := FindPiece(b, rank * 8 + file);
      result, empty := EncodeSquare(row, file, RankText(b, rank), result, empty, piece);
      file := file + 1;
    }
    assert row[8..] == [];
    if empty > 0 {
      result := result + NatToString(empty);
    }
  }

  /**
   * One square of the file loop: a piece flushes the pending run length and
   * pushes its letter, an empty square lengthens the run.
   */
  method EncodeSquare(ghost row: seq<Option<Piece>>, ghost file: nat, ghost target: string,
                      text: string, empty: nat, piece: Option<Piece>)
    returns (text': string, empty': nat)
    requires file < |row| && piece == row[file]
    requires text + RowText(row[file..], empty) == target
    ensures text' + RowText(row[file + 1..], empty') == target
    ensures empty' <= empty + 1
  {
    RowTextStep(row, file, empty, text, target);
    text', empty' := text, empty;
    if piece.Some? {
      var letter := PIECE_LETTERS[piece.value];
      if empty' > 0 {
        text' := text' + NatToString(empty');
        empty' := 0;
      }
      text' := text' + [letter];
      assert text' == text + Flush(empty) + [letter];
    } else {
      empty' := empty' + 1;
    }
  }

  // ---------------------------------------------------------------------
  // The shape of the encoded text
  // ---------------------------------------------------------------------

  /** The number of squares a rank text describes: a digit counts its value, a letter one. */
  function Width(t: string): nat {
    if t == [] then 0
    else (if IsDigit(t[0]) then DigitValue(t[0]) else 1) + Width(t[1..])
  }

  lemma {:induction false} WidthAppend(x: string, y: string)
    ensures Width(x + y) == Width(x) + Width(y)
  {
    if x == [] {
      assert x + y == y;
    } else {
      assert (x + y)[0] == x[0];
      assert (x + y)[1..] == x[1..] + y;
      WidthAppend(x[1..], y);
    }
  }

  /** A rank text char: a piece letter or a digit '1'..'8'. */
  predicate IsRankChar(c: char) {
    IsPieceLetter(c) || ('1' <= c <= '8')
  }

  /** Run lengths are flushed only before a letter or at the end, so no two digits touch. */
  predicate NoAdjacentDigits(t: string) {
    forall i :: 0 <= i < |t| - 1 ==> !(IsDigit(t[i]) && IsDigit(t[i + 1]))
  }

  lemma {:induction false} RowTextWidth(row: seq<Option<Piece>>, e: nat)
    requires e + |row| <= 8
    ensures Width(RowText(row, e)) == e + |row|
  {
    if row == [] {
      if e > 0 {
        assert Width(Flush(e)) == e + Width([]);
      }
    } else {
      match row[0]
      case Some(k) =>
        RowTextWidth(row[1..], 0);
        var letter := PIECE_LETTERS[k];
        WidthAppend(Flush(e) + [letter], RowText(row[1..], 0));
        WidthAppend(Flush(e), [letter]);
        assert Width([letter]) == 1 + Width([]);
        if e > 0 {
          assert Width(Flush(e)) == e + Width([]);
        }
      case None =>
        RowTextWidth(row[1..], e + 1);
    }
  }

  lemma {:induction false} RowTextChars(row: seq<Option<Piece>>, e: nat)
    requires e + |row| <= 8
    ensures RowText(row, e) != [] <==> e + |row| > 0
    ensures e > 0 ==> IsDigit(RowText(row, e)[0])
    ensures forall i :: 0 <= i < |RowText(row, e)| ==> IsRankChar(RowText(row, e)[i])
  {
    if row != [] {
      match row[0]
      case Some(k) =>
        RowTextChars(row[1..], 0);
        assert IsPieceLetter(PIECE_LETTERS[k]);
      case None =>
        RowTextChars(row[1..], e + 1);
    }
  }

  lemma {:induction false} RowTextNoAdjacentDigits(row: seq<Option<Piece>>, e: nat)
    requires e + |row| <= 8
    ensures NoAdjacentDigits(RowText(row, e))
  {
    if row != [] {
      match row[0]
      case Some(k) =>
        RowTextNoAdjacentDigits(row[1..], 0);
        var letter := PIECE_LETTERS[k];
        assert IsPieceLetter(letter);
        var head := Flush(e) + [letter];
        var rest := RowText(row[1..], 0);
        var t := head + rest;
        assert |head| <= 2 && head[|head| - 1] == letter;
        forall i | 0 <= i < |t| - 1
          ensures !(IsDigit(t[i]) && IsDigit(t[i + 1]))
        {
          if i + 1 < |head| {
            assert t[i + 1] == letter;
          } else if i + 1 == |head| {
            assert t[i] == letter;
          } else {
            assert t[i] == rest[i - |head|] && t[i + 1] == rest[i - |head| + 1];
          }
        }
      case None =>
        RowTextNoAdjacentDigits(row[1..], e + 1);
    }
  }

  /** Every rank text describes exactly eight squares, in letters and non-touching digits 1..8. */
  lemma RankTextShape(b: Placement, rank: nat)
    requires rank < 8
    ensures Width(RankText(b, rank)) == 8
    ensures RankText(b, rank) != []
    ensures forall i :: 0 <= i < |RankText(b, rank)| ==> IsRankChar(RankText(b, rank)[i])
    ensures NoAdjacentDigits(RankText(b, rank))
  {
    RowTextWidth(Row(b, rank), 0);
    RowTextChars(Row(b, rank), 0);
    RowTextNoAdjacentDigits(Row(b, rank), 0);
  }

  /** The number of times `c` occurs in `s`. */
  function Occurrences(c: char, s: string): nat {
    if s == [] then 0 else (if s[0] == c then 1 else 0) + Occurrences(c, s[1..])
  }

  lemma {:induction false} OccurrencesAppend(c: char, x: string, y: string)
    ensures Occurrences(c, x + y) == Occurrences(c, x) + Occurrences(c, y)
  {
    if x == [] {
      assert x + y == y;
    } else {
      assert (x + y)[0] == x[0];
      assert (x + y)[1..] == x[1..] + y;
      OccurrencesAppend(c, x[1..], y);
    }
  }

  lemma {:induction false} OccurrencesNone(c: char, s: string)
    requires forall i :: 0 <= i < |s| ==> s[i] != c
    ensures Occurrences(c, s) == 0
  {
    if s != [] {
      OccurrencesNone(c, s[1..]);
    }
  }

  /** A rank text: non-empty, letters and digits only. */
  predicate IsRankText(t: string) {
    t != [] && forall i :: 0 <= i < |t| ==> IsRankChar(t[i])
  }

  lemma {:induction false} JoinRanksSlashes(ts: seq<string>)
    requires ts != []
    requires forall k :: 0 <= k < |ts| ==> IsRankText(ts[k])
    ensures Occurrences('/', JoinRanks(ts)) == |ts| - 1
  {
    var head := ts[0];
    assert IsRankText(head);
    JoinCons(ts);
    if |ts| == 1 {
      OccurrencesNone('/', head);
    } else {
      JoinRanksSlashes(ts[1..]);
      SlashCount(head, JoinRanks(ts[1..]));
    }
  }

  /** Joining a non-empty sequence of texts: its first, then '/' and the rest if there is any. */
  lemma JoinCons(ts: seq<string>)
    requires ts != []
    ensures JoinRanks(ts) == if |ts| == 1 then ts[0] else ts[0] + "/" + JoinRanks(ts[1..])
  {
    if |ts| == 1 {
      assert ts[1..] == [];
      assert JoinRanks(ts) == ts[0] + "" + [];
    }
  }

  /** A '/' between a rank text and the rest adds one to the rest's count. */
  lemma SlashCount(head: string, rest: string)
    requires IsRankText(head)
    ensures Occurrences('/', head + "/" + rest) == Occurrences('/', rest) + 1
  {
    OccurrencesNone('/', head);
    assert head + "/" + rest == head + ("/" + rest);
    OccurrencesAppend('/', head, "/" + rest);
    assert ("/" + rest)[0] == '/' && ("/" + rest)[1..] == rest;
  }

  lemma {:induction false} JoinRanksChars(ts: seq<string>)
    requires ts != []
    requires forall k :: 0 <= k < |ts| ==> IsRankText(ts[k])
    ensures JoinRanks(ts) != []
    ensures JoinRanks(ts)[0] != '/' && JoinRanks(ts)[|JoinRanks(ts)| - 1] != '/'
    ensures forall i :: 0 <= i < |JoinRanks(ts)| ==> IsRankChar(JoinRanks(ts)[i]) || JoinRanks(ts)[i] == '/'
  {
    var head := ts[0];
    assert IsRankText(head);
    var t := JoinRanks(ts);
    if |ts| == 1 {
      assert ts[1..] == [];
      assert t == head + "" + JoinRanks([]);
      assert t == head;
    } else {
      var rest := JoinRanks(ts[1..]);
      JoinRanksChars(ts[1..]);
      assert t == head + "/" + rest;
      assert t[0] == head[0];
      assert t[|t| - 1] == rest[|rest| - 1];
      forall i | 0 <= i < |t|
        ensures IsRankChar(t[i]) || t[i] == '/'
      {
        if i < |head| {
          assert t[i] == head[i];
        } else if i > |head| {
          assert t[i] == rest[i - |head| - 1];
        }
      }
    }
  }

  /** The placement text: eight ranks, exactly seven '/', none at either end. */
  lemma PlacementTextShape(b: Placement)
    ensures Occurrences('/', PlacementText(b)) == 7
    ensures PlacementText(b) != []
    ensures PlacementText(b)[0] != '/' && PlacementText(b)[|PlacementText(b)| - 1] != '/'
    ensures forall i :: 0 <= i < |PlacementText(b)| ==> IsRankChar(PlacementText(b)[i]) || PlacementText(b)[i] == '/'
  {
    var ts := RankTexts(b);
    forall k | 0 <= k < 8
      ensures IsRankText(ts[k])
    {
      RowTextChars(Row(b, 7 - k), 0);
    }
    JoinRanksSlashes(ts);
    JoinRanksChars(ts);
  }
}
