/**
 * A chess position as the six fields of a FEN record, and its two decoders.
 *
 * `DecodeFen` takes the whitespace-separated tokens one at a time and parses
 * each as soon as it is taken, with the lenient placement decoder.
 * `DecodeFenTokensFirst` takes all six tokens before parsing any of them,
 * with the strict placement decoder.  Both ignore tokens after the sixth.
 */
module Positions {
  import opened Wrappers
  import opened Text
  import opened Squares
  import opened Placements
  import opened PlacementDecoders
  import opened PlacementProofs
  import opened ActiveColors
  import opened Castling

  type U16 = n: nat | n < 65536

  datatype Position = Position(
    placement: Placement,
    activeColor: ActiveColor,
    castling: CastlingAvailability,
    enPassant: Option<Square>,
    halfmoveClock: U8,
    fullmoveNumber: U16)

  /** The en passant field: "-" for none, else the square's name. */
  function EnPassantText(e: Option<Square>): (r: string)
    ensures r == "-" <==> e.None?
    ensures e.Some? ==> |r| == 2 && 'a' <= r[0] <= 'h' && '1' <= r[1] <= '8'
  {
    match e
    case None => "-"
    case Some(s) => SquareText(s)
  }

  /** "-" is no square; any other token must name one. */
  function ParseEnPassant(t: string): (r: Result<Option<Square>>)
    ensures r == Ok(None) <==> t == "-"
    ensures r.Ok? <==> t == "-" || IsSquareText(t)
    ensures r.Ok? && r.value.Some? ==> FromText(t) == Ok(r.value.value)
  {
    if t == "-" then Ok(None)
    else
      var s :- FromText(t);
      Ok(Some(s))
  }

  lemma EnPassantRoundTrip(e: Option<Square>)
    ensures ParseEnPassant(EnPassantText(e)) == Ok(e)
  {
    if e.Some? {
      TextRoundTrip(e.value);
    }
  }

  /** The six fields in FEN order. */
  function Fields(p: Position): seq<string> {
    [PlacementText(p.placement), ColorText(p.activeColor), CastlingText(p.castling),
     EnPassantText(p.enPassant), NatToString(p.halfmoveClock), NatToString(p.fullmoveNumber)]
  }

  /** `Display`: the six fields separated by single spaces. */
  function PositionText(p: Position): string {
    JoinWords(Fields(p))
  }

  /** The sequential decoder over the token sequence. */
  function FenFromTokens(ts: seq<string>): (r: Result<Position>)
    ensures r.Ok? <==>
      |ts| >= 6 && DecodeLenient(ts[0]).Ok? && ParseColor(ts[1]).Ok? && ParseCastling(ts[2]).Ok?
      && ParseEnPassant(ts[3]).Ok? && ParseUnsigned(ts[4], 255).Ok? && ParseUnsigned(ts[5], 65535).Ok?
    ensures r.Ok? ==>
      && DecodeLenient(ts[0]) == Ok(r.value.placement)
      && ParseColor(ts[1]) == Ok(r.value.activeColor)
      && ParseCastling(ts[2]) == Ok(r.value.castling)
      && ParseEnPassant(ts[3]) == Ok(r.value.enPassant)
      && ParseUnsigned(ts[4], 255) == Ok(r.value.halfmoveClock as nat)
      && ParseUnsigned(ts[5], 65535) == Ok(r.value.fullmoveNumber as nat)
    ensures ts != [] && DecodeLenient(ts[0]).Err? ==> r == Err(DecodeLenient(ts[0]).error)
  {
    if |ts| < 1 then Err(ParseError)
    else
      var placement :- DecodeLenient(ts[0]);
      if |ts| < 2 then Err(ParseError)
      else
        var color :- ParseColor(ts[1]);
        if |ts| < 3 then Err(ParseError)
        else
          var castling :- ParseCastling(ts[2]);
          if |ts| < 4 then Err(ParseError)
          else
            var enPassant :- ParseEnPassant(ts[3]);
            if |ts| < 5 then Err(ParseError)
            else
              var halfmove :- ParseUnsigned(ts[4], 255);
              if |ts| < 6 then Err(ParseError)
              else
                var fullmove :- ParseUnsigned(ts[5], 65535);
                Ok(Position(placement, color, castling, enPassant, halfmove, fullmove))
  }

  /** `FromStr` of the sequential snapshot. */
  function DecodeFen(s: string): Result<Position> {
    FenFromTokens(SplitWhitespace(s))
  }

  /** The tokens-first decoder over the token sequence. */
  function FenFromTokensFirst(ts: seq<string>): (r: Result<Position>)
    ensures |ts| < 6 ==> r == Err(ParseError)
    ensures r.Ok? <==>
      |ts| >= 6 && DecodeStrict(ts[0]).Ok? && ParseColor(ts[1]).Ok? && ParseCastling(ts[2]).Ok?
      && ParseEnPassant(ts[3]).Ok? && ParseUnsigned(ts[4], 255).Ok? && ParseUnsigned(ts[5], 65535).Ok?
    ensures r.Ok? ==>
      && DecodeStrict(ts[0]) == Ok(r.value.placement)
      && ParseColor(ts[1]) == Ok(r.value.activeColor)
      && ParseCastling(ts[2]) == Ok(r.value.castling)
      && ParseEnPassant(ts[3]) == Ok(r.value.enPassant)
      && ParseUnsigned(ts[4], 255) == Ok(r.value.halfmoveClock as nat)
      && ParseUnsigned(ts[5], 65535) == Ok(r.value.fullmoveNumber as nat)
  {
    if |ts| < 6 then Err(ParseError)
    else
      var placement :- DecodeStrict(ts[0]);
      var color :- ParseColor(ts[1]);
      var castling :- ParseCastling(ts[2]);
      var enPassant :- ParseEnPassant(ts[3]);
      var halfmove :- ParseUnsigned(ts[4], 255);
      var fullmove :- ParseUnsigned(ts[5], 65535);
      Ok(Position(placement, color, castling, enPassant, halfmove, fullmove))
  }

  /** `FromStr` of the tokens-first snapshots. */
  function DecodeFenTokensFirst(s: string): Result<Position> {
    FenFromTokensFirst(SplitWhitespace(s))
  }

  /** Tokens after the sixth are never looked at. */
  lemma ExtraTokensIgnored(ts: seq<string>)
    requires |ts| >= 6
    ensures FenFromTokens(ts) == FenFromTokens(ts[..6])
    ensures FenFromTokensFirst(ts) == FenFromTokensFirst(ts[..6])
  {
  }

  /** With fewer than six tokens neither decoder succeeds; the tokens-first one reports a parse error. */
  lemma FewTokensFail(s: string)
    requires |SplitWhitespace(s)| < 6
    ensures DecodeFen(s).Err?
    ensures DecodeFenTokensFirst(s) == Err(ParseError)
  {
  }

  /** A single token is split off unchanged. */
  lemma SingleToken(w: string)
    requires IsWord(w)
    ensures SplitWhitespace(w) == [w]
  {
    SplitJoinWords([w]);
  }

  /**
   * The two decoders order their failures differently: nine or more empty
   * ranks and nothing else make the sequential decoder abort in the placement
   * field, while the tokens-first decoder reports the missing fields first.
   */
  lemma FailureOrder(n: nat)
    requires n >= 8
    ensures DecodeFen(EmptyRanks(n)) == Err(Panicked)
    ensures DecodeFenTokensFirst(EmptyRanks(n)) == Err(ParseError)
  {
    var t := EmptyRanks(n);
    EmptyRanksDecode(n);
    assert IsWord(t) by {
      EmptyRanksChars(n);
    }
    SingleToken(t);
  }

  lemma {:induction false} EmptyRanksChars(n: nat)
    ensures forall i :: 0 <= i < |EmptyRanks(n)| ==> EmptyRanks(n)[i] == '8' || EmptyRanks(n)[i] == '/'
  {
    if n > 0 {
      EmptyRanksChars(n - 1);
      var t := EmptyRanks(n);
      assert t == "8/" + EmptyRanks(n - 1);
      forall i | 2 <= i < |t| ensures t[i] == '8' || t[i] == '/' {
        assert t[i] == EmptyRanks(n - 1)[i - 2];
      }
    }
  }

  lemma PlacementWord(b: Placement)
    ensures IsWord(PlacementText(b))
  {
    PlacementTextShape(b);
    PlacementCharsWord(PlacementText(b));
  }

  lemma PlacementCharsWord(t: string)
    requires t != [] && forall i :: 0 <= i < |t| ==> IsRankChar(t[i]) || t[i] == '/'
    ensures IsWord(t)
  {
    forall i | 0 <= i < |t| ensures !IsWhitespace(t[i]) {
      assert IsRankChar(t[i]) || t[i] == '/';
    }
  }

  lemma CastlingWord(c: CastlingAvailability)
    ensures IsWord(CastlingText(c))
  {
    var t := CastlingText(c);
    forall i | 0 <= i < |t| ensures !IsWhitespace(t[i]) {
      if c != NO_CASTLING {
        assert t == FlagLetters(c);
        assert IsFlagLetter(t[i]);
      }
    }
  }

  lemma NumberWord(n: nat)
    ensures IsWord(NatToString(n))
  {
    var t := NatToString(n);
    forall i | 0 <= i < |t| ensures !IsWhitespace(t[i]) {
      assert IsDigit(t[i]);
    }
  }

  /** Every field the encoder writes is one whitespace-free token. */
  lemma FieldsAreWords(p: Position)
    ensures forall k :: 0 <= k < |Fields(p)| ==> IsWord(Fields(p)[k])
  {
    PlacementWord(p.placement);
    ColorWord(p.activeColor);
    CastlingWord(p.castling);
    EnPassantWord(p.enPassant);
    NumberWord(p.halfmoveClock);
    NumberWord(p.fullmoveNumber);
    SixWords(PlacementText(p.placement), ColorText(p.activeColor), CastlingText(p.castling),
             EnPassantText(p.enPassant), NatToString(p.halfmoveClock), NatToString(p.fullmoveNumber));
  }

  lemma SixWords(a: string, b: string, c: string, d: string, e: string, f: string)
    requires IsWord(a) && IsWord(b) && IsWord(c) && IsWord(d) && IsWord(e) && IsWord(f)
    ensures forall k :: 0 <= k < 6 ==> IsWord([a, b, c, d, e, f][k])
  {
  }

  lemma ColorWord(c: ActiveColor)
    ensures IsWord(ColorText(c))
  {
    var t := ColorText(c);
    assert t[0] == 'w' || t[0] == 'b';
  }

  lemma EnPassantWord(e: Option<Square>)
    ensures IsWord(EnPassantText(e))
  {
    var t := EnPassantText(e);
    forall i | 0 <= i < |t| ensures !IsWhitespace(t[i]) {
      if e.Some? {
        assert i == 0 || i == 1;
      }
    }
  }

  /** The text of a position splits back into its six fields. */
  lemma PositionTokens(p: Position)
    ensures SplitWhitespace(PositionText(p)) == Fields(p)
  {
    FieldsAreWords(p);
    SplitJoinWords(Fields(p));
  }

  /** Both decoders invert `Display` on positions whose twelve boards are disjoint. */
  lemma PositionRoundTrip(p: Position)
    requires Disjoint(p.placement)
    ensures DecodeFen(PositionText(p)) == Ok(p)
    ensures DecodeFenTokensFirst(PositionText(p)) == Ok(p)
  {
    PositionTokens(p);
    FieldsRoundTrip(p);
  }

  /** Each field parses back to the value it was written from. */
  lemma FieldsRoundTrip(p: Position)
    requires Disjoint(p.placement)
    ensures FenFromTokens(Fields(p)) == Ok(p)
    ensures FenFromTokensFirst(Fields(p)) == Ok(p)
  {
    DisjointRoundTrip(p.placement);
    ColorRoundTrip(p.activeColor);
    CastlingRoundTrip(p.castling);
    EnPassantRoundTrip(p.enPassant);
    ParseNatToString(p.halfmoveClock, 255);
    ParseNatToString(p.fullmoveNumber, 65535);
    TokensDecode(PlacementText(p.placement), ColorText(p.activeColor), CastlingText(p.castling),
                 EnPassantText(p.enPassant), NatToString(p.halfmoveClock), NatToString(p.fullmoveNumber), p);
  }

  /** Six tokens that each parse to their field of `p` decode to `p`. */
  lemma TokensDecode(a: string, b: string, c: string, d: string, e: string, f: string, p: Position)
    requires DecodeLenient(a) == Ok(p.placement) && DecodeStrict(a) == Ok(p.placement)
    requires ParseColor(b) == Ok(p.activeColor) && ParseCastling(c) == Ok(p.castling)
    requires ParseEnPassant(d) == Ok(p.enPassant)
    requires ParseUnsigned(e, 255) == Ok(p.halfmoveClock as nat)
    requires ParseUnsigned(f, 65535) == Ok(p.fullmoveNumber as nat)
    ensures FenFromTokens([a, b, c, d, e, f]) == Ok(p)
    ensures FenFromTokensFirst([a, b, c, d, e, f]) == Ok(p)
  {
  }


  /**
   * The strict decoder's overlap reaches the position: the tokens-first
   * decoder accepts a record whose placement puts a queen and a king on a8.
   */
  lemma TokensFirstAcceptsOverlap()
    ensures FenFromTokensFirst([OVERLAP, "w", "-", "-", "0", "1"]).Ok?
    ensures !Disjoint(FenFromTokensFirst([OVERLAP, "w", "-", "-", "0", "1"]).value.placement)
  {
    var ts := [OVERLAP, "w", "-", "-", "0", "1"];
    StrictOverlap();
    StartFieldsParse();
    assert ts[0] == OVERLAP && ts[1] == "w" && ts[2] == "-" && ts[3] == "-" && ts[4] == "0" && ts[5] == "1";
  }

  /** The fields after the placement in "... w - - 0 1" all parse. */
  lemma StartFieldsParse()
    ensures ParseColor("w").Ok? && ParseCastling("-").Ok? && ParseEnPassant("-").Ok?
    ensures ParseUnsigned("0", 255).Ok? && ParseUnsigned("1", 65535).Ok?
  {
    EmptyFields();
    assert DigitsValue("0") == 0;
    assert DigitsValue("1") == 1;
  }
}
