/** The FEN active-colour field: "w" or "b". */
module ActiveColors {
  import opened Wrappers

  datatype ActiveColor = White | Black

  /** `Display`. */
  function ColorText(c: ActiveColor): (r: string)
    ensures |r| == 1
    ensures r == "w" <==> c == White
  {
    match c
    case White => "w"
    case Black => "b"
  }

  /** `FromStr`: exactly "w" or "b"; anything else, "" and "W" and "ww" included, is an error. */
  function ParseColor(s: string): (r: Result<ActiveColor>)
    ensures r.Ok? <==> s == "w" || s == "b"
    ensures r == Ok(White) <==> s == "w"
    ensures r == Ok(Black) <==> s == "b"
  {
    if s == "w" then Ok(White)
    else if s == "b" then Ok(Black)
    else Err(ParseError)
  }

  /** Printing then parsing gives the colour back. */
  lemma ColorRoundTrip(c: ActiveColor)
    ensures ParseColor(ColorText(c)) == Ok(c)
  {
  }

  /** Parsing then printing gives the accepted text back. */
  lemma ColorTextRoundTrip(s: string)
    requires ParseColor(s).Ok?
    ensures ColorText(ParseColor(s).value) == s
  {
  }
}
