/**
 * The FEN castling field: the letters of the available castlings in the
 * order K, Q, k, q, or "-" when there is none.  The parser reads characters
 * up to the first '-' and ignores the rest of the field.
 */
module Castling {
  import opened Wrappers

  datatype CastlingAvailability = CastlingAvailability(
    whiteKingSide: bool,
    whiteQueenSide: bool,
    blackKingSide: bool,
    blackQueenSide: bool)

  const NO_CASTLING := CastlingAvailability(false, false, false, false)

  predicate IsFlagLetter(c: char) {
    c == 'K' || c == 'Q' || c == 'k' || c == 'q'
  }

  /** Every character of `p` is a flag letter. */
  predicate AllFlagLetters(p: string) {
    forall i :: 0 <= i < |p| ==> IsFlagLetter(p[i])
  }

  /** The place of a flag letter in the order K, Q, k, q. */
  function FlagOrder(c: char): nat {
    match c
    case 'K' => 0
    case 'Q' => 1
    case 'k' => 2
    case 'q' => 3
    case _ => 4
  }

  /** The letters of `r` come in the order K, Q, k, q. */
  predicate InFlagOrder(r: string) {
    forall i, j :: 0 <= i < j < |r| ==> FlagOrder(r[i]) < FlagOrder(r[j])
  }

  /** Whichever letters are present, they come in the order K, Q, k, q, each once. */
  lemma FlagsInOrder(wk: bool, wq: bool, bk: bool, bq: bool)
    ensures var r := (if wk then "K" else "") + (if wq then "Q" else "") + (if bk then "k" else "") + (if bq then "q" else "");
      && AllFlagLetters(r)
      && ('K' in r) == wk && ('Q' in r) == wq && ('k' in r) == bk && ('q' in r) == bq
      && InFlagOrder(r)
  {
    var r := (if wk then "K" else "") + (if wq then "Q" else "") + (if bk then "k" else "") + (if bq then "q" else "");
    if wk {
      if wq {
        if bk {
          if bq {
            assert r == "KQkq";
          } else {
            assert r == "KQk";
          }
        } else {
          if bq {
            assert r == "KQq";
          } else {
            assert r == "KQ";
          }
        }
      } else {
        if bk {
          if bq {
            assert r == "Kkq";
          } else {
            assert r == "Kk";
          }
        } else {
          if bq {
            assert r == "Kq";
          } else {
            assert r == "K";
          }
        }
      }
    } else {
      if wq {
        if bk {
          if bq {
            assert r == "Qkq";
          } else {
            assert r == "Qk";
          }
        } else {
          if bq {
            assert r == "Qq";
          } else {
            assert r == "Q";
          }
        }
      } else {
        if bk {
          if bq {
            assert r == "kq";
          } else {
            assert r == "k";
          }
        } else {
          if bq {
            assert r == "q";
          } else {
            assert r == "";
          }
        }
      }
    }
  }

  /** The letter of each available castling, in the order K, Q, k, q. */
  function FlagLetters(c: CastlingAvailability): (r: string)
    ensures AllFlagLetters(r)
    ensures r == [] <==> c == NO_CASTLING
    ensures ('K' in r) == c.whiteKingSide && ('Q' in r) == c.whiteQueenSide
    ensures ('k' in r) == c.blackKingSide && ('q' in r) == c.blackQueenSide
    ensures InFlagOrder(r)
  {
    FlagsInOrder(c.whiteKingSide, c.whiteQueenSide, c.blackKingSide, c.blackQueenSide);
    (if c.whiteKingSide then "K" else "")
    + (if c.whiteQueenSide then "Q" else "")
    + (if c.blackKingSide then "k" else "")
    + (if c.blackQueenSide then "q" else "")
  }

  /** The text of the field. */
  function CastlingText(c: CastlingAvailability): (r: string)
    ensures r != []
    ensures r == "-" <==> c == NO_CASTLING
    ensures c != NO_CASTLING ==> '-' !in r
    ensures ('K' in r) == c.whiteKingSide && ('Q' in r) == c.whiteQueenSide
    ensures ('k' in r) == c.blackKingSide && ('q' in r) == c.blackQueenSide
    ensures InFlagOrder(r)
  {
    var letters := FlagLetters(c);
    if letters == [] then "-"
    else
      assert IsFlagLetter(letters[0]);
      assert '-' !in letters by {
        forall i | 0 <= i < |letters| ensures letters[i] != '-' {
          assert IsFlagLetter(letters[i]);
        }
      }
      letters
  }

  /** `Display`: pushes each available letter onto a buffer, then '-' if the buffer is still empty. */
  method Display(c: CastlingAvailability) returns (buf: string)
    ensures buf == CastlingText(c)
    ensures buf == "-" <==> c == NO_CASTLING
    ensures ('K' in buf) == c.whiteKingSide && ('Q' in buf) == c.whiteQueenSide
    ensures ('k' in buf) == c.blackKingSide && ('q' in buf) == c.blackQueenSide
    ensures InFlagOrder(buf)
  {
    buf := "";
    if c.whiteKingSide {
      buf := buf + ['K'];
    }
    assert buf == if c.whiteKingSide then "K" else "";
    if c.whiteQueenSide {
      buf := buf + ['Q'];
    }
    ghost var kq := buf;
    if c.blackKingSide {
      buf := buf + ['k'];
    }
    assert buf == kq + if c.blackKingSide then "k" else "";
    if c.blackQueenSide {
      buf := buf + ['q'];
    }
    assert buf == FlagLetters(c);
    if buf == [] {
      buf := buf + ['-'];
    }
  }

  /** The part of `s` before its first '-' (all of `s` if it has none). */
  function BeforeDash(s: string): (p: string)
    ensures |p| <= |s| && p == s[..|p|]
    ensures '-' !in p
    ensures |p| < |s| ==> s[|p|] == '-'
  {
    if s == [] || s[0] == '-' then [] else [s[0]] + BeforeDash(s[1..])
  }

  /**
   * What the parser accepts and builds: the field is valid iff every
   * character before the first '-' is a flag letter, and then each castling
   * is available iff its letter occurs there (in any order, any number of times).
   */
  function ParseCastling(s: string): (r: Result<CastlingAvailability>)
    ensures r.Ok? <==> AllFlagLetters(BeforeDash(s))
    ensures r.Ok? ==> r.value.whiteKingSide == ('K' in BeforeDash(s))
    ensures r.Ok? ==> r.value.whiteQueenSide == ('Q' in BeforeDash(s))
    ensures r.Ok? ==> r.value.blackKingSide == ('k' in BeforeDash(s))
    ensures r.Ok? ==> r.value.blackQueenSide == ('q' in BeforeDash(s))
  {
    var p := BeforeDash(s);
    if AllFlagLetters(p) then
      Ok(CastlingAvailability('K' in p, 'Q' in p, 'k' in p, 'q' in p))
    else
      Err(ParseError)
  }

  /** `FromStr`: one pass over the characters, setting a flag per letter, stopping at '-'. */
  method FromStr(s: string) returns (r: Result<CastlingAvailability>)
    ensures r == ParseCastling(s)
  {
    var whiteKingSide, whiteQueenSide, blackKingSide, blackQueenSide := false, false, false, false;
    var p := BeforeDash(s);
    var i := 0;
    while i < |s|
      invariant 0 <= i <= |p|
      invariant forall j :: 0 <= j < i ==> IsFlagLetter(s[j])
      invariant whiteKingSide == ('K' in s[..i])
      invariant whiteQueenSide == ('Q' in s[..i])
      invariant blackKingSide == ('k' in s[..i])
      invariant blackQueenSide == ('q' in s[..i])
    {
      var c := s[i];
      if c == '-' {
        break;
      } else if c == 'K' {
        whiteKingSide := true;
      } else if c == 'Q' {
        whiteQueenSide := true;
      } else if c == 'k' {
        blackKingSide := true;
      } else if c == 'q' {
        blackQueenSide := true;
      } else {
        assert !IsFlagLetter(p[i]);
        return Err(ParseError);
      }
      assert s[..i + 1] == s[..i] + [c];
      i := i + 1;
    }
    assert s[..i] == p;
    r := Ok(CastlingAvailability(whiteKingSide, whiteQueenSide, blackKingSide, blackQueenSide));
  }

  /** Printing then parsing gives every one of the sixteen values back. */
  lemma CastlingRoundTrip(c: CastlingAvailability)
    ensures ParseCastling(CastlingText(c)) == Ok(c)
  {
    var t := CastlingText(c);
    if c == NO_CASTLING {
      assert BeforeDash(t) == [];
    } else {
      assert BeforeDash(t) == t by {
        BeforeDashWhole(t);
      }
    }
  }

  lemma {:induction false} BeforeDashWhole(s: string)
    requires '-' !in s
    ensures BeforeDash(s) == s
  {
    if s != [] {
      BeforeDashWhole(s[1..]);
    }
  }

  /** Whatever follows the first '-' is ignored. */
  lemma {:induction false} DashEndsField(p: string, rest: string)
    requires '-' !in p
    ensures ParseCastling(p + ['-'] + rest) == ParseCastling(p)
  {
    BeforeDashWhole(p);
    BeforeDashPrefix(p, rest);
  }

  lemma {:induction false} BeforeDashPrefix(p: string, rest: string)
    requires '-' !in p
    ensures BeforeDash(p + ['-'] + rest) == p
  {
    if p != [] {
      assert (p + ['-'] + rest)[1..] == p[1..] + ['-'] + rest;
      BeforeDashPrefix(p[1..], rest);
    }
  }

  /** The empty field and "-" both mean no castling. */
  lemma EmptyFields()
    ensures ParseCastling("") == Ok(NO_CASTLING)
    ensures ParseCastling("-") == Ok(NO_CASTLING)
  {
  }
}
