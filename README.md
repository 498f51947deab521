# Chess position core: bitboards, squares and the FEN codec

This project models the core of a small chess-position library written in Rust, and proves properties of that model:

- **Square**: a `u8` index `rank * 8 + file` with its algebraic text "a1".."h8".
- **Bitboard**: a `u64` read as a set of squares. The model covers its set algebra, single-square updates, lowest and highest member, population count, the eight edge-masked shifts and the `{:#018x}` debug text.
- **FEN codec**: the twelve piece boards in the order K Q R B N P k q r b n p, the active colour, the castling availability, the en passant square and the two clocks. Each field has an encoder (`Display`) and a decoder (`FromStr`).

The repository holds several near-identical snapshots of this code. The model keeps one definition for each behaviour the snapshots share, and separate definitions where they differ:

- **`Square::new`**: the newer snapshot checks its arguments (`Squares.New`). The older ones compute an unchecked `u8` sum (`Squares.NewUnchecked`).
- **`shift` masks**: the newer snapshots clear one file (`Shifts.Shift`). The oldest uses a rank-and-file mask per direction (`Shifts.ShiftWithRankMasks`). The two are proved to give the same word.
- **Placement decoder**: the lenient decoder reads the text as one stream and toggles squares. The strict decoder reads `lines()`, ORs squares in, and rejects a '/' that does not end a full rank.
- **Position decoder**: the sequential decoder parses each field as soon as it takes its token. The tokens-first decoder takes all six tokens before parsing any of them.

Where the source works in place, the model does too:

- The placement encoders and decoders are methods with loops, over strings and a 12-element array.
- The castling `Display`/`FromStr` loops are methods.
- `xor_square`, `set_square` and `|=` are methods of a class holding the word.

Each method is proved equal to a specification function, and the properties are proved about those functions.

A source `panic` is not a return value. The model gives it the explicit error `Panicked`, next to the source's single `ParseError`. The panics covered are:

- an `unwrap` of `None`;
- a debug-build `u8` overflow or underflow;
- a 64-bit shift by 64 or more.

Neither placement decoder checks that the field has exactly eight ranks of eight squares: the lenient one checks nothing, and the strict one checks the width of a rank only at '/'. See `PlacementProofs.EmptyRanksDecode` and the finding below.

`Bitboards.BitboardCell` models the `&mut self` methods of `Bitboard` on their own. The placement decoders keep their twelve words in an array and update its elements with the pure `Toggle` and `BitOr`, which are the same updates (`XorSquare` and `OrAssign` are proved equal to them).

## Model

| member | source | states |
|---|---|---|
| Squares.New | src/bitboard/square.rs:12-18 | checked `Square::new` gives a square iff rank < 8 and file < 8, and that square's `rank()`/`file()` give the arguments back |
| Squares.FromU8 | src/bitboard/square.rs:20-26 | `from_u8(i)` gives a square iff i < 64, and `to_u8` of it is i |
| Squares.NewUnchecked | src/impls/square.rs:5-15 | unchecked `new(r, f)` is a board index when r, f < 8, and `rank()`/`file()` recover r and f whenever f < 8; the `u8` sum must not overflow; the same code is at src/bitboard.rs:86-98 |
| Squares.SquareText | src/bitboard/square.rs:41-57 | `Display` of a square is two characters, the file letter 'a' + file then the rank digit '1' + rank; the same code is at src/impls/square.rs:18-34 |
| Squares.FromText | src/bitboard/square.rs:59-90 | `FromStr` succeeds exactly on texts of the form [a-h][1-8], and the square's file and rank are the two characters' offsets; the same code is at src/impls/bitboard.rs:106-137 and src/bitboard.rs:162-193 |
| Squares.TextRoundTrip | src/bitboard/square.rs:41-90 | parsing the text of any of the 64 squares gives that square |
| Squares.ParseRoundTrip | src/bitboard/square.rs:41-90 | every accepted text is the `Display` of the square it parses to |
| Squares.SquareTextInjective | src/impls/square.rs:18-34 | distinct squares have distinct texts |
| Bitboards.FromSquare | src/bitboard/bitboard.rs:30-32 | `from_square(s)` holds exactly the square s; the same code is at src/impls/bitboard.rs:19-21 and src/bitboard.rs:50-52 |
| Bitboards.FromSquarePopCount | src/bitboard/bitboard.rs:86-93 | the board of one square has population count 1 |
| Bitboards.Toggle | src/bitboard/bitboard.rs:71-73 | toggling s flips membership of s and leaves every other square as it was |
| Bitboards.ToggleTwice | src/bitboard/bitboard.rs:112-121 | toggling the same square twice restores the board |
| Bitboards.TogglePopCount | src/bitboard/bitboard.rs:111-121 | toggling changes the population count by exactly one, down if the square was set and up if not |
| Bitboards.SetSquare | src/impls/bitboard.rs:23-26 | `set_square(s)` adds s and leaves every other square as it was |
| Bitboards.SetSquareLaws | src/impls/bitboard.rs:11-26 | `set_square` is idempotent, and `from_square(s)` is `set_square(s)` applied to the empty board |
| Bitboards.BitAnd | src/bitboard.rs:124-130 | `&` is set intersection, square by square; the same code is at src/impls/bitboard.rs:68-74 |
| Bitboards.BitOr | src/bitboard.rs:132-138 | `\|` is set union, square by square; the same code is at src/impls/bitboard.rs:76-82 |
| Bitboards.BitXor | src/bitboard.rs:146-152 | `^` is symmetric difference, square by square; the same code is at src/impls/bitboard.rs:90-96 |
| Bitboards.BitNot | src/bitboard.rs:154-160 | `!` is the complement on the 64 squares; the same code is at src/impls/bitboard.rs:98-104 |
| Bitboards.AlgebraLaws | src/bitboard.rs:124-160 | `&`, `\|`, `^` commute; `a ^ a` is empty; `a \| !a` is the universe; `!` swaps empty and universe; De Morgan's law holds; the same code is at src/impls/bitboard.rs:68-104 |
| Bitboards.AssociativeLaws | src/bitboard.rs:124-152 | `&`, `\|` and `^` are associative, and `&` distributes over `\|`; the same code is at src/impls/bitboard.rs:68-96 |
| Bitboards.FileMaskMembers | src/bitboard/bitboard.rs:12-19 | each FILE_ constant holds exactly the squares of its file |
| Bitboards.RankMaskMembers | src/bitboard/bitboard.rs:21-28 | each RANK_ constant holds exactly the squares of its rank |
| Bitboards.PopCount | src/bitboard/bitboard.rs:63-65 | `pop_count` is at most 64; the same code is at src/impls/bitboard.rs:44-46 |
| Bitboards.PopCountIsSize | src/bitboard/bitboard.rs:63-65 | `pop_count` equals the number of squares in the set |
| Bitboards.IntersectionPopCount | src/bitboard.rs:124-130 | an intersection has no more members than either operand |
| Bitboards.Ls1b | src/bitboard/bitboard.rs:47-53 | `ls1b` is None iff the board is empty, else a member no larger than any member; the `from_u8(..).unwrap()` never fails; the same code is at src/impls/bitboard.rs:28-34 and src/bitboard.rs:54-59 |
| Bitboards.Ms1b | src/bitboard/bitboard.rs:55-61 | `ms1b` is None iff the board is empty, else a member no smaller than any member; the `from_u8(63 - leading_zeros).unwrap()` never fails; the same code is at src/impls/bitboard.rs:36-42 and src/bitboard.rs:61-66 |
| Bitboards.DebugText | src/bitboard/bitboard.rs:76-80 | `Debug` prints "0x" followed by exactly 16 lower-case hexadecimal digits |
| Bitboards.DebugTextValue | src/bitboard/bitboard.rs:131-137 | the 16 digits of the debug text denote exactly the word's value |
| Bitboards.BitboardCell.XorSquare | src/bitboard/bitboard.rs:71-73 | `xor_square` updates the word in place to its toggle at s: s flips and no other square changes |
| Bitboards.BitboardCell.SetSquareInPlace | src/impls/bitboard.rs:23-26 | `set_square` updates the word in place: s is added and no other square changes |
| Bitboards.BitboardCell.OrAssign | src/bitboard.rs:140-144 | after `a \|= b` the word is `a \| b`: a square is set iff it was set in a or in b; the same code is at src/impls/bitboard.rs:84-88 |
| Shifts.Neighbour | src/bitboard/bitboard.rs:34-45 | the neighbour of s in direction d exists iff rank and file stay on the board, and it lies one rank/file step away |
| Shifts.NeighbourOpposite | src/bitboard/bitboard.rs:34-45 | t is the neighbour of s in d iff s is the neighbour of t in the opposite direction |
| Shifts.Shift | src/bitboard/bitboard.rs:34-45 | after an east-type shift no square of file a is set; after a west-type shift no square of file h is set; the same code is at src/impls/bitboard.rs:48-59 |
| Shifts.ShiftWithRankMasks | src/bitboard.rs:72-83 | the rank-and-file masked `shift` gives the same word as the file-masked one for every board and direction |
| Shifts.ShiftMembers | src/bitboard/bitboard.rs:34-45 | a square is in the shifted board iff the square one step back against d exists and is in the original board (nothing wraps, nothing appears) |
| Shifts.ShiftSingle | src/bitboard/bitboard.rs:34-45 | a single square shifts onto its on-board neighbour, or to the empty board when there is none |
| ActiveColors.ColorText | src/position/active_color.rs:10-17 | `Display` is one character, "w" exactly for White; the same code is at src/impls/active_color.rs:7-15 |
| ActiveColors.ParseColor | src/position/active_color.rs:19-29 | `FromStr` succeeds exactly on "w" and "b", giving White and Black; every other text fails; the same code is at src/impls/active_color.rs:17-27 and src/position.rs:98-108 |
| ActiveColors.ColorRoundTrip | src/position/active_color.rs:10-29 | parsing the text of a colour gives the colour |
| ActiveColors.ColorTextRoundTrip | src/position/active_color.rs:10-29 | every accepted text is the text of the colour it parses to |
| Castling.FlagLetters | src/position/castling_availability.rs:15-26 | only the letters K, Q, k, q are written, each exactly when its flag is set, in the order K, Q, k, q; none at all exactly when no flag is set |
| Castling.CastlingText | src/position/castling_availability.rs:12-32 | the text is never empty, is "-" exactly when no flag is set, and otherwise holds no '-'; each of K, Q, k, q occurs exactly when its flag is set, in that order |
| Castling.Display | src/position/castling_availability.rs:12-32 | the push-built buffer equals the castling text: "-" exactly when no flag is set, each letter present exactly when its flag is set, in the order K, Q, k, q; the same code is at src/impls/castling_availability.rs:7-27 |
| Castling.BeforeDash | src/position/castling_availability.rs:42-44 | the part of the field before the first '-' (all of it if there is none) |
| Castling.ParseCastling | src/position/castling_availability.rs:34-59 | `FromStr` succeeds iff every character before the first '-' is one of K, Q, k, q; each flag is true iff its letter occurs there |
| Castling.FromStr | src/position/castling_availability.rs:34-59 | the flag-setting loop with its early `break` computes the parse function; the same code is at src/impls/castling_availability.rs:29-54 and src/position.rs:110-135 |
| Castling.CastlingRoundTrip | src/position/castling_availability.rs:12-59 | parsing the text of any of the 16 flag combinations gives it back |
| Castling.DashEndsField | src/position/castling_availability.rs:44 | whatever follows the first '-' is ignored |
| Castling.EmptyFields | src/position/castling_availability.rs:37-58 | "" and "-" both parse to no castling rights |
| Placements.PieceIndex | src/position/piece_placement_data.rs:77-89 | a character names a board iff it is one of the twelve piece letters, and it names the board of that letter |
| Placements.FirstHit | src/position/piece_placement_data.rs:19-25 | the board found for a square is the lowest-indexed board holding it; none when no board holds it |
| Placements.FindPiece | src/impls/piece_placement_data.rs:16-43 | the board loop with its `break` finds the piece of the square |
| Placements.NormalizedFacts | src/position/piece_placement_data.rs:19-46 | keeping each square only on its first board gives disjoint boards with the same piece on every square |
| Placements.NormalizedDisjoint | src/position/piece_placement_data.rs:19-46 | disjoint boards are left unchanged by that normalisation |
| Placements.Encode | src/position/piece_placement_data.rs:12-60 | the encoder's rank loop builds the placement text: rank texts joined by '/' with none trailing; the same code is at src/impls/piece_placement_data.rs:7-57 |
| Placements.EncodeRank | src/position/piece_placement_data.rs:16-53 | the file loop with its empty-square counter builds the rank text; the same code is at src/impls/piece_placement_data.rs:12-50 |
| Placements.RowTextWidth | src/position/piece_placement_data.rs:16-53 | the digit values plus the letters of a row text count its squares |
| Placements.RowTextNoAdjacentDigits | src/position/piece_placement_data.rs:28-31 | run lengths are flushed only before a letter or at the rank end, so no two digits touch |
| Placements.RankTextShape | src/position/piece_placement_data.rs:16-53 | every rank text covers exactly 8 squares, is not empty, uses only piece letters and '1'..'8' (never '0'), and has no two adjacent digits; the same code is at src/impls/piece_placement_data.rs:12-50 |
| Placements.PlacementTextShape | src/position/piece_placement_data.rs:54-56 | the placement text has exactly seven '/', none first or last, and otherwise only rank characters; the same code is at src/impls/piece_placement_data.rs:51-53 |
| PlacementDecoders.LenientStep | src/position/piece_placement_data.rs:70-94 | one character: parse error exactly for characters outside '/', '1'..'8' and the twelve letters; '/' aborts iff the rank is 0; a letter aborts iff rank or file is off the board |
| PlacementDecoders.StrictStep | src/impls/piece_placement_data.rs:67-95 | one character: unknown characters are parse errors; '/' is a parse error iff the file is not 8, and aborts below rank 1; a letter aborts iff rank * 8 + file is 64 or more; the same code is at src/position.rs:145-173 |
| PlacementDecoders.LenientFromStr | src/position/piece_placement_data.rs:62-98 | the character loop over the 12-board array computes the lenient decode |
| PlacementDecoders.StrictFromStr | src/impls/piece_placement_data.rs:59-101 | the loop over `lines()` computes the strict decode; the same code is at src/position.rs:137-179 |
| PlacementDecoders.ReadLine | src/impls/piece_placement_data.rs:66-96 | one line: the file restarts at 0 and the rank carries on; the array holds the boards of the line's run |
| PlacementProofs.LenientRoundTrip | src/position/piece_placement_data.rs:12-98 | decoding the encoder's text gives the normalised boards (each square on its first board) |
| PlacementProofs.StrictRoundTrip | src/impls/piece_placement_data.rs:7-101 | the strict decoder likewise inverts the encoder up to normalisation |
| PlacementProofs.DisjointRoundTrip | src/position/piece_placement_data.rs:12-98 | for pairwise disjoint boards all decoders give back exactly the encoded boards; since each decoder starts at rank 8, file a, this fixes the encoder's walk order: ranks 8 down to 1, files a to h |
| PlacementProofs.LenientDisjoint | src/position/piece_placement_data.rs:70-94 | whenever the lenient decoder succeeds, the twelve boards are pairwise disjoint (no square is visited twice, so toggling acts as setting) |
| PlacementProofs.LenientOkChars | src/position/piece_placement_data.rs:89 | a successful lenient decode contains only '/', '1'..'8' and piece letters |
| PlacementProofs.LenientPanicsOnOverlap | src/position/piece_placement_data.rs:77-88 | a letter after a full last rank reaches the `unwrap` of an off-board square and aborts |
| PlacementProofs.EmptyRanksDecode | src/position/piece_placement_data.rs:70-94 | up to eight empty ranks (including "8/8") decode to empty boards in both decoders; a ninth underflows the rank and aborts; the strict decoder does not count ranks either (src/impls/piece_placement_data.rs:96-99) |
| PlacementProofs.StrictOverlap | src/impls/piece_placement_data.rs:96-99 | as written, "Q7/8K" decodes: the K, read after the eight empty squares of rank 7, gets index 6 * 8 + 8 = 56, which is a8, already held by the Q, so the boards overlap; the same code is at src/position.rs:176-177 |
| PlacementDecoders.StrictCheckedStep | src/impls/piece_placement_data.rs:69-80 | corrected step: a letter past file h is a parse error; otherwise the strict step |
| PlacementProofs.StrictCheckedRejectsOverlap | src/impls/piece_placement_data.rs:96-99 | the corrected decoder rejects "Q7/8K" with a parse error |
| PlacementProofs.StrictCheckedDisjoint | src/impls/piece_placement_data.rs:65-96 | on text without a newline, a successful corrected decode has pairwise disjoint boards |
| PlacementProofs.StrictCheckedNewlineOverlap | src/impls/piece_placement_data.rs:65-66 | a newline restarts the file but not the rank, so "Q\nK" still overlaps even with the check |
| PlacementProofs.StrictCheckedRoundTrip | src/impls/piece_placement_data.rs:7-101 | the corrected decoder still inverts the encoder up to normalisation |
| PlacementProofs.CheckedAgrees | src/impls/piece_placement_data.rs:59-101 | whenever the corrected decoder succeeds, the decoder as written gives the same boards |
| Text.SplitWhitespace | src/position/position.rs:49 | `split_whitespace` yields only non-empty tokens free of whitespace |
| Text.SplitJoinWords | src/position/position.rs:29-49 | splitting words joined by single spaces gives the words back |
| Text.Lines | src/impls/piece_placement_data.rs:65 | `lines()` yields pieces that contain no newline |
| Text.LinesJoin | src/impls/piece_placement_data.rs:65 | on text without '\r', joining the pieces of `lines()` with '\n' gives the text back, less a final '\n' |
| Text.ParseUnsigned | src/position/position.rs:66-75 | the `u8`/`u16` parse succeeds exactly on an optional '+' followed by a non-empty run of decimal digits whose value fits the type, and its result is that value |
| Text.ParseNatToString | src/position/position.rs:39-40 | printing a clock and parsing it back into its type gives it back |
| Positions.EnPassantText | src/position/position.rs:37-38 | the en passant field is "-" exactly for None, and otherwise two characters [a-h][1-8] |
| Positions.ParseEnPassant | src/position/position.rs:62-65 | "-" gives None; any other token goes through square parsing, and its failure propagates; the same code is at src/impls/position.rs:49-53 |
| Positions.EnPassantRoundTrip | src/position/position.rs:29-65 | parsing the en passant text gives the field back |
| Positions.FenFromTokens | src/position/position.rs:45-86 | the sequential decode succeeds iff there are six tokens and each field parses, fields in FEN order; a lenient placement failure is the result even when tokens are missing |
| Positions.FenFromTokensFirst | src/impls/position.rs:33-58 | the tokens-first decode fails with a parse error when fewer than six tokens exist, whatever they contain, and otherwise succeeds iff each field parses (the placement with the strict decoder as written); the same code is at src/position.rs:181-206 |
| Positions.TokensFirstAcceptsOverlap | src/impls/position.rs:44-45 | the tokens-first decoder, using the strict placement decoder as written, accepts "Q7/8K w - - 0 1" and gives a position whose boards overlap; the same code is at src/position.rs:192-193 |
| Positions.ExtraTokensIgnored | src/position/position.rs:49-84 | tokens after the sixth never change either decode |
| Positions.FewTokensFail | src/impls/position.rs:37-43 | with fewer than six tokens neither decoder succeeds |
| Positions.FailureOrder | src/position/position.rs:50-53 | a lone placement of nine or more empty ranks aborts the sequential decoder in its first field, while the tokens-first decoder reports the missing tokens |
| Positions.FieldsAreWords | src/position/position.rs:29-43 | every field `Display` writes is one whitespace-free token |
| Positions.PositionTokens | src/position/position.rs:29-43 | the text of a position splits back into its six fields |
| Positions.PositionRoundTrip | src/position/position.rs:29-86 | both decoders invert `Display` on positions whose twelve boards are pairwise disjoint; the same code is at src/impls/position.rs:17-58 |
| StartPosition.StartPlacementText | src/position/piece_placement_data.rs:12-60 | the encoder writes the start boards as "rnbqkbnr/pppppppp/8/8/8/8/PPPPPPPP/RNBQKBNR" |
| StartPosition.StartDisjoint | src/position/position.rs:21 | no square of the start position is on two boards |
| StartPosition.StartText | src/position/position.rs:29-43 | `Display` of the start position is the standard start FEN |
| StartPosition.New | src/position/position.rs:20-22 | `new()` decodes the start FEN without failing, in both decoders, and re-encoding gives the same FEN; the same code is at src/impls/position.rs:8-10 and src/position.rs:35-37 |

## Left out

- `Display` of the placement in src/position.rs:76-80 is `todo!()`, so that snapshot's position `Display` aborts. The model's `Positions.PositionText` is the `Display` of the other snapshots.
- The message text carried by `ParseError(String)` is not modelled, so all parse errors are one constructor. This covers src/error.rs.
- `Debug` of `Position` and the program entry point src/main.rs are printing, so they are left out.
- The numeric discriminants of `Direction` are left out, because `shift` never reads them. `Direction` is a plain enumeration.
- The modules `move_generation` and `result` are declared in src/main.rs. They are not part of this model.
- `to_u64` and `to_u8` are the identity on the model's values. `EMPTY`/`empty()` and `UNIVERSE`/`universe()` are constants.
- Squares.NewUnchecked: its precondition excludes the inputs whose `u8` sum overflows. In a debug build those inputs abort; the decoders model that abort themselves, as `Panicked`.
- `Shifts.Shift`'s file-mask fact is stated on the word; the per-square `Shifts.ShiftMembers` gives the full meaning.
- The lenient decoder toggles squares (`xor_square`). Its contract is the toggling fold; setting and toggling agree only because `PlacementProofs.LenientDisjoint` shows no square is visited twice.
- Placements.FindPiece and Placements.Encode model the `iter().enumerate().find_map` and the `String` pushes as loops over sequences; Rust's allocation is not modelled.
- `str::len` is modelled as the UTF-8 length of the character sequence. Characters outside the Basic Multilingual Plane are ordinary characters.
- Text.LinesJoin: stated only for text without '\r'. `lines()` drops a '\r' that ends a line, and joining the lines does not put it back.
- Rust builds in release mode wrap `u8` arithmetic instead of aborting. The model follows the debug build.

## Findings

| source | as written | input that shows it | evidently intended | confidence | as-written member | corrected member |
|---|---|---|---|---|---|---|
| src/impls/piece_placement_data.rs:69-99 | the strict placement decoder checks the file count only at '/', so a letter past file h of the last line is placed at index rank * 8 + file, a square of the rank above, where another piece may already be | "Q7/8K": the Q is on a8 (index 56); the K is read at rank index 6 and file 8, after the eight empty squares of rank 7, and also lands on index 6 * 8 + 8 = 56; the decode succeeds with two boards sharing a8 | a letter past file h is rejected, so a successful decode of newline-free text never puts two pieces on one square | not executed | PlacementProofs.StrictOverlap | PlacementProofs.StrictCheckedDisjoint |
