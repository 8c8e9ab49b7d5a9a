# Chess board engine, modelled in Dafny

This project models the board engine of a small Swift chess game. It has two parts.

**Pieces.** A `Position` is an integer (file, rank) pair, 1-indexed, with rank 1 at the top. It supports:
- componentwise `+`;
- a bounds test against a square board;
- an ordering by rank, then file;
- construction from a file letter.

There are five piece kinds: pawn, knight, bishop, rook and queen, each in white or black. Each kind has:
- a score;
- a cap on how many pieces of that kind one colour may have;
- a glyph;
- a fixed table of paths, each a list of relative offsets.

`availables` folds each path onto an origin with `+` and keeps the results that land on the board.

**The board.** A `Board` object holds a mutable map from square to piece on an 8x8 board. It offers:
- `add`, which makes three checks in a fixed order, throws the first that fails, and otherwise places the piece;
- `initializePieces`, which clears the board and lays out the start position with thirty `add`s;
- `allScore`, the two-line score summary;
- `display`, the board drawn as eight lines of glyphs.

The modules follow the two source files:
- `Positions`, `Pieces` and `Geometry` model `Piece.swift`.
- `Placement` (the `add` checks), `Scoring` (`score(for:)`, `allScore`), `Rendering` (`display`), `Setup` (the layout `initializePieces` builds) and `Boards` (the `Board` class) model `Board.swift`.
- `Scenarios` restates each unit test as a verified method on the `Board` class.

- `Board` is a class with a `pieces: map` field.
  - `Add` and `InitializePieces` change the board and carry `modifies` clauses; `InitializePieces` and `Display` loop, as the source does.
  - Each method is proved against a function: `AddCheck`/`AfterAdd`, `StartPosition` and `Render`.
- The pure parts are functions, and the properties are lemmas about those functions.

The start position is not the standard one, and the model follows the code. There is no king, so `initializePieces` places 30 pieces instead of 32. Each queen stands on file 5, where a king usually stands, and file 4 of both back ranks stays empty. Black holds ranks 1–2 and white holds ranks 7–8.

The unit tests address squares from 0, while the board counts from 1. The scenarios therefore move every test square by one file and one rank; see "Findings".

## Model

| member | source | states |
|---|---|---|
| Positions.InBoardIffSquare | chessgame/chessgame/Piece.swift:50-52 | `isInBoard(N)` holds iff 1 <= file <= N and 1 <= rank <= N; exactly N*N squares pass |
| Positions.Squares | chessgame/chessgame/Piece.swift:50-52 | the board's square set holds exactly the positions with both coordinates in 1..N |
| Positions.RowSquares | chessgame/chessgame/Board.swift:33-35 | the squares of files 1..n of one rank, the squares a `for file in 1...size` loop visits |
| Positions.RowSquaresCount | chessgame/chessgame/Board.swift:33-35 | a rank's first n files are n distinct squares |
| Positions.RowSquaresExtend | chessgame/chessgame/Board.swift:33-35 | one more loop iteration adds exactly the next file's square, which was not there before |
| Positions.TopRows | chessgame/chessgame/Piece.swift:50-52 | the squares of the first r ranks are exactly those with file in 1..n and rank in 1..r |
| Positions.TopRowsCount | chessgame/chessgame/Piece.swift:50-52 | r ranks of n files hold r*n squares |
| Positions.LessIsStrictTotalOrder | chessgame/chessgame/Piece.swift:66-73 | `<` is irreflexive, asymmetric and transitive, and any two distinct positions are comparable |
| Positions.LessIsRowMajor | chessgame/chessgame/Piece.swift:66-73 | on the board, `<` is the order in which a rank-by-rank scan meets the squares |
| Positions.FileOfLetter | chessgame/chessgame/Piece.swift:45-48 | an ASCII letter's file is its alphabet position, from 'A' or 'a' = 1 |
| Positions.PositionOfLetter | chessgame/chessgame/Piece.swift:45-48 | the letter initialiser keeps the rank it is given |
| Positions.LetterFiles | chessgame/chessgame/Piece.swift:45-48 | upper and lower case of one letter give the same file; a letter names an in-board file iff it is 'A'..'H' |
| Pieces.Score | chessgame/chessgame/Piece.swift:81-234 | every kind scores between 1 and 9 (pawn 1, knight 3, bishop 3, rook 5, queen 9) |
| Pieces.MaxCount | chessgame/chessgame/Piece.swift:82-234 | every cap is between 1 and 8 (pawn 8, knight, bishop and rook 2, queen 1) |
| Pieces.Symbol | chessgame/chessgame/Piece.swift:86-245 | no piece is drawn as the empty-square dot |
| Pieces.PieceOfSymbol | chessgame/chessgame/Piece.swift:86-245 | reading a glyph back gives a piece drawn with that glyph |
| Pieces.SymbolRoundTrip | chessgame/chessgame/Piece.swift:86-245 | reading back a piece's glyph gives that piece |
| Pieces.SymbolsDistinct | chessgame/chessgame/Piece.swift:86-245 | two pieces share a glyph iff they are the same kind and colour; white and black glyphs differ |
| Pieces.ReduceIsDisplacement | chessgame/chessgame/Piece.swift:29 | `path.reduce(origin, +)` is origin plus the componentwise sum of the path |
| Pieces.DisplacementAppend | chessgame/chessgame/Piece.swift:29 | the sum of two concatenated paths is the sum of their sums |
| Pieces.DisplacementWithout | chessgame/chessgame/Piece.swift:29 | any one offset can be taken out of a path's sum |
| Pieces.ReduceIgnoresOrder | chessgame/chessgame/Piece.swift:29 | paths with the same offsets in any order reduce to the same square |
| Pieces.DisplacementIgnoresOrder | chessgame/chessgame/Piece.swift:29 | a path's sum depends only on the multiset of its offsets |
| Pieces.KeepInBoard | chessgame/chessgame/Piece.swift:30-32 | the filter keeps exactly the candidates whose final square is on the board, and never more than it was given |
| Pieces.KeepInBoardAppend | chessgame/chessgame/Piece.swift:30-32 | filtering a concatenation is concatenating the filtered parts |
| Pieces.KeepInBoardOne | chessgame/chessgame/Piece.swift:30-32 | a single candidate is kept iff it lands on the board; with the previous row, the filter keeps path order |
| Pieces.Availables | chessgame/chessgame/Piece.swift:27-33 | every returned pair has one of the piece's paths and an in-board final square |
| Pieces.AvailablesExactly | chessgame/chessgame/Piece.swift:27-33 | a pair is returned iff its path is one of the piece's paths, its square is origin plus the path's sum, and that square is on the board |
| Pieces.CandidatesAppend | chessgame/chessgame/Piece.swift:28-29 | the candidates of concatenated path tables are the concatenated candidates |
| Pieces.QueenAvailables | chessgame/chessgame/Piece.swift:247-249 | a queen's moves are a bishop's followed by a rook's |
| Geometry.Repeat | chessgame/chessgame/Piece.swift:149-229 | a slide of k squares is k copies of one unit direction |
| Geometry.Rays | chessgame/chessgame/Piece.swift:149-229 | one direction's slides of 1..n squares, shortest first |
| Geometry.FourRaysAt | chessgame/chessgame/Piece.swift:149-229 | entry 7d+k of a four-direction layout is the slide of k+1 squares in direction d, out of 28 entries |
| Geometry.SlidingLayout | chessgame/chessgame/Piece.swift:149-249 | bishop and rook have 28 paths each, entry 7d+k sliding k+1 squares in their d-th direction; the queen has 56, the bishop's then the rook's |
| Geometry.SlideBlockIsRays | chessgame/chessgame/Piece.swift:149-229 | a spelled-out block of seven slides is the ray of lengths 1..7 |
| Geometry.RookRays | chessgame/chessgame/Piece.swift:198-229 | the rook table is up, right, down and left, each slid 1..7 squares |
| Geometry.BishopRays | chessgame/chessgame/Piece.swift:149-180 | the bishop table is right-down, right-up, left-down and left-up, each slid 1..7 squares |
| Geometry.KnightPathTotal | chessgame/chessgame/Piece.swift:120-131 | each of the 8 knight paths has 2 steps whose sum is its table offset |
| Geometry.KnightOffsetsAreTheJumps | chessgame/chessgame/Piece.swift:120-131 | the 8 offsets are distinct and are exactly the L-shaped jumps (+-1, +-2) and (+-2, +-1) |
| Geometry.KnightJumps | chessgame/chessgame/Piece.swift:120-131 | the 8 two-step knight paths sum to 8 distinct offsets, which are exactly the L-shaped jumps |
| Geometry.PawnStep | chessgame/chessgame/Piece.swift:95-102 | a white pawn steps one rank towards rank 1, a black one towards rank 8, and the step is available iff it stays on the board |
| Geometry.KnightFromB2 | chessgame/chessgame/Piece.swift:120-131 | a knight at (2, 2) on the 8x8 board lands on (4, 1), (4, 3), (3, 4) and (1, 4), in that order and with those paths |
| Geometry.KnightLandingsFromB2 | chessgame/chessgame/Piece.swift:120-131 | from (2, 2) the knight's candidates end at origin plus each offset, and exactly paths 3 to 6 stay on the board |
| Geometry.KeepInBoardPrefix | chessgame/chessgame/Piece.swift:30-32 | when a first stretch of candidates lands on the board and the rest do not, the filter returns that stretch |
| Geometry.DisplacementOfRepeat | chessgame/chessgame/Piece.swift:149-229 | a slide of m squares moves m times the unit direction |
| Geometry.SlideCandidate | chessgame/chessgame/Piece.swift:149-180 | the bishop candidate for slide k+1 in direction d carries that path and origin plus k+1 steps |
| Geometry.SlideFromD4InBoard | chessgame/chessgame/Piece.swift:149-180 | from (4, 4) the four diagonals stay on the board for 4, 3, 3 and 3 squares |
| Geometry.BishopRayFromD4 | chessgame/chessgame/Piece.swift:149-180 | each bishop ray from (4, 4) lands on the board for exactly its first 4, 3, 3 or 3 slides |
| Geometry.BishopCountFromD4 | chessgame/chessgame/Piece.swift:134-181 | a bishop at (4, 4) has 13 available moves |
| Geometry.SlideFromD4OnDiagonal | chessgame/chessgame/Piece.swift:149-180 | every slide from (4, 4) ends on one of its diagonals |
| Geometry.BishopFromD4Lands | chessgame/chessgame/Piece.swift:134-181 | every available bishop move from (4, 4) ends on a diagonal through (4, 4) |
| Geometry.BishopSlideAvailable | chessgame/chessgame/Piece.swift:27-33 | every bishop slide of the table that stays on the board is available |
| Geometry.BishopFromD4Reaches | chessgame/chessgame/Piece.swift:134-181 | every in-board square on a diagonal through (4, 4) is reached |
| Geometry.DiagonalIndex | chessgame/chessgame/Piece.swift:149-180 | the direction index of a diagonal square is one of the four |
| Geometry.DiagonalIndexFacts | chessgame/chessgame/Piece.swift:149-180 | a square on a diagonal of (4, 4) is (4, 4) plus its distance times the diagonal's direction |
| Geometry.BishopFromD4 | chessgame/chessgame/Piece.swift:134-181 | a bishop at (4, 4) has exactly 13 moves, on 13 distinct squares, which are the in-board squares of its diagonals |
| Geometry.BishopSquaresFromD4 | chessgame/chessgame/Piece.swift:134-181 | the set of squares a bishop at (4, 4) lands on is the 13-square set of in-board diagonal squares |
| Placement.Count | chessgame/chessgame/Board.swift:73 | the count of one kind and colour never exceeds the number of pieces |
| Placement.CountInsert | chessgame/chessgame/Board.swift:73-77 | placing a piece on a free square raises its own count by one and leaves every other count alone |
| Placement.AddCheck | chessgame/chessgame/Board.swift:64-76 | invalid position iff off the board; occupied iff on the board and taken; at cap iff on the board, free and the kind-and-colour count has reached the cap; pass otherwise |
| Placement.AddChangesOnlyTarget | chessgame/chessgame/Board.swift:77 | a passing add sets exactly the target square and changes no other; a failing add changes nothing |
| Placement.AddPreservesWellFormed | chessgame/chessgame/Board.swift:64-77 | `add` keeps every piece on the board and every kind-and-colour count within its cap |
| Scoring.FilterColor | chessgame/chessgame/Board.swift:91 | the colour filter keeps exactly that colour's squares, with their pieces |
| Scoring.KindCountRemove | chessgame/chessgame/Board.swift:91 | taking a piece off lowers its kind's count by one |
| Scoring.WeightedRemove | chessgame/chessgame/Board.swift:91 | the kind-by-kind total drops by the removed piece's score |
| Scoring.WeightedEmpty | chessgame/chessgame/Board.swift:91 | an empty board totals 0 |
| Scoring.ReduceScoreIsWeighted | chessgame/chessgame/Board.swift:91 | the reduce over the dictionary, in whatever order it walks, equals the count of each kind times its score |
| Scoring.ReduceScoreAnyOrder | chessgame/chessgame/Board.swift:91 | the reduce may start from any entry and still gives the same sum |
| Scoring.KindCountOfFilter | chessgame/chessgame/Board.swift:73-91 | a kind's count among one colour's pieces is that kind-and-colour's count |
| Scoring.ScoreForByCounts | chessgame/chessgame/Board.swift:89-92 | `score(for:)` is the sum over kinds of count times score |
| Scoring.ScoreForIsReduce | chessgame/chessgame/Board.swift:89-92 | the computed score equals the reduce over the colour-filtered dictionary |
| Scoring.FilterOfInsert | chessgame/chessgame/Board.swift:91 | a new piece joins the filter of its own colour only |
| Scoring.ScoreAfterInsert | chessgame/chessgame/Board.swift:77-92 | placing a piece raises its own colour's score by its kind's score and leaves the other colour's |
| Scoring.ScoreAfterAdd | chessgame/chessgame/Board.swift:64-92 | after `add`, a colour's score grows by the piece's score iff the add passed and the piece is that colour |
| Scoring.NatToString | chessgame/chessgame/Board.swift:83 | the decimal numeral is a non-empty digit string with no leading zero |
| Scoring.NatToStringRoundTrip | chessgame/chessgame/Board.swift:83 | parsing the numeral gives the number back |
| Scoring.NatToStringInjective | chessgame/chessgame/Board.swift:83 | two numbers have the same numeral iff they are equal |
| Scoring.JoinedPair | chessgame/chessgame/Board.swift:84 | joining two lines puts the separator between them |
| Scoring.AllScore | chessgame/chessgame/Board.swift:80-87 | the summary is "white: W", a newline, then "black: B", with W and B each colour's score in decimal, white first as `PieceColor` declares |
| Scoring.SummaryShape | chessgame/chessgame/Board.swift:81-84 | the joined colour lines read "white: ...\nblack: ..." |
| Scoring.DigitRunOfNumeral | chessgame/chessgame/Board.swift:83 | a numeral followed by a non-digit has a digit run of exactly its own length |
| Scoring.DigitsPrefix | chessgame/chessgame/Board.swift:83 | a numeral followed by a non-digit splits uniquely |
| Scoring.SummaryParts | chessgame/chessgame/Board.swift:80-87 | equal summaries have equal white numerals and equal black parts |
| Scoring.AllScoreDeterminesScores | chessgame/chessgame/Board.swift:80-92 | two boards with the same summary text have the same white score and the same black score |
| Setup.BackRankLayout | chessgame/chessgame/Board.swift:37-61 | each back rank holds rook, knight, bishop, nothing, queen, bishop, knight, rook on files 1 to 8 |
| Setup.StartPosition | chessgame/chessgame/Board.swift:24-62 | the start board holds a square iff the layout puts a piece there, and holds that piece |
| Setup.StartHolder | chessgame/chessgame/Board.swift:24-62 | a start square holds a given piece iff it is one of that piece's start squares |
| Setup.StartCounts | chessgame/chessgame/Board.swift:24-62 | every kind-and-colour count of the start board equals its cap |
| Setup.StartIsWellFormed | chessgame/chessgame/Board.swift:24-62 | the start board is on the board and within every cap |
| Setup.BackSquares | chessgame/chessgame/Board.swift:37-61 | a back rank's filled squares are files 1 to 8 except file 4 |
| Setup.StartSides | chessgame/chessgame/Board.swift:24-62 | black's pieces are on ranks 1-2, white's on ranks 7-8, and file 4 of ranks 1 and 8 is empty |
| Setup.HomeSquaresCount | chessgame/chessgame/Board.swift:24-62 | each colour starts with 15 pieces |
| Setup.StartKeys | chessgame/chessgame/Board.swift:24-62 | the start board's squares are black's home squares plus white's |
| Setup.StartSize | chessgame/chessgame/Board.swift:24-62 | the start board holds 30 pieces |
| Setup.StartStep | chessgame/chessgame/Board.swift:34-61 | each `try add` of the layout onto partly filled start squares passes and fills one more |
| Setup.BackRankStep | chessgame/chessgame/Board.swift:37-61 | each back-rank add in program order puts the layout's piece on a square not yet filled |
| Setup.BackRankOrderMatchesLayout | chessgame/chessgame/Board.swift:37-43 | the kinds and files of the back-rank adds agree with the layout |
| Setup.BackRankPiece | chessgame/chessgame/Board.swift:37-61 | a back-rank file with a kind starts with that kind in the rank's colour |
| Setup.BackRankFresh | chessgame/chessgame/Board.swift:37-43 | the back-rank adds use seven different files |
| Setup.HomeSquaresSplit | chessgame/chessgame/Board.swift:33-43 | a colour's home squares are its pawn rank plus the seven back-rank squares |
| Setup.StartComplete | chessgame/chessgame/Board.swift:24-62 | once all 30 home squares are filled, the board is the start board |
| Setup.StartScores | chessgame/chessgame/Board.swift:24-92 | each colour's start score is 39 |
| Setup.KindTotal | chessgame/chessgame/Board.swift:24-92 | a full set of one colour's capped kinds scores 39 |
| Rendering.Glyph | chessgame/chessgame/Board.swift:98 | a square draws '.' iff it is empty, and otherwise its piece's glyph |
| Rendering.Render | chessgame/chessgame/Board.swift:94-107 | the display text is 71 characters: 8 lines of 8 and 7 line breaks |
| Rendering.RenderAt | chessgame/chessgame/Board.swift:96-99 | the glyph of square (f, r) is character 9(r-1) + (f-1), so rank 1 is the first line and file 1 the leftmost column |
| Rendering.Line | chessgame/chessgame/Board.swift:96-99 | each line of the display has 8 characters |
| Rendering.RenderLine | chessgame/chessgame/Board.swift:96-99 | line r of the display is the glyphs of files 1 to 8 of rank r |
| Rendering.RenderNewline | chessgame/chessgame/Board.swift:101-103 | a line break follows every rank but the last |
| Rendering.RenderLineBreaks | chessgame/chessgame/Board.swift:94-107 | a character is a line break iff it is in the ninth column, so the text does not end with one |
| Rendering.RenderLineBreaksEverywhere | chessgame/chessgame/Board.swift:94-107 | across the whole text, the line breaks are exactly the characters in the ninth column |
| Rendering.ReadBoard | chessgame/chessgame/Board.swift:94-107 | reading a display back gives only on-board squares |
| Rendering.RenderIsLossless | chessgame/chessgame/Board.swift:94-107 | reading back the display of an on-board map gives that map |
| Rendering.RenderIsInjective | chessgame/chessgame/Board.swift:94-107 | two on-board maps have the same display iff they are equal |
| Boards.Board.constructor | chessgame/chessgame/Board.swift:18 | a new board is empty, well formed and reports no piece |
| Boards.Board.IsPieceExists | chessgame/chessgame/Board.swift:20-22 | true iff some square holds a piece |
| Boards.Board.Add | chessgame/chessgame/Board.swift:64-78 | the outcome is the ordered checks' verdict. A pass sets exactly the target square and the board then has a piece; a failure leaves the board as it was; well-formedness is kept |
| Boards.Board.AddStartPiece | chessgame/chessgame/Board.swift:34-61 | a `try add` of the start layout never throws and fills one more start square |
| Boards.Board.PlacePawns | chessgame/chessgame/Board.swift:33-35 | the pawn loop fills a colour's whole pawn rank without throwing |
| Boards.Board.PlaceBackRank | chessgame/chessgame/Board.swift:37-43 | the seven back-rank adds fill a colour's back rank without throwing |
| Boards.Board.PlaceSide | chessgame/chessgame/Board.swift:33-43 | one colour's adds fill exactly its home squares |
| Boards.Board.InitializePieces | chessgame/chessgame/Board.swift:24-62 | after clearing and thirty adds, none of which throws, the board is the start position and well formed |
| Boards.Board.AllScore | chessgame/chessgame/Board.swift:80-87 | the summary of the board's two scores in the "white: W\nblack: B" format |
| Boards.Board.ScoreFor | chessgame/chessgame/Board.swift:89-92 | the score is the reduce of piece scores over the colour-filtered dictionary |
| Boards.Board.Display | chessgame/chessgame/Board.swift:94-107 | the nested rank and file loops build exactly the rendered text, and on a valid board reading that text back gives the board |
| Boards.DisplayReadsBack | chessgame/chessgame/Board.swift:94-107 | a well-formed board is recovered by reading its display |
| Scenarios.PieceExistsScenario | chessgame/chessgameTests/chessgameTests.swift:13-21 | a new board has no piece; after adding a black pawn at (1, 1) it has one |
| Scenarios.ZeroBasedPieceExists | chessgame/chessgameTests/chessgameTests.swift:17-20 | the test's add at (0, 0) throws invalid position and the board stays empty |
| Scenarios.ZeroCoordinateRefused | chessgame/chessgameTests/chessgameTests.swift:18-97 | any add on file 0 or rank 0 throws invalid position and leaves the board unchanged, whatever it holds |
| Scenarios.CapScenario | chessgame/chessgameTests/chessgameTests.swift:71-98 | 8 white pawns pass, a black pawn passes, a 9th white pawn hits the cap; a white and a black queen pass, a second white queen hits the cap |
| Scenarios.FillPawnRow | chessgame/chessgameTests/chessgameTests.swift:80-87 | eight white pawns along one rank all pass |
| Scenarios.AddPawnsPastTheRow | chessgame/chessgameTests/chessgameTests.swift:89-91 | with eight white pawns placed, a black pawn passes and a ninth white pawn is refused at the cap |
| Scenarios.AddQueens | chessgame/chessgameTests/chessgameTests.swift:93-97 | one queen of each colour passes and a second white queen is refused at the cap |
| Scenarios.QueensOn | chessgame/chessgameTests/chessgameTests.swift:93-97 | on any queenless board with pieces only on ranks 2 and 3, the queen adds pass, pass, then fail at the cap |
| Scenarios.RowBoardSquares | chessgame/chessgame/Board.swift:64-78 | adding pieces along one rank fills files 1..n, with the k-th piece on file k |
| Scenarios.RowBoardCount | chessgame/chessgame/Board.swift:73 | on such a row, each count is how often its piece occurs among the adds |
| Scenarios.RowBoardStep | chessgame/chessgame/Board.swift:64-78 | each add along the row passes when no piece reaches its cap among the earlier adds |
| Scenarios.AddRow | chessgame/chessgame/Board.swift:64-78 | adds along one rank of an empty board all pass and give the row board |
| Scenarios.RowBoardScore | chessgame/chessgame/Board.swift:89-92 | a row board's score for a colour is the sum of that colour's added pieces |
| Scenarios.RowScoreSnoc | chessgame/chessgame/Board.swift:91 | one more piece adds its score to its own colour's sum |
| Scenarios.ScoreRow | chessgame/chessgame/Board.swift:80-92 | the summary of a row board carries each colour's sum of its added pieces |
| Scenarios.BlackPawnsScoreScenario | chessgame/chessgameTests/chessgameTests.swift:24-29 | three black pawns give "white: 0\nblack: 3" |
| Scenarios.WhitePawnsScoreScenario | chessgame/chessgameTests/chessgameTests.swift:31-36 | three white pawns give "white: 3\nblack: 0" |
| Scenarios.MixedPawnsScoreScenario | chessgame/chessgameTests/chessgameTests.swift:38-43 | white, black, white pawns give "white: 2\nblack: 1" |
| Scenarios.ScoreScenario | chessgame/chessgameTests/chessgameTests.swift:45-51 | a white pawn, a black bishop, a white queen and a black pawn give "white: 10\nblack: 4" |
| Scenarios.ThreePawnsScore | chessgame/chessgameTests/chessgameTests.swift:24-43 | three pawns score one point each for their own colour |
| Scenarios.MixedPiecesScore | chessgame/chessgameTests/chessgameTests.swift:45-51 | those four pieces score 10 for white and 4 for black |
| Scenarios.DisplayScenario | chessgame/chessgameTests/chessgameTests.swift:55-60 | three black pawns on rank 2 draw the second line "♟♟♟....." and every other line "........", in 71 characters whose line breaks are exactly the seven between the lines |
| Scenarios.MixedDisplayScenario | chessgame/chessgameTests/chessgameTests.swift:62-68 | a black pawn, white bishop, black queen and white knight on rank 3 draw the third line "♟♗♛♘...." and every other line empty, in 71 characters whose line breaks are exactly the seven between the lines |
| Scenarios.OneRowDrawn | chessgame/chessgame/Board.swift:94-107 | a row board draws its pieces' glyphs then dots on its rank, and dots on every other line |
| Scenarios.LineOfGlyphs | chessgame/chessgame/Board.swift:96-99 | a line is the given string when each of its squares draws the matching character |
| Scenarios.StartRankGlyphs | chessgame/chessgame/Board.swift:24-62 | each back and pawn rank of the start board draws its expected line |
| Scenarios.StartLines | chessgame/chessgame/Board.swift:24-62 | the start board draws "♜♞♝.♛♝♞♜", eight black pawns, eight white pawns and "♖♘♗.♕♗♘♖" on lines 1, 2, 7 and 8, and lines 3 to 6 are all dots |
| Scenarios.StartMiddleEmpty | chessgame/chessgame/Board.swift:24-62 | no piece starts on ranks 3 to 6, so each of those lines draws as "........" |
| Scenarios.StartDisplayScenario | chessgame/chessgame/Board.swift:24-107 | after `initializePieces` the display's first line is "♜♞♝.♛♝♞♜", its second and seventh are the pawn rows, its last is "♖♘♗.♕♗♘♖", lines 3 to 6 are "........", and its only line breaks are the seven between the lines |
| Scenarios.MultiplicityBound | chessgame/chessgame/Board.swift:73 | a piece occurs among n adds at most n times |
| Scenarios.PawnsWithinCaps | chessgame/chessgame/Board.swift:73 | up to eight pawns of any colours never reach the pawn cap |
| Scenarios.DistinctWithinCaps | chessgame/chessgame/Board.swift:73 | pieces that are all different never reach a cap |
| Scenarios.RepeatedCount | chessgame/chessgame/Board.swift:73 | n copies of a piece count n of it and none of any other |

## Left out

- `BoardView.swift` and `ViewController.swift`: UIKit view code and controller glue. `canMove` and moving pieces are not part of this model, because they are not in the modelled source.
- Positions.FileOfLetter: only ASCII is modelled. The upper-casing of other characters is Unicode case mapping, and a character below '@' traps on the byte subtraction, so the precondition is `'@' <= c < 128`. The `?? 65` fallback is unreachable for a `Character`, which always has a first UTF-8 byte.
- Positions.IsInBoard: requires `boardSize >= 1`, because `1...boardSize` traps for a smaller size.
- Boards.Board.ScoreFor: the dictionary's iteration order is not modelled as a concrete order. `Scoring.ReduceScore` reduces in an arbitrary order, chosen by `:|`. `Scoring.ScoreForIsReduce` and `Scoring.ReduceScoreAnyOrder` prove that every order gives the count-by-kind total, which is what the compiled `Scoring.ScoreFor` computes.
- Scoring.ScoreFor: carries no `ensures` of its own. What it computes is stated by `Scoring.ScoreForByCounts` and `Scoring.ScoreForIsReduce`.
- Boards.Board.InitializePieces: the thrown-error paths of its `try add` calls are not modelled, because `Setup.StartStep` proves that every one of those adds passes.
- Boards.Board.InitializePieces: the 30 literal `add` statements are modelled as per-side loops.
  - The pawn loop is `PlacePawns`.
  - The seven back-rank adds are a loop over the table `Setup.BackRankOrder`, in the same order.
- Pieces.Symbol: glyphs are modelled as `char` values, and only their equality and distinctness matter. Swift's `Character` grapheme clusters are not modelled.
- Integers are unbounded. Scores and coordinates in the source stay far below Swift's `Int` range, so overflow is not modelled.
- The unit tests' XCTest runner is not modelled. The scenarios are methods on the `Board` class whose contracts state each test's expected values.

## Findings

| source | as written | input that shows it | evidently intended | confidence | as-written member | corrected member |
|---|---|---|---|---|---|---|
| chessgame/chessgameTests/chessgameTests.swift:17-20 | the test adds a black pawn on file 0, rank 0 and expects the board to hold a piece; the board is 1-based (`isInBoard` accepts 1...8), so the add throws invalid position and the board stays empty | a new board, `add` of a black pawn at (0, 0) | every test square moved by one file and one rank onto the 1-based board, here (1, 1); the same shift applies to the file-0 and rank-0 squares of the other tests | high; not executed | Scenarios.ZeroBasedPieceExists | Scenarios.PieceExistsScenario |
