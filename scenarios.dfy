/** Each unit test of the game, restated as a verified method on the `Board`
    class. The tests were written against 0-based squares; the board is
    1-based, so every square here is the test's square moved by one file and
    one rank. */
module Scenarios {
  import opened Positions
  import opened Pieces
  import opened Placement
  import Scoring
  import Rendering
  import opened Setup
  import opened Boards

  lemma CountEmpty(piece: Piece)
    ensures Count(map[], piece) == 0
  {
    var empty: map<Position, Piece> := map[];
    assert (set p | p in empty && empty[p] == piece) == {};
  }

  lemma ScoreEmpty(color: Color)
    ensures Scoring.ScoreFor(map[], color) == 0
  {
    Scoring.WeightedEmpty(Scoring.FilterColor(map[], color));
  }

  /** A fresh board is empty, and a board with one piece is not: the test's
      add at 0-based (0, 0), moved to the board's (1, 1). */
  method PieceExistsScenario() returns (initially: bool, afterAdd: bool)
    ensures !initially && afterAdd
  {
    var board := new Board();
    initially := board.IsPieceExists();
    CountEmpty(Piece(Pawn, Black));
    var outcome := board.Add(Piece(Pawn, Black), Position(1, 1));
    afterAdd := board.IsPieceExists();
  }

  /** The same test on the square it names: (0, 0) is off the 1-based board,
      so the add throws and the board stays empty. */
  method ZeroBasedPieceExists() returns (outcome: Outcome, afterAdd: bool)
    ensures outcome == Fail(InvalidPosition) && !afterAdd
  {
    var board := new Board();
    outcome := board.Add(Piece(Pawn, Black), Position(0, 0));
    afterAdd := board.IsPieceExists();
  }

  /** Every add the tests make on file 0 or rank 0 throws, whatever the board
      already holds. */
  lemma ZeroCoordinateRefused(pieces: map<Position, Piece>, piece: Piece, position: Position)
    requires position.file == 0 || position.rank == 0
    ensures AddCheck(pieces, piece, position) == Fail(InvalidPosition)
    ensures AfterAdd(pieces, piece, position) == pieces
  {}

  /** Eight white pawns fit; a black pawn still fits after them, but a ninth
      white pawn does not. One queen of each colour fits, a second white
      queen does not. */
  method CapScenario() returns (outcomes: seq<Outcome>)
    ensures outcomes == [Pass, Pass, Pass, Pass, Pass, Pass, Pass, Pass,
                         Pass, Fail(AlreadyAtMaxCount),
                         Pass, Pass, Fail(AlreadyAtMaxCount)]
  {
    var board := new Board();
    var pawns := FillPawnRow(board);
    var blackPawn, ninthPawn := AddPawnsPastTheRow(board);
    var whiteQueen, blackQueen, secondQueen := AddQueens(board);
    outcomes := pawns + [blackPawn, ninthPawn, whiteQueen, blackQueen, secondQueen];
  }

  /** Eight white pawns along rank 2 of an empty board all fit. */
  method FillPawnRow(board: Board) returns (outcomes: seq<Outcome>)
    requires board.pieces == map[]
    modifies board
    ensures board.pieces == RowBoard(WhitePawns(), 2, Size)
    ensures outcomes == [Pass, Pass, Pass, Pass, Pass, Pass, Pass, Pass]
  {
    PawnsWithinCaps(WhitePawns());
    outcomes := AddRow(board, WhitePawns(), 2);
  }

  function WhitePawns(): seq<Piece>
  {
    seq(Size, _ => Piece(Pawn, White))
  }

  /** The row of white pawns plus a black pawn at (1, 3). */
  function PawnsAndBlackPawn(): map<Position, Piece>
  {
    RowBoard(WhitePawns(), 2, Size)[Position(1, 3) := Piece(Pawn, Black)]
  }

  /** How many of each piece the row of white pawns holds. */
  lemma PawnRowCount(piece: Piece)
    ensures Count(RowBoard(WhitePawns(), 2, Size), piece) == if piece == Piece(Pawn, White) then Size else 0
  {
    RowBoardCount(WhitePawns(), 2, Size, piece);
    RepeatedCount(Piece(Pawn, White), Size, piece);
    assert WhitePawns()[..Size] == WhitePawns();
  }

  /** The black pawn's count is its own, so it fits; the ninth white pawn
      does not. */
  method AddPawnsPastTheRow(board: Board) returns (blackPawn: Outcome, ninthPawn: Outcome)
    requires board.pieces == RowBoard(WhitePawns(), 2, Size)
    modifies board
    ensures board.pieces == PawnsAndBlackPawn()
    ensures blackPawn == Pass && ninthPawn == Fail(AlreadyAtMaxCount)
  {
    var row := board.pieces;
    RowBoardSquares(WhitePawns(), 2, Size);
    PawnRowCount(Piece(Pawn, Black));
    PawnRowCount(Piece(Pawn, White));
    CountInsert(row, Position(1, 3), Piece(Pawn, Black), Piece(Pawn, White));
    blackPawn := board.Add(Piece(Pawn, Black), Position(1, 3));
    ninthPawn := board.Add(Piece(Pawn, White), Position(2, 3));
  }

  /** A white queen at (4, 1) and a black queen at (4, 8) fit; a second
      white queen at (5, 1) does not. */
  method AddQueens(board: Board) returns (whiteQueen: Outcome, blackQueen: Outcome, secondQueen: Outcome)
    requires board.pieces == PawnsAndBlackPawn()
    modifies board
    ensures whiteQueen == Pass && blackQueen == Pass && secondQueen == Fail(AlreadyAtMaxCount)
  {
    PawnsAndBlackPawnFacts();
    QueensOn(board.pieces);
    whiteQueen := board.Add(Piece(Queen, White), Position(4, 1));
    blackQueen := board.Add(Piece(Queen, Black), Position(4, 8));
    secondQueen := board.Add(Piece(Queen, White), Position(5, 1));
  }

  /** On any board whose pieces sit on ranks 2 and 3 and which holds no
      queen, a queen of each colour fits on the back ranks and then a second
      white queen does not. */
  lemma QueensOn(m: map<Position, Piece>)
    requires forall p :: p in m ==> p.rank == 2 || p.rank == 3
    requires Count(m, Piece(Queen, White)) == 0 && Count(m, Piece(Queen, Black)) == 0
    ensures AddCheck(m, Piece(Queen, White), Position(4, 1)) == Pass
    ensures AddCheck(m[Position(4, 1) := Piece(Queen, White)], Piece(Queen, Black), Position(4, 8)) == Pass
    ensures AddCheck(m[Position(4, 1) := Piece(Queen, White)][Position(4, 8) := Piece(Queen, Black)],
                     Piece(Queen, White), Position(5, 1)) == Fail(AlreadyAtMaxCount)
  {
    var withWhiteQueen := m[Position(4, 1) := Piece(Queen, White)];
    CountInsert(m, Position(4, 1), Piece(Queen, White), Piece(Queen, White));
    CountInsert(m, Position(4, 1), Piece(Queen, White), Piece(Queen, Black));
    CountInsert(withWhiteQueen, Position(4, 8), Piece(Queen, Black), Piece(Queen, White));
  }

  /** The board of the pawn phase holds pieces on ranks 2 and 3 only, and
      no queen. */
  lemma PawnsAndBlackPawnFacts()
    ensures forall p :: p in PawnsAndBlackPawn() ==> p.rank == 2 || p.rank == 3
    ensures Count(PawnsAndBlackPawn(), Piece(Queen, White)) == 0
    ensures Count(PawnsAndBlackPawn(), Piece(Queen, Black)) == 0
  {
    RowBoardSquares(WhitePawns(), 2, Size);
    QueenCounts(Piece(Queen, White));
    QueenCounts(Piece(Queen, Black));
  }

  lemma QueenCounts(queen: Piece)
    requires queen.kind == Queen
    ensures Count(PawnsAndBlackPawn(), queen) == 0
  {
    RowBoardSquares(WhitePawns(), 2, Size);
    PawnRowCount(queen);
    CountInsert(RowBoard(WhitePawns(), 2, Size), Position(1, 3), Piece(Pawn, Black), queen);
  }

  /** The board after the first n of the given adds, the k-th add placing
      its piece at file k of the rank. */
  function RowBoard(adds: seq<Piece>, rank: int, n: nat): map<Position, Piece>
    requires n <= |adds|
  {
    if n == 0 then map[] else RowBoard(adds, rank, n - 1)[Position(n, rank) := adds[n - 1]]
  }

  lemma {:induction false} RowBoardSquares(adds: seq<Piece>, rank: int, n: nat)
    requires n <= |adds|
    ensures forall p :: p in RowBoard(adds, rank, n) <==> p.rank == rank && 1 <= p.file <= n
    ensures forall p :: p in RowBoard(adds, rank, n) ==> RowBoard(adds, rank, n)[p] == adds[p.file - 1]
  {
    if n > 0 {
      RowBoardSquares(adds, rank, n - 1);
    }
  }

  /** How many times each piece was placed by the first n adds. */
  lemma {:induction false} RowBoardCount(adds: seq<Piece>, rank: int, n: nat, piece: Piece)
    requires n <= |adds|
    ensures Count(RowBoard(adds, rank, n), piece) == multiset(adds[..n])[piece]
  {
    if n == 0 {
      CountEmpty(piece);
    } else {
      RowBoardCount(adds, rank, n - 1, piece);
      RowBoardSquares(adds, rank, n - 1);
      CountInsert(RowBoard(adds, rank, n - 1), Position(n, rank), adds[n - 1], piece);
      assert adds[..n] == adds[..n - 1] + [adds[n - 1]];
    }
  }

  /** No add of the row finds its own piece already at that piece's cap. */
  predicate WithinCaps(adds: seq<Piece>)
  {
    forall n :: 0 <= n < |adds| ==> multiset(adds[..n])[adds[n]] < MaxCount(adds[n].kind)
  }

  /** The (n + 1)-th add goes to a free square of the board below its
      piece's cap, so it passes and places that piece. */
  lemma RowBoardStep(adds: seq<Piece>, rank: int, n: nat)
    requires n < |adds| <= Size && 1 <= rank <= Size && WithinCaps(adds)
    ensures AddCheck(RowBoard(adds, rank, n), adds[n], Position(n + 1, rank)) == Pass
    ensures AfterAdd(RowBoard(adds, rank, n), adds[n], Position(n + 1, rank)) == RowBoard(adds, rank, n + 1)
  {
    RowBoardSquares(adds, rank, n);
    RowBoardCount(adds, rank, n, adds[n]);
  }

  /** Adds the given pieces at files 1, 2, ... of one rank of an empty
      board; every add passes. */
  method AddRow(board: Board, adds: seq<Piece>, rank: int) returns (outcomes: seq<Outcome>)
    requires board.pieces == map[]
    requires |adds| <= Size && 1 <= rank <= Size && WithinCaps(adds)
    modifies board
    ensures board.pieces == RowBoard(adds, rank, |adds|)
    ensures outcomes == seq(|adds|, _ => Pass)
  {
    outcomes := [];
    for n := 0 to |adds|
      invariant board.pieces == RowBoard(adds, rank, n)
      invariant outcomes == seq(n, _ => Pass)
    {
      RowBoardStep(adds, rank, n);
      var outcome := board.Add(adds[n], Position(n + 1, rank));
      outcomes := outcomes + [outcome];
    }
  }

  /** The summed score of one colour's pieces among the given ones. */
  function RowScore(adds: seq<Piece>, color: Color): nat
  {
    if |adds| == 0 then 0
    else
      var last := adds[|adds| - 1];
      RowScore(adds[..|adds| - 1], color) + (if last.color == color then Score(last.kind) else 0)
  }

  /** A row board scores, for each colour, the sum of that colour's pieces
      among its adds. */
  lemma {:induction false} RowBoardScore(adds: seq<Piece>, rank: int, n: nat, color: Color)
    requires n <= |adds|
    ensures Scoring.ScoreFor(RowBoard(adds, rank, n), color) == RowScore(adds[..n], color)
  {
    if n == 0 {
      ScoreEmpty(color);
    } else {
      RowBoardScore(adds, rank, n - 1, color);
      RowBoardSquares(adds, rank, n - 1);
      Scoring.ScoreAfterInsert(RowBoard(adds, rank, n - 1), Position(n, rank), adds[n - 1], color);
      assert adds[..n][..n - 1] == adds[..n - 1];
    }
  }

  /** Adds the given pieces along rank 2 of a new board and returns
      `allScore()`: each colour's line carries the sum of its pieces. */
  method ScoreRow(adds: seq<Piece>) returns (text: string)
    requires |adds| <= Size && WithinCaps(adds)
    ensures text == "white: " + Scoring.NatToString(RowScore(adds, White))
                    + "\nblack: " + Scoring.NatToString(RowScore(adds, Black))
  {
    var board := new Board();
    var outcomes := AddRow(board, adds, 2);
    RowBoardScore(adds, 2, |adds|, White);
    RowBoardScore(adds, 2, |adds|, Black);
    assert adds[..|adds|] == adds;
    text := board.AllScore();
  }

  /** The first three boards of the score test: three pawns along rank 2,
      each scoring one point for its own colour. */
  method BlackPawnsScoreScenario() returns (text: string)
    ensures text == "white: 0\nblack: 3"
  {
    SmallNumerals();
    PawnsWithinCaps(ThreePawns(Black, Black, Black));
    ThreePawnsScore(Black, Black, Black, White);
    ThreePawnsScore(Black, Black, Black, Black);
    text := ScoreRow(ThreePawns(Black, Black, Black));
  }

  method WhitePawnsScoreScenario() returns (text: string)
    ensures text == "white: 3\nblack: 0"
  {
    SmallNumerals();
    PawnsWithinCaps(ThreePawns(White, White, White));
    ThreePawnsScore(White, White, White, White);
    ThreePawnsScore(White, White, White, Black);
    text := ScoreRow(ThreePawns(White, White, White));
  }

  method MixedPawnsScoreScenario() returns (text: string)
    ensures text == "white: 2\nblack: 1"
  {
    SmallNumerals();
    PawnsWithinCaps(ThreePawns(White, Black, White));
    ThreePawnsScore(White, Black, White, White);
    ThreePawnsScore(White, Black, White, Black);
    text := ScoreRow(ThreePawns(White, Black, White));
  }

  /** The last board of the score test: a white pawn, a black bishop, a
      white queen and a black pawn score 10 for white and 4 for black. */
  method ScoreScenario() returns (text: string)
    ensures text == "white: 10\nblack: 4"
  {
    SmallNumerals();
    DistinctWithinCaps(MixedPieces());
    MixedPiecesScore(White);
    MixedPiecesScore(Black);
    text := ScoreRow(MixedPieces());
  }

  function ThreePawns(first: Color, second: Color, third: Color): seq<Piece>
  {
    [Piece(Pawn, first), Piece(Pawn, second), Piece(Pawn, third)]
  }

  /** One more piece adds its score to its own colour's sum. */
  lemma RowScoreSnoc(adds: seq<Piece>, piece: Piece, color: Color)
    ensures RowScore(adds + [piece], color)
         == RowScore(adds, color) + (if piece.color == color then Score(piece.kind) else 0)
  {
    assert (adds + [piece])[..|adds|] == adds;
  }

  /** Three pawns score one point each for their own colour. */
  lemma ThreePawnsScore(first: Color, second: Color, third: Color, color: Color)
    ensures RowScore(ThreePawns(first, second, third), color)
         == (if first == color then 1 else 0) + (if second == color then 1 else 0) + (if third == color then 1 else 0)
  {
    var one := [] + [Piece(Pawn, first)];
    RowScoreSnoc([], Piece(Pawn, first), color);
    RowScoreSnoc(one, Piece(Pawn, second), color);
    RowScoreSnoc(one + [Piece(Pawn, second)], Piece(Pawn, third), color);
    assert ThreePawns(first, second, third) == one + [Piece(Pawn, second)] + [Piece(Pawn, third)];
  }

  function MixedPieces(): seq<Piece>
  {
    [Piece(Pawn, White), Piece(Bishop, Black), Piece(Queen, White), Piece(Pawn, Black)]
  }

  lemma MixedPiecesScore(color: Color)
    ensures RowScore(MixedPieces(), color) == if color == White then 10 else 4
  {
    var one := [] + [Piece(Pawn, White)];
    var two := one + [Piece(Bishop, Black)];
    var three := two + [Piece(Queen, White)];
    RowScoreSnoc([], Piece(Pawn, White), color);
    RowScoreSnoc(one, Piece(Bishop, Black), color);
    RowScoreSnoc(two, Piece(Queen, White), color);
    RowScoreSnoc(three, Piece(Pawn, Black), color);
    assert MixedPieces() == three + [Piece(Pawn, Black)];
  }

  lemma SmallNumerals()
    ensures Scoring.NatToString(0) == "0" && Scoring.NatToString(1) == "1" && Scoring.NatToString(2) == "2"
    ensures Scoring.NatToString(3) == "3" && Scoring.NatToString(4) == "4" && Scoring.NatToString(10) == "10"
  {}

  /** Three black pawns at files 1 to 3 of rank 2 draw the second line as
      "♟♟♟....." and leave every other line empty. */
  method DisplayScenario() returns (text: string)
    ensures |text| == Size * Rendering.Stride - 1
    ensures Rendering.Line(text, 2) == "♟♟♟....."
    ensures forall i :: 0 <= i < |text| ==> (text[i] == '\n' <==> i % Rendering.Stride == Size)
    ensures forall rank :: 1 <= rank <= Size && rank != 2 ==> Rendering.Line(text, rank) == "........"
  {
    var board := new Board();
    PawnsWithinCaps(BlackPawns());
    var outcomes := AddRow(board, BlackPawns(), 2);
    text := board.Display();
    BlackPawnsDrawn();
    Rendering.RenderLineBreaksEverywhere(board.pieces);
  }

  function BlackPawns(): seq<Piece>
  {
    seq(3, _ => Piece(Pawn, Black))
  }

  lemma BlackPawnsDrawn()
    ensures var text := Rendering.Render(RowBoard(BlackPawns(), 2, 3));
      && Rendering.Line(text, 2) == "♟♟♟....."
      && forall rank :: 1 <= rank <= Size && rank != 2 ==> Rendering.Line(text, rank) == "........"
  {
    OneRowDrawn(BlackPawns(), 2);
  }

  /** A black pawn, a white bishop, a black queen and a white knight at
      files 1 to 4 of rank 3 draw the third line as "♟♗♛♘....". */
  method MixedDisplayScenario() returns (text: string)
    ensures |text| == Size * Rendering.Stride - 1
    ensures Rendering.Line(text, 3) == "♟♗♛♘...."
    ensures forall i :: 0 <= i < |text| ==> (text[i] == '\n' <==> i % Rendering.Stride == Size)
    ensures forall rank :: 1 <= rank <= Size && rank != 3 ==> Rendering.Line(text, rank) == "........"
  {
    var board := new Board();
    DistinctWithinCaps(MixedRow());
    var outcomes := AddRow(board, MixedRow(), 3);
    text := board.Display();
    MixedRowDrawn();
    Rendering.RenderLineBreaksEverywhere(board.pieces);
  }

  function MixedRow(): seq<Piece>
  {
    [Piece(Pawn, Black), Piece(Bishop, White), Piece(Queen, Black), Piece(Knight, White)]
  }

  lemma MixedRowDrawn()
    ensures var text := Rendering.Render(RowBoard(MixedRow(), 3, 4));
      && Rendering.Line(text, 3) == "♟♗♛♘...."
      && forall rank :: 1 <= rank <= Size && rank != 3 ==> Rendering.Line(text, rank) == "........"
  {
    OneRowDrawn(MixedRow(), 3);
  }

  /** A line of a board's text is the given string when each of its squares
      draws the matching character. */
  lemma LineOfGlyphs(pieces: map<Position, Piece>, rank: int, line: string)
    requires 1 <= rank <= Size && |line| == Size
    requires forall f :: 0 <= f < Size ==> Rendering.Glyph(pieces, Position(f + 1, rank)) == line[f]
    ensures Rendering.Line(Rendering.Render(pieces), rank) == line
  {
    Rendering.RenderLine(pieces, rank);
  }

  /** The starting board's back ranks and pawn ranks, as text lines. */
  lemma StartLines()
    ensures Rendering.Line(Rendering.Render(StartPosition()), 1) == "♜♞♝.♛♝♞♜"
    ensures Rendering.Line(Rendering.Render(StartPosition()), 2) == "♟♟♟♟♟♟♟♟"
    ensures Rendering.Line(Rendering.Render(StartPosition()), 7) == "♙♙♙♙♙♙♙♙"
    ensures Rendering.Line(Rendering.Render(StartPosition()), 8) == "♖♘♗.♕♗♘♖"
    ensures forall rank :: 3 <= rank <= 6 ==> Rendering.Line(Rendering.Render(StartPosition()), rank) == "........"
  {
    StartRankGlyphs(1, "♜♞♝.♛♝♞♜");
    StartRankGlyphs(2, "♟♟♟♟♟♟♟♟");
    StartRankGlyphs(7, "♙♙♙♙♙♙♙♙");
    StartRankGlyphs(8, "♖♘♗.♕♗♘♖");
    forall rank | 3 <= rank <= 6 ensures Rendering.Line(Rendering.Render(StartPosition()), rank) == "........" {
      StartMiddleEmpty(rank);
    }
  }

  /** Ranks 3 to 6 of the starting board hold no piece and draw as dots. */
  lemma StartMiddleEmpty(rank: int)
    requires 3 <= rank <= 6
    ensures Rendering.Line(Rendering.Render(StartPosition()), rank) == "........"
  {
    var start := StartPosition();
    forall f | 0 <= f < Size ensures Rendering.Glyph(start, Position(f + 1, rank)) == "........"[f] {
      var p := Position(f + 1, rank);
      assert p in start <==> StartPieceAt(p).Some?;
    }
    LineOfGlyphs(start, rank, "........");
  }

  /** One rank of the starting board, drawn square by square. */
  lemma StartRankGlyphs(rank: int, line: string)
    requires rank in {1, 2, 7, 8}
    requires rank == 1 ==> line == "♜♞♝.♛♝♞♜"
    requires rank == 2 ==> line == "♟♟♟♟♟♟♟♟"
    requires rank == 7 ==> line == "♙♙♙♙♙♙♙♙"
    requires rank == 8 ==> line == "♖♘♗.♕♗♘♖"
    ensures Rendering.Line(Rendering.Render(StartPosition()), rank) == line
  {
    var start := StartPosition();
    forall f | 0 <= f < Size ensures Rendering.Glyph(start, Position(f + 1, rank)) == line[f] {
      var p := Position(f + 1, rank);
      assert p in start <==> StartPieceAt(p).Some?;
    }
    LineOfGlyphs(start, rank, line);
  }

  /** After `initializePieces()` the first line is black's back rank and
      the last is white's, each with the fourth file empty; the pawn rows
      follow them, and the four middle lines are empty. */
  method StartDisplayScenario() returns (text: string)
    ensures |text| == Size * Rendering.Stride - 1
    ensures Rendering.Line(text, 1) == "♜♞♝.♛♝♞♜"
    ensures Rendering.Line(text, 2) == "♟♟♟♟♟♟♟♟"
    ensures Rendering.Line(text, 7) == "♙♙♙♙♙♙♙♙"
    ensures Rendering.Line(text, 8) == "♖♘♗.♕♗♘♖"
    ensures forall rank :: 3 <= rank <= 6 ==> Rendering.Line(text, rank) == "........"
    ensures forall i :: 0 <= i < |text| ==> (text[i] == '\n' <==> i % Rendering.Stride == Size)
  {
    var board := new Board();
    board.InitializePieces();
    text := board.Display();
    StartLines();
    Rendering.RenderLineBreaksEverywhere(board.pieces);
  }

  lemma {:induction false} RepeatedCount(piece: Piece, n: nat, other: Piece)
    ensures multiset(seq(n, _ => piece))[other] == if other == piece then n else 0
  {
    if n > 0 {
      RepeatedCount(piece, n - 1, other);
      assert seq(n, _ => piece) == seq(n - 1, _ => piece) + [piece];
    }
  }

  /** A piece occurs in a sequence no more often than the sequence is long. */
  lemma {:induction false} MultiplicityBound(s: seq<Piece>, piece: Piece)
    ensures multiset(s)[piece] <= |s|
  {
    if |s| > 0 {
      MultiplicityBound(s[..|s| - 1], piece);
      assert s == s[..|s| - 1] + [s[|s| - 1]];
    }
  }

  /** Up to eight pawns fit, whatever their colours. */
  lemma PawnsWithinCaps(adds: seq<Piece>)
    requires |adds| <= MaxCount(Pawn)
    requires forall i :: 0 <= i < |adds| ==> adds[i].kind == Pawn
    ensures WithinCaps(adds)
  {
    forall n | 0 <= n < |adds| ensures multiset(adds[..n])[adds[n]] < MaxCount(adds[n].kind) {
      MultiplicityBound(adds[..n], adds[n]);
    }
  }

  /** Pieces that are all different fit. */
  lemma DistinctWithinCaps(adds: seq<Piece>)
    requires forall i, j :: 0 <= i < j < |adds| ==> adds[i] != adds[j]
    ensures WithinCaps(adds)
  {
    forall n | 0 <= n < |adds| ensures multiset(adds[..n])[adds[n]] == 0 {
      assert adds[n] !in adds[..n];
    }
  }

  /** Pieces added along one rank draw that line, glyph by glyph, followed by
      dots; every other line is all dots. */
  lemma OneRowDrawn(adds: seq<Piece>, rank: int)
    requires |adds| <= Size && 1 <= rank <= Size
    ensures var text := Rendering.Render(RowBoard(adds, rank, |adds|));
      && Rendering.Line(text, rank)
         == seq(|adds|, i requires 0 <= i < |adds| => Symbol(adds[i])) + seq(Size - |adds|, _ => '.')
      && forall r :: 1 <= r <= Size && r != rank ==> Rendering.Line(text, r) == seq(Size, _ => '.')
  {
    var m := RowBoard(adds, rank, |adds|);
    RowBoardSquares(adds, rank, |adds|);
    forall r | 1 <= r <= Size {
      Rendering.RenderLine(m, r);
    }
  }
}
