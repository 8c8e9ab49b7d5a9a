/** The layout `initializePieces()` builds: black on ranks 1 and 2, white on
    ranks 7 and 8, pawns on the inner rank of each side and on the outer
    rank rooks, knights, bishops and the queen, with the fourth file of each
    outer rank left empty (the game has no king). */
module Setup {
  import opened Positions
  import opened Pieces
  import opened Placement
  import opened Scoring

  /** The rank each colour's pawns start on. */
  function PawnRank(color: Color): int
  {
    match color
    case Black => 2
    case White => 7
  }

  /** The rank each colour's other pieces start on. */
  function BackRank(color: Color): int
  {
    match color
    case Black => 1
    case White => 8
  }

  /** Which kind starts on each file of the back rank. */
  function BackRankKind(file: int): Option<Kind>
  {
    if file == 1 || file == 8 then Some(Rook)
    else if file == 2 || file == 7 then Some(Knight)
    else if file == 3 || file == 6 then Some(Bishop)
    else if file == 5 then Some(Queen)
    else None
  }

  /** What starts on a square, if anything. */
  function StartPieceAt(p: Position): Option<Piece>
  {
    if !IsInBoard(p, Size) then None
    else if p.rank == PawnRank(Black) then Some(Piece(Pawn, Black))
    else if p.rank == PawnRank(White) then Some(Piece(Pawn, White))
    else if p.rank == BackRank(Black) && BackRankKind(p.file).Some? then Some(Piece(BackRankKind(p.file).value, Black))
    else if p.rank == BackRank(White) && BackRankKind(p.file).Some? then Some(Piece(BackRankKind(p.file).value, White))
    else None
  }

  /** What starts on each back-rank square of a colour. */
  lemma BackRankLayout(color: Color)
    ensures BackRank(color) != PawnRank(color)
    ensures var r := BackRank(color);
      && StartPieceAt(Position(1, r)) == Some(Piece(Rook, color))
      && StartPieceAt(Position(2, r)) == Some(Piece(Knight, color))
      && StartPieceAt(Position(3, r)) == Some(Piece(Bishop, color))
      && StartPieceAt(Position(4, r)) == None
      && StartPieceAt(Position(5, r)) == Some(Piece(Queen, color))
      && StartPieceAt(Position(6, r)) == Some(Piece(Bishop, color))
      && StartPieceAt(Position(7, r)) == Some(Piece(Knight, color))
      && StartPieceAt(Position(8, r)) == Some(Piece(Rook, color))
  {}

  /** The whole starting board. */
  function StartPosition(): (start: map<Position, Piece>)
    ensures forall p :: p in start <==> StartPieceAt(p).Some?
    ensures forall p :: p in start ==> start[p] == StartPieceAt(p).value
  {
    map p | p in Squares(Size) && StartPieceAt(p).Some? :: StartPieceAt(p).value
  }

  /** The squares each piece starts on. */
  function StartSquares(piece: Piece): set<Position>
  {
    var r := BackRank(piece.color);
    match piece.kind
    case Pawn => RowSquares(PawnRank(piece.color), Size)
    case Knight => {Position(2, r), Position(7, r)}
    case Bishop => {Position(3, r), Position(6, r)}
    case Rook => {Position(1, r), Position(8, r)}
    case Queen => {Position(5, r)}
  }

  lemma StartHolder(piece: Piece, p: Position)
    ensures p in StartPosition() && StartPosition()[p] == piece <==> p in StartSquares(piece)
  {
    if p in StartSquares(piece) {
      assert StartPieceAt(p) == Some(piece);
    }
  }

  /** Every colour starts with exactly the maximum number of each kind. */
  lemma StartCounts(piece: Piece)
    ensures Count(StartPosition(), piece) == MaxCount(piece.kind)
  {
    var start := StartPosition();
    forall p ensures p in start && start[p] == piece <==> p in StartSquares(piece) {
      StartHolder(piece, p);
    }
    assert (set p | p in start && start[p] == piece) == StartSquares(piece);
    if piece.kind == Pawn {
      RowSquaresCount(PawnRank(piece.color), Size);
    }
  }

  lemma StartIsWellFormed()
    ensures WellFormed(StartPosition())
  {
    forall piece: Piece ensures Count(StartPosition(), piece) <= MaxCount(piece.kind) {
      StartCounts(piece);
    }
  }

  /** The squares a colour starts on: its pawn rank, and its back rank
      without the fourth file. */
  function HomeSquares(color: Color): set<Position>
  {
    RowSquares(PawnRank(color), Size) + BackSquares(BackRank(color))
  }

  /** The back-rank squares that get a piece: all but the fourth file. */
  function BackSquares(rank: int): (s: set<Position>)
    ensures forall p :: p in s <==> p.rank == rank && 1 <= p.file <= Size && p.file != 4
  {
    {Position(1, rank), Position(2, rank), Position(3, rank), Position(5, rank),
     Position(6, rank), Position(7, rank), Position(8, rank)}
  }

  /** Black starts on ranks 1 and 2, white on ranks 7 and 8, each colour on
      exactly its home squares; the fourth file of both back ranks is empty. */
  lemma StartSides(p: Position)
    ensures p in StartPosition() && StartPosition()[p].color == Black <==> p in HomeSquares(Black)
    ensures p in StartPosition() && StartPosition()[p].color == White <==> p in HomeSquares(White)
    ensures p in HomeSquares(Black) ==> 1 <= p.rank <= 2
    ensures p in HomeSquares(White) ==> 7 <= p.rank <= 8
    ensures p.file == 4 && (p.rank == 1 || p.rank == 8) ==> p !in StartPosition()
  {}

  lemma HomeSquaresCount(color: Color)
    ensures |HomeSquares(color)| == 15
  {
    var pawns, back := RowSquares(PawnRank(color), Size), BackSquares(BackRank(color));
    RowSquaresCount(PawnRank(color), Size);
    assert |back| == 7;
    assert pawns * back == {};
  }

  lemma StartKeys()
    ensures StartPosition().Keys == HomeSquares(Black) + HomeSquares(White)
  {
    forall p ensures p in StartPosition() <==> p in HomeSquares(Black) + HomeSquares(White) {
      StartSides(p);
    }
  }

  /** Thirty pieces, fifteen of each colour. */
  lemma StartSize()
    ensures |StartPosition()| == 30
  {
    var black, white := HomeSquares(Black), HomeSquares(White);
    StartKeys();
    HomeSquaresCount(Black);
    HomeSquaresCount(White);
    forall p | p in black ensures p !in white {
      StartSides(p);
    }
    assert black * white == {};
    assert |black + white| == 30;
  }

  /** The board restricted to the squares already filled. */
  function StartRestricted(placed: set<Position>): map<Position, Piece>
  {
    map p | p in placed && p in StartPosition() :: StartPosition()[p]
  }

  /** Filling any not-yet-filled starting square passes every guard of `add`
      and extends the partial board by that square. */
  lemma StartStep(placed: set<Position>, q: Position)
    requires q in StartPosition() && q !in placed
    ensures AddCheck(StartRestricted(placed), StartPosition()[q], q) == Pass
    ensures AfterAdd(StartRestricted(placed), StartPosition()[q], q) == StartRestricted(placed + {q})
  {
    var start, partial, piece := StartPosition(), StartRestricted(placed), StartPosition()[q];
    var held := set p | p in partial && partial[p] == piece;
    var all := set p | p in start && start[p] == piece;
    ProperSubsetCardinality(held, all, q);
    StartCounts(piece);
    assert partial[q := piece] == StartRestricted(placed + {q});
  }

  /** The back-rank adds of `initializePieces()`, kind and file, in the order
      it makes them. */
  const BackRankOrder: seq<(Kind, int)> :=
    [(Knight, 2), (Knight, 7), (Bishop, 3), (Bishop, 6), (Rook, 1), (Rook, 8), (Queen, 5)]

  /** The back-rank squares filled by the first n of those adds. */
  function BackRankPlaced(rank: int, n: nat): (s: set<Position>)
    requires n <= |BackRankOrder|
  {
    if n == 0 then {} else BackRankPlaced(rank, n - 1) + {Position(BackRankOrder[n - 1].1, rank)}
  }

  /** Each back-rank add puts the piece that starts there on a square not
      yet filled. */
  lemma BackRankStep(color: Color, n: nat)
    requires n < |BackRankOrder|
    ensures var (kind, file) := BackRankOrder[n];
      && StartPieceAt(Position(file, BackRank(color))) == Some(Piece(kind, color))
      && Position(file, BackRank(color)) !in BackRankPlaced(BackRank(color), n)
      && BackRankPlaced(BackRank(color), n + 1)
         == BackRankPlaced(BackRank(color), n) + {Position(file, BackRank(color))}
  {
    BackRankOrderMatchesLayout(n);
    BackRankPiece(color, BackRankOrder[n].1);
    BackRankFresh(BackRank(color), n);
  }

  lemma BackRankOrderMatchesLayout(n: nat)
    requires n < |BackRankOrder|
    ensures 1 <= BackRankOrder[n].1 <= Size
    ensures BackRankKind(BackRankOrder[n].1) == Some(BackRankOrder[n].0)
  {}

  lemma BackRankPiece(color: Color, file: int)
    requires 1 <= file <= Size && BackRankKind(file).Some?
    ensures StartPieceAt(Position(file, BackRank(color))) == Some(Piece(BackRankKind(file).value, color))
  {}

  lemma BackRankFresh(rank: int, n: nat)
    requires n < |BackRankOrder|
    ensures Position(BackRankOrder[n].1, rank) !in BackRankPlaced(rank, n)
  {
    if n == 0 {
    } else if n == 1 {
    } else if n == 2 {
    } else if n == 3 {
    } else if n == 4 {
    } else if n == 5 {
    } else {
      assert n == 6;
    }
  }

  /** The pawn rank and the seven back-rank adds fill a colour's home
      squares. */
  lemma HomeSquaresSplit(color: Color)
    ensures HomeSquares(color)
         == RowSquares(PawnRank(color), Size) + BackRankPlaced(BackRank(color), |BackRankOrder|)
  {
    var r := BackRank(color);
    assert BackRankPlaced(r, |BackRankOrder|) == BackSquares(r);
  }

  lemma StartComplete(placed: set<Position>)
    requires placed == HomeSquares(Black) + HomeSquares(White)
    ensures StartRestricted(placed) == StartPosition()
  {
    forall p ensures p in StartPosition() <==> p in placed {
      StartSides(p);
    }
  }

  /** Both colours start with 8 + 2 * 3 + 2 * 3 + 2 * 5 + 9 = 39 points. */
  lemma StartScores(color: Color)
    ensures ScoreFor(StartPosition(), color) == 39
  {
    var start := StartPosition();
    ScoreForByCounts(start, color);
    StartCounts(Piece(Pawn, color));
    StartCounts(Piece(Knight, color));
    StartCounts(Piece(Bishop, color));
    StartCounts(Piece(Rook, color));
    StartCounts(Piece(Queen, color));
    KindTotal(Count(start, Piece(Pawn, color)), Count(start, Piece(Knight, color)),
              Count(start, Piece(Bishop, color)), Count(start, Piece(Rook, color)),
              Count(start, Piece(Queen, color)));
  }

  lemma KindTotal(pawns: nat, knights: nat, bishops: nat, rooks: nat, queens: nat)
    requires pawns == MaxCount(Pawn) && knights == MaxCount(Knight) && bishops == MaxCount(Bishop)
    requires rooks == MaxCount(Rook) && queens == MaxCount(Queen)
    ensures pawns * Score(Pawn) + knights * Score(Knight) + bishops * Score(Bishop)
          + rooks * Score(Rook) + queens * Score(Queen) == 39
  {}
}
