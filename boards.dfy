/** The `Board` class: a mutable square-to-piece map on the 8x8 board,
    filled one guarded `add` at a time, and its text views. */
module Boards {
  import opened Positions
  import opened Pieces
  import opened Placement
  import Scoring
  import Rendering
  import opened Setup

  /** A well-formed board can be read back from its display. */
  lemma DisplayReadsBack(pieces: map<Position, Piece>)
    ensures WellFormed(pieces) ==> Rendering.ReadBoard(Rendering.Render(pieces)) == pieces
  {
    if WellFormed(pieces) {
      Rendering.RenderIsLossless(pieces);
    }
  }

  /** The board as the game sees it: a mutable map from square to piece. */
  class Board {
    var pieces: map<Position, Piece>

    ghost predicate Valid()
      reads this
    {
      WellFormed(pieces)
    }

    constructor ()
      ensures pieces == map[] && Valid() && !IsPieceExists()
    {
      pieces := map[];
    }

    /** `isPieceExists`: some square holds a piece. */
    function IsPieceExists(): (r: bool)
      reads this
      ensures r <==> exists p :: p in pieces
    {
      assert pieces != map[] ==> exists p :: p in pieces;
      pieces != map[]
    }

    /** `add(piece:to:)`: checks the square is on the board, then that it is
        free, then that the colour has fewer than the maximum of that kind;
        the first failing check is thrown and leaves the board as it was. */
    method Add(piece: Piece, position: Position) returns (outcome: Outcome)
      modifies this
      ensures outcome == AddCheck(old(pieces), piece, position)
      ensures pieces == AfterAdd(old(pieces), piece, position)
      ensures outcome == Pass ==> pieces == old(pieces)[position := piece] && IsPieceExists()
      ensures outcome != Pass ==> pieces == old(pieces)
      ensures old(Valid()) ==> Valid()
    {
      if !IsInBoard(position, Size) {
        return Fail(InvalidPosition);
      }
      if position in pieces {
        return Fail(PieceAlreadyThere);
      }
      if Count(pieces, piece) >= MaxCount(piece.kind) {
        return Fail(AlreadyAtMaxCount);
      }
      if WellFormed(pieces) {
        AddPreservesWellFormed(pieces, piece, position);
      }
      pieces := pieces[position := piece];
      assert position in pieces;
      outcome := Pass;
    }

    /** One `try add` of `initializePieces()` on the partly filled starting
        board: it never throws, and fills one more starting square. */
    method AddStartPiece(piece: Piece, position: Position, ghost placed: set<Position>)
      requires pieces == StartRestricted(placed)
      requires StartPieceAt(position) == Some(piece)
      requires position !in placed
      modifies this
      ensures pieces == StartRestricted(placed + {position})
    {
      StartStep(placed, position);
      var outcome := Add(piece, position);
      assert outcome == Pass;
    }

    /** The pawn loop of one side's half of `initializePieces()`: a pawn on
        each file of the pawn rank, file by file. None of these adds throws. */
    method PlacePawns(color: Color, ghost base: set<Position>)
      requires pieces == StartRestricted(base)
      requires forall p :: p in base ==> p.rank != PawnRank(color)
      modifies this
      ensures pieces == StartRestricted(base + RowSquares(PawnRank(color), Size))
    {
      ghost var placed := base;
      assert placed == base + RowSquares(PawnRank(color), 0);
      for file := 1 to Size + 1
        invariant placed == base + RowSquares(PawnRank(color), file - 1)
        invariant pieces == StartRestricted(placed)
      {
        RowSquaresExtend(PawnRank(color), file - 1);
        AddStartPiece(Piece(Pawn, color), Position(file, PawnRank(color)), placed);
        placed := placed + {Position(file, PawnRank(color))};
      }
    }

    /** The back-rank adds of one side's half of `initializePieces()`:
        knights, bishops, rooks and the queen in the order of BackRankOrder.
        None of these adds throws. */
    method PlaceBackRank(color: Color, ghost base: set<Position>)
      requires pieces == StartRestricted(base)
      requires forall p :: p in base ==> p.rank != BackRank(color)
      modifies this
      ensures pieces == StartRestricted(base + BackRankPlaced(BackRank(color), |BackRankOrder|))
    {
      var rank := BackRank(color);
      ghost var placed := base;
      assert placed == base + BackRankPlaced(rank, 0);
      for i := 0 to |BackRankOrder|
        invariant placed == base + BackRankPlaced(rank, i)
        invariant pieces == StartRestricted(placed)
      {
        var kind, file := BackRankOrder[i].0, BackRankOrder[i].1;
        BackRankStep(color, i);
        AddStartPiece(Piece(kind, color), Position(file, rank), placed);
        placed := placed + {Position(file, rank)};
      }
    }

    /** One side's half of `initializePieces()`: its pawns, then its other
        pieces. */
    method PlaceSide(color: Color, ghost base: set<Position>)
      requires pieces == StartRestricted(base)
      requires forall p :: p in base ==> p.rank != PawnRank(color) && p.rank != BackRank(color)
      modifies this
      ensures pieces == StartRestricted(base + HomeSquares(color))
    {
      PlacePawns(color, base);
      BackRankLayout(color);
      PlaceBackRank(color, base + RowSquares(PawnRank(color), Size));
      HomeSquaresSplit(color);
      assert base + RowSquares(PawnRank(color), Size) + BackRankPlaced(BackRank(color), |BackRankOrder|)
          == base + HomeSquares(color);
    }

    /** `initializePieces()`: clears the board, then places black's side and
        then white's. None of the thirty adds throws. */
    method InitializePieces()
      modifies this
      ensures pieces == StartPosition()
      ensures Valid()
    {
      pieces := map[];
      assert pieces == StartRestricted({});
      PlaceSide(Black, {});
      forall p | p in HomeSquares(Black) ensures p.rank != PawnRank(White) && p.rank != BackRank(White) {
        StartSides(p);
      }
      PlaceSide(White, HomeSquares(Black));
      assert {} + HomeSquares(Black) == HomeSquares(Black);
      StartComplete(HomeSquares(Black) + HomeSquares(White));
      StartIsWellFormed();
    }

    /** `allScore()`: "white: W" and "black: B" on two lines, W and B each
        colour's score in decimal. */
    function AllScore(): (text: string)
      reads this
      ensures text == "white: " + Scoring.NatToString(Scoring.ScoreFor(pieces, White))
                      + "\nblack: " + Scoring.NatToString(Scoring.ScoreFor(pieces, Black))
    {
      Scoring.AllScore(pieces)
    }

    /** `score(for:)`: the sum of the scores of one colour's pieces. */
    function ScoreFor(color: Color): (s: nat)
      reads this
      ensures s == Scoring.ReduceScore(Scoring.FilterColor(pieces, color))
    {
      Scoring.ScoreForIsReduce(pieces, color);
      Scoring.ScoreFor(pieces, color)
    }

    /** `display()`: appends each rank's glyphs file by file, and a line break
        after every rank but the last. */
    method Display() returns (text: string)
      ensures text == Rendering.Render(pieces)
      ensures Valid() ==> Rendering.ReadBoard(text) == pieces
    {
      text := "";
      ghost var whole := Rendering.Render(pieces);
      ghost var done := 0;
      for rank := 1 to Size + 1
        invariant done == (rank - 1) * Rendering.Stride
        invariant rank <= Size ==> text == whole[..done]
        invariant rank == Size + 1 ==> text == whole
      {
        for file := 1 to Size + 1
          invariant text == whole[..done + (file - 1)]
        {
          var square := Position(file, rank);
          Rendering.RenderAt(pieces, square);
          assert whole[..done + file] == whole[..done + (file - 1)] + [whole[done + (file - 1)]];
          text := text + [if square in pieces then Symbol(pieces[square]) else '.'];
        }
        if rank < Size {
          Rendering.RenderNewline(pieces, rank);
          assert whole[..done + Size + 1] == whole[..done + Size] + [whole[done + Size]];
          text := text + "\n";
        } else {
          assert whole[..done + Size] == whole;
        }
        done := done + Rendering.Stride;
      }
      DisplayReadsBack(pieces);
    }
  }
}
