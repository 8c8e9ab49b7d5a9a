/** What `add` checks and what it does to the board's square-to-piece map,
    stated on map values: the guards in order, the piece counts they test,
    and the invariant every add keeps. */
module Placement {
  import opened Positions
  import opened Pieces

  /** `Board.size`: the edge of the board. */
  const Size: int := 8

  /** The three errors `add` throws: the square is off the board, the square
      is taken, or the colour already has all its pieces of that kind. */
  datatype BoardError = InvalidPosition | PieceAlreadyThere | AlreadyAtMaxCount

  /** The result of a throwing call that returns nothing. */
  datatype Outcome = Pass | Fail(error: BoardError)

  /** How many squares hold this piece: same kind and same colour. */
  function Count(pieces: map<Position, Piece>, piece: Piece): (n: nat)
    ensures n <= |pieces|
  {
    var holders := set p | p in pieces && pieces[p] == piece;
    assert holders <= pieces.Keys;
    SubsetCardinality(holders, pieces.Keys);
    |holders|
  }

  lemma SubsetCardinality<T>(a: set<T>, b: set<T>)
    requires a <= b
    ensures |a| <= |b|
  {
    assert b == a + (b - a);
  }

  /** A proper subset is strictly smaller. */
  lemma ProperSubsetCardinality<T>(a: set<T>, b: set<T>, x: T)
    requires a <= b && x in b && x !in a
    ensures |a| < |b|
  {
    SubsetCardinality(a, b - {x});
  }

  /** Putting a piece on an empty square adds one to its own count only. */
  lemma CountInsert(pieces: map<Position, Piece>, position: Position, piece: Piece, other: Piece)
    requires position !in pieces
    ensures Count(pieces[position := piece], other)
         == Count(pieces, other) + (if other == piece then 1 else 0)
  {
    var before := set p | p in pieces && pieces[p] == other;
    var placed := pieces[position := piece];
    var after := set p | p in placed && placed[p] == other;
    if other == piece {
      assert after == before + {position};
    } else {
      assert after == before;
    }
  }

  /** The board invariant: every occupied square is on the board, and no
      colour has more pieces of a kind than that kind's maximum. */
  ghost predicate WellFormed(pieces: map<Position, Piece>)
  {
    && (forall p :: p in pieces ==> IsInBoard(p, Size))
    && (forall piece: Piece :: Count(pieces, piece) <= MaxCount(piece.kind))
  }

  /** The guards of `add`, in the order they are checked. */
  function AddCheck(pieces: map<Position, Piece>, piece: Piece, position: Position): (r: Outcome)
    ensures r == Fail(InvalidPosition) <==> !IsInBoard(position, Size)
    ensures r == Fail(PieceAlreadyThere) <==> IsInBoard(position, Size) && position in pieces
    ensures r == Fail(AlreadyAtMaxCount)
        <==> IsInBoard(position, Size) && position !in pieces && Count(pieces, piece) >= MaxCount(piece.kind)
    ensures r == Pass
        <==> IsInBoard(position, Size) && position !in pieces && Count(pieces, piece) < MaxCount(piece.kind)
  {
    if !IsInBoard(position, Size) then Fail(InvalidPosition)
    else if position in pieces then Fail(PieceAlreadyThere)
    else if Count(pieces, piece) >= MaxCount(piece.kind) then Fail(AlreadyAtMaxCount)
    else Pass
  }

  /** The board after `add`: the piece is placed when every guard passes and
      nothing changes otherwise. */
  function AfterAdd(pieces: map<Position, Piece>, piece: Piece, position: Position): map<Position, Piece>
  {
    if AddCheck(pieces, piece, position) == Pass then pieces[position := piece] else pieces
  }

  /** A successful add changes exactly the target square, and a failed one
      changes nothing. */
  lemma AddChangesOnlyTarget(pieces: map<Position, Piece>, piece: Piece, position: Position)
    ensures AddCheck(pieces, piece, position) == Pass ==>
      && AfterAdd(pieces, piece, position).Keys == pieces.Keys + {position}
      && AfterAdd(pieces, piece, position)[position] == piece
      && position !in pieces
    ensures forall p :: p != position ==>
      (p in AfterAdd(pieces, piece, position) <==> p in pieces)
    ensures forall p :: p != position && p in pieces ==>
      AfterAdd(pieces, piece, position)[p] == pieces[p]
    ensures AddCheck(pieces, piece, position) != Pass ==> AfterAdd(pieces, piece, position) == pieces
  {}

  /** Every add, successful or not, keeps the board invariant. */
  lemma AddPreservesWellFormed(pieces: map<Position, Piece>, piece: Piece, position: Position)
    requires WellFormed(pieces)
    ensures WellFormed(AfterAdd(pieces, piece, position))
  {
    if AddCheck(pieces, piece, position) == Pass {
      var after := pieces[position := piece];
      forall other: Piece ensures Count(after, other) <= MaxCount(other.kind) {
        CountInsert(pieces, position, piece, other);
      }
    }
  }
}
