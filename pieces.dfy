/** The five piece kinds of the chess toy (there is no King), their per-kind
    constants and move geometry, and the projection of a piece's paths onto
    the board. */
module Pieces {
  import opened Positions

  datatype Option<T> = None | Some(value: T)

  datatype Color = White | Black

  /** `PieceColor.allCases`, in declaration order. */
  const AllColors: seq<Color> := [White, Black]

  /** The concrete piece type; `type(of:)` compares exactly this tag. */
  datatype Kind = Pawn | Knight | Bishop | Rook | Queen


  datatype Piece = Piece(kind: Kind, color: Color)

  /** The material score of a kind. */
  function Score(kind: Kind): (s: nat)
    ensures 1 <= s <= 9
  {
    match kind
    case Pawn => 1
    case Knight => 3
    case Bishop => 3
    case Rook => 5
    case Queen => 9
  }

  /** How many pieces of a kind one colour may have on the board. */
  function MaxCount(kind: Kind): (n: nat)
    ensures 1 <= n <= 8
  {
    match kind
    case Pawn => 8
    case Knight => 2
    case Bishop => 2
    case Rook => 2
    case Queen => 1
  }

  /** The glyph a piece is drawn with. */
  function Symbol(piece: Piece): (c: char)
    ensures c != '.'
  {
    match (piece.kind, piece.color)
    case (Pawn, White) => '♙'
    case (Pawn, Black) => '♟'
    case (Knight, White) => '♘'
    case (Knight, Black) => '♞'
    case (Bishop, White) => '♗'
    case (Bishop, Black) => '♝'
    case (Rook, White) => '♖'
    case (Rook, Black) => '♜'
    case (Queen, White) => '♕'
    case (Queen, Black) => '♛'
  }

  /** Reads a glyph back: the inverse of Symbol. */
  function PieceOfSymbol(c: char): (r: Option<Piece>)
    ensures r.Some? ==> Symbol(r.value) == c
  {
    match c
    case '♙' => Some(Piece(Pawn, White))
    case '♟' => Some(Piece(Pawn, Black))
    case '♘' => Some(Piece(Knight, White))
    case '♞' => Some(Piece(Knight, Black))
    case '♗' => Some(Piece(Bishop, White))
    case '♝' => Some(Piece(Bishop, Black))
    case '♖' => Some(Piece(Rook, White))
    case '♜' => Some(Piece(Rook, Black))
    case '♕' => Some(Piece(Queen, White))
    case '♛' => Some(Piece(Queen, Black))
    case _ => None
  }

  /** Each of the ten pieces has its own glyph, so a glyph names its piece. */
  lemma SymbolRoundTrip(piece: Piece)
    ensures PieceOfSymbol(Symbol(piece)) == Some(piece)
  {}

  lemma SymbolsDistinct(p: Piece, q: Piece)
    ensures Symbol(p) == Symbol(q) <==> p == q
  {
    if Symbol(p) == Symbol(q) {
      SymbolRoundTrip(p);
      SymbolRoundTrip(q);
    }
  }

  function PawnPaths(color: Color): seq<seq<Position>>
  {
    match color
    case White => [[Up]]
    case Black => [[Down]]
  }

  function KnightPaths(): seq<seq<Position>>
  {
    [
      [Up, LeftUp],
      [Up, RightUp],
      [Right, RightUp],
      [Right, RightDown],
      [Down, RightDown],
      [Down, LeftDown],
      [Left, LeftUp],
      [Left, LeftDown]
    ]
  }

  function BishopPaths(): seq<seq<Position>>
  {
    [
      [RightDown],
      [RightDown, RightDown],
      [RightDown, RightDown, RightDown],
      [RightDown, RightDown, RightDown, RightDown],
      [RightDown, RightDown, RightDown, RightDown, RightDown],
      [RightDown, RightDown, RightDown, RightDown, RightDown, RightDown],
      [RightDown, RightDown, RightDown, RightDown, RightDown, RightDown, RightDown],
      [RightUp],
      [RightUp, RightUp],
      [RightUp, RightUp, RightUp],
      [RightUp, RightUp, RightUp, RightUp],
      [RightUp, RightUp, RightUp, RightUp, RightUp],
      [RightUp, RightUp, RightUp, RightUp, RightUp, RightUp],
      [RightUp, RightUp, RightUp, RightUp, RightUp, RightUp, RightUp],
      [LeftDown],
      [LeftDown, LeftDown],
      [LeftDown, LeftDown, LeftDown],
      [LeftDown, LeftDown, LeftDown, LeftDown],
      [LeftDown, LeftDown, LeftDown, LeftDown, LeftDown],
      [LeftDown, LeftDown, LeftDown, LeftDown, LeftDown, LeftDown],
      [LeftDown, LeftDown, LeftDown, LeftDown, LeftDown, LeftDown, LeftDown],
      [LeftUp],
      [LeftUp, LeftUp],
      [LeftUp, LeftUp, LeftUp],
      [LeftUp, LeftUp, LeftUp, LeftUp],
      [LeftUp, LeftUp, LeftUp, LeftUp, LeftUp],
      [LeftUp, LeftUp, LeftUp, LeftUp, LeftUp, LeftUp],
      [LeftUp, LeftUp, LeftUp, LeftUp, LeftUp, LeftUp, LeftUp]
    ]
  }

  function RookPaths(): seq<seq<Position>>
  {
    [
      [Up],
      [Up, Up],
      [Up, Up, Up],
      [Up, Up, Up, Up],
      [Up, Up, Up, Up, Up],
      [Up, Up, Up, Up, Up, Up],
      [Up, Up, Up, Up, Up, Up, Up],
      [Right],
      [Right, Right],
      [Right, Right, Right],
      [Right, Right, Right, Right],
      [Right, Right, Right, Right, Right],
      [Right, Right, Right, Right, Right, Right],
      [Right, Right, Right, Right, Right, Right, Right],
      [Down],
      [Down, Down],
      [Down, Down, Down],
      [Down, Down, Down, Down],
      [Down, Down, Down, Down, Down],
      [Down, Down, Down, Down, Down, Down],
      [Down, Down, Down, Down, Down, Down, Down],
      [Left],
      [Left, Left],
      [Left, Left, Left],
      [Left, Left, Left, Left],
      [Left, Left, Left, Left, Left],
      [Left, Left, Left, Left, Left, Left],
      [Left, Left, Left, Left, Left, Left, Left]
    ]
  }

  /** The paths of a piece: the relative offsets of each candidate move, in
      the order they are tried. A Queen has a Bishop's paths followed by a
      Rook's. */
  function Paths(piece: Piece): seq<seq<Position>>
    decreases if piece.kind == Queen then 1 else 0
  {
    match piece.kind
    case Pawn => PawnPaths(piece.color)
    case Knight => KnightPaths()
    case Bishop => BishopPaths()
    case Rook => RookPaths()
    case Queen => Paths(Piece(Bishop, piece.color)) + Paths(Piece(Rook, piece.color))
  }

  /** `path.reduce(origin, +)`: the offsets applied one after another. */
  function Reduce(origin: Position, path: seq<Position>): Position
    decreases |path|
  {
    if path == [] then origin else Reduce(Add(origin, path[0]), path[1..])
  }

  /** The componentwise total of a path's offsets. */
  function Displacement(path: seq<Position>): Position
    decreases |path|
  {
    if path == [] then Origin else Add(path[0], Displacement(path[1..]))
  }

  /** Folding a path onto an origin lands on origin + the path's total. */
  lemma {:induction false} ReduceIsDisplacement(origin: Position, path: seq<Position>)
    ensures Reduce(origin, path) == Add(origin, Displacement(path))
    decreases |path|
  {
    if path != [] {
      ReduceIsDisplacement(Add(origin, path[0]), path[1..]);
    }
  }

  lemma {:induction false} DisplacementAppend(p: seq<Position>, q: seq<Position>)
    ensures Displacement(p + q) == Add(Displacement(p), Displacement(q))
    decreases |p|
  {
    if p == [] {
      assert p + q == q;
    } else {
      assert (p + q)[1..] == p[1..] + q;
      DisplacementAppend(p[1..], q);
    }
  }

  /** Removing the offset at index i takes it out of the total. */
  lemma DisplacementWithout(p: seq<Position>, i: nat)
    requires i < |p|
    ensures Displacement(p) == Add(p[i], Displacement(p[..i] + p[i + 1..]))
  {
    assert p == p[..i] + ([p[i]] + p[i + 1..]);
    DisplacementAppend(p[..i], [p[i]] + p[i + 1..]);
    assert ([p[i]] + p[i + 1..])[1..] == p[i + 1..];
    DisplacementAppend(p[..i], p[i + 1..]);
  }

  /** The landing square does not depend on the order of a path's offsets. */
  lemma {:induction false} ReduceIgnoresOrder(origin: Position, p: seq<Position>, q: seq<Position>)
    requires multiset(p) == multiset(q)
    ensures Reduce(origin, p) == Reduce(origin, q)
  {
    ReduceIsDisplacement(origin, p);
    ReduceIsDisplacement(origin, q);
    DisplacementIgnoresOrder(p, q);
  }

  lemma {:induction false} DisplacementIgnoresOrder(p: seq<Position>, q: seq<Position>)
    requires multiset(p) == multiset(q)
    ensures Displacement(p) == Displacement(q)
    decreases |p|
  {
    if p != [] {
      assert p[0] in multiset(q);
      var i :| 0 <= i < |q| && q[i] == p[0];
      var rest := q[..i] + q[i + 1..];
      assert q == q[..i] + [q[i]] + q[i + 1..];
      assert p == [p[0]] + p[1..];
      assert multiset(q) == multiset(q[..i]) + multiset([q[i]]) + multiset(q[i + 1..]);
      assert multiset(rest) == multiset(q[..i]) + multiset(q[i + 1..]);
      assert multiset(p) == multiset([p[0]]) + multiset(p[1..]);
      assert multiset(p[1..]) == multiset(p) - multiset([p[0]]);
      assert multiset(rest) == multiset(q) - multiset([q[i]]);
      DisplacementIgnoresOrder(p[1..], rest);
      DisplacementWithout(q, i);
    }
  }

  /** A candidate move: the path taken and the square it ends on. */
  datatype Available = Available(path: seq<Position>, finalPosition: Position)

  /** Each path paired with its landing square (the `map` step). */
  function Candidates(paths: seq<seq<Position>>, origin: Position): (r: seq<Available>)
  {
    seq(|paths|, i requires 0 <= i < |paths| => Available(paths[i], Reduce(origin, paths[i])))
  }

  /** The `filter` step: keeps, in order, the candidates that land on the board. */
  function KeepInBoard(candidates: seq<Available>, boardSize: int): (r: seq<Available>)
    requires boardSize >= 1
    ensures |r| <= |candidates|
    ensures forall a :: a in r <==> a in candidates && IsInBoard(a.finalPosition, boardSize)
  {
    if candidates == [] then []
    else
      var rest := KeepInBoard(candidates[1..], boardSize);
      if IsInBoard(candidates[0].finalPosition, boardSize) then [candidates[0]] + rest else rest
  }

  /** The filter distributes over concatenation: it keeps relative order. */
  lemma {:induction false} KeepInBoardAppend(a: seq<Available>, b: seq<Available>, boardSize: int)
    requires boardSize >= 1
    ensures KeepInBoard(a + b, boardSize) == KeepInBoard(a, boardSize) + KeepInBoard(b, boardSize)
    decreases |a|
  {
    if a == [] {
      assert a + b == b;
    } else {
      assert (a + b)[1..] == a[1..] + b;
      KeepInBoardAppend(a[1..], b, boardSize);
    }
  }

  /** One candidate is kept exactly when it lands on the board; with
      KeepInBoardAppend this makes KeepInBoard the order-preserving filter. */
  lemma KeepInBoardOne(c: Available, boardSize: int)
    requires boardSize >= 1
    ensures KeepInBoard([c], boardSize) == if IsInBoard(c.finalPosition, boardSize) then [c] else []
  {
    assert [c][1..] == [];
  }

  /** `availables(for:boardSize:)`. */
  function Availables(piece: Piece, origin: Position, boardSize: int): (r: seq<Available>)
    requires boardSize >= 1
    ensures forall a :: a in r ==> IsInBoard(a.finalPosition, boardSize) && a.path in Paths(piece)
  {
    KeepInBoard(Candidates(Paths(piece), origin), boardSize)
  }

  /** A pair is available exactly when it is one of the piece's paths with
      the square origin + (the path's total), and that square is on the board. */
  lemma AvailablesExactly(piece: Piece, origin: Position, boardSize: int, a: Available)
    requires boardSize >= 1
    ensures a in Availables(piece, origin, boardSize)
      <==> && a.path in Paths(piece)
           && a.finalPosition == Add(origin, Displacement(a.path))
           && IsInBoard(a.finalPosition, boardSize)
  {
    var paths := Paths(piece);
    var cs := Candidates(paths, origin);
    if a in cs {
      var i :| 0 <= i < |cs| && cs[i] == a;
      ReduceIsDisplacement(origin, paths[i]);
    }
    if a.path in paths && a.finalPosition == Add(origin, Displacement(a.path)) {
      var i :| 0 <= i < |paths| && paths[i] == a.path;
      ReduceIsDisplacement(origin, paths[i]);
      assert cs[i] == a;
    }
  }

  lemma CandidatesAppend(p: seq<seq<Position>>, q: seq<seq<Position>>, origin: Position)
    ensures Candidates(p + q, origin) == Candidates(p, origin) + Candidates(q, origin)
  {}

  /** A Queen's candidate moves are a Bishop's followed by a Rook's. */
  lemma QueenAvailables(color: Color, origin: Position, boardSize: int)
    requires boardSize >= 1
    ensures Availables(Piece(Queen, color), origin, boardSize)
         == Availables(Piece(Bishop, color), origin, boardSize)
          + Availables(Piece(Rook, color), origin, boardSize)
  {
    CandidatesAppend(BishopPaths(), RookPaths(), origin);
    KeepInBoardAppend(Candidates(BishopPaths(), origin), Candidates(RookPaths(), origin), boardSize);
  }
}
