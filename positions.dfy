/** Board coordinates of the chess toy: an integer (file, rank) pair, 1-indexed
    against the edge of a square board, with componentwise addition, a bounds
    test, the eight unit directions and a rank-major ordering. */
module Positions {

  datatype Position = Position(file: int, rank: int)

  /** Componentwise sum: applies a relative offset to a coordinate. */
  function Add(lhs: Position, rhs: Position): (r: Position)
  {
    Position(lhs.file + rhs.file, lhs.rank + rhs.rank)
  }

  const Origin: Position := Position(0, 0)

  // The unit directions. "Up" lowers the rank: rank 1 is the top row.
  const Up: Position := Position(0, -1)
  const Down: Position := Position(0, 1)
  const Left: Position := Position(-1, 0)
  const Right: Position := Position(1, 0)
  const LeftUp: Position := Add(Left, Up)
  const LeftDown: Position := Add(Left, Down)
  const RightUp: Position := Add(Right, Up)
  const RightDown: Position := Add(Right, Down)

  /** Swift's `lo...hi ~= x`; building the range traps when hi < lo. */
  predicate InClosedRange(lo: int, hi: int, x: int)
    requires lo <= hi
  {
    lo <= x && x <= hi
  }

  predicate IsInBoard(p: Position, boardSize: int)
    requires boardSize >= 1
  {
    InClosedRange(1, boardSize, p.file) && InClosedRange(1, boardSize, p.rank)
  }

  /** Every square of a board of the given size, as a set. */
  function Squares(boardSize: int): (s: set<Position>)
    requires boardSize >= 1
    ensures forall p :: p in s <==> 1 <= p.file <= boardSize && 1 <= p.rank <= boardSize
  {
    set f, r | 1 <= f <= boardSize && 1 <= r <= boardSize :: Position(f, r)
  }

  /** The squares of one row, files 1 through n. */
  function RowSquares(rank: int, n: nat): (s: set<Position>)
    ensures forall p :: p in s <==> 1 <= p.file <= n && p.rank == rank
  {
    set f | 1 <= f <= n :: Position(f, rank)
  }

  lemma {:induction false} RowSquaresCount(rank: int, n: nat)
    ensures |RowSquares(rank, n)| == n
  {
    if n > 0 {
      RowSquaresCount(rank, n - 1);
      RowSquaresExtend(rank, n - 1);
    }
  }

  /** A row one square longer has one more square, at its end. */
  lemma RowSquaresExtend(rank: int, n: nat)
    ensures RowSquares(rank, n + 1) == RowSquares(rank, n) + {Position(n + 1, rank)}
    ensures Position(n + 1, rank) !in RowSquares(rank, n)
  {}

  /** The squares of the first `rows` rows of a board of width n. */
  function TopRows(rows: nat, n: nat): (s: set<Position>)
    ensures forall p :: p in s <==> 1 <= p.file <= n && 1 <= p.rank <= rows
  {
    set f, r | 1 <= f <= n && 1 <= r <= rows :: Position(f, r)
  }

  lemma {:induction false} TopRowsCount(rows: nat, n: nat)
    ensures |TopRows(rows, n)| == rows * n
  {
    if rows > 0 {
      TopRowsCount(rows - 1, n);
      RowSquaresCount(rows, n);
      TopRowsExtend(rows, n);
      var above, row := TopRows(rows - 1, n), RowSquares(rows, n);
      assert |TopRows(rows, n)| == |above| + |row|;
      assert rows * n == (rows - 1) * n + n;
    }
  }

  /** Row `rows` adds its squares to the rows above it, none of which were
      there before. */
  lemma TopRowsExtend(rows: nat, n: nat)
    requires rows >= 1
    ensures TopRows(rows, n) == TopRows(rows - 1, n) + RowSquares(rows, n)
    ensures TopRows(rows - 1, n) * RowSquares(rows, n) == {}
  {
    forall p | p in RowSquares(rows, n) ensures p !in TopRows(rows - 1, n) {}
  }

  /** The bounds test accepts exactly the squares of the board, and there are
      boardSize * boardSize of them. */
  lemma InBoardIffSquare(p: Position, boardSize: int)
    requires boardSize >= 1
    ensures IsInBoard(p, boardSize) <==> p in Squares(boardSize)
    ensures IsInBoard(p, boardSize) <==> 1 <= p.file <= boardSize && 1 <= p.rank <= boardSize
    ensures |Squares(boardSize)| == boardSize * boardSize
  {
    TopRowsCount(boardSize, boardSize);
    assert Squares(boardSize) == TopRows(boardSize, boardSize);
  }

  /** `<`: rank first, then file. */
  predicate Less(lhs: Position, rhs: Position)
  {
    if lhs.rank == rhs.rank then lhs.file < rhs.file else lhs.rank < rhs.rank
  }

  lemma LessIsStrictTotalOrder(a: Position, b: Position, c: Position)
    ensures !Less(a, a)
    ensures Less(a, b) ==> !Less(b, a)
    ensures Less(a, b) && Less(b, c) ==> Less(a, c)
    ensures a != b ==> Less(a, b) || Less(b, a)
  {}

  /** Position of a square when the board is read row by row from rank 1,
      each row from file 1. */
  function RowMajorIndex(p: Position, boardSize: int): int
  {
    (p.rank - 1) * boardSize + (p.file - 1)
  }

  /** On the board, `<` is exactly the order in which a row-by-row scan
      meets the squares. */
  lemma LessIsRowMajor(a: Position, b: Position, boardSize: int)
    requires boardSize >= 1
    requires IsInBoard(a, boardSize) && IsInBoard(b, boardSize)
    ensures Less(a, b) <==> RowMajorIndex(a, boardSize) < RowMajorIndex(b, boardSize)
  {
    if a.rank < b.rank {
      calc {
        RowMajorIndex(a, boardSize);
        < (a.rank - 1) * boardSize + boardSize;
        == a.rank * boardSize;
        <= { MultiplyMonotone(a.rank, b.rank - 1, boardSize); }
        (b.rank - 1) * boardSize;
        <= RowMajorIndex(b, boardSize);
      }
    } else if b.rank < a.rank {
      calc {
        RowMajorIndex(b, boardSize);
        < b.rank * boardSize;
        <= { MultiplyMonotone(b.rank, a.rank - 1, boardSize); }
        (a.rank - 1) * boardSize;
        <= RowMajorIndex(a, boardSize);
      }
    }
  }

  lemma MultiplyMonotone(x: int, y: int, k: nat)
    requires x <= y
    ensures x * k <= y * k
  {}

  /** ASCII upper-casing: only 'a' through 'z' change. */
  function UppercasedAscii(c: char): (u: char)
  {
    if 'a' <= c <= 'z' then (c as int - 32) as char else c
  }

  /** The file of a letter: the first UTF-8 byte of the upper-cased letter
      minus 64, so 'A' is 1. The byte subtraction traps below '@', and only
      ASCII is modelled. */
  function FileOfLetter(c: char): (f: int)
    requires '@' <= c && (c as int) < 128
    ensures 'A' <= c <= 'Z' ==> f == c as int - 'A' as int + 1
    ensures 'a' <= c <= 'z' ==> f == c as int - 'a' as int + 1
    ensures f >= 0
  {
    UppercasedAscii(c) as int - 64
  }

  /** The `init(file: Character, rank:)` constructor. */
  function PositionOfLetter(file: char, rank: int): (p: Position)
    requires '@' <= file && (file as int) < 128
    ensures p.rank == rank
  {
    Position(FileOfLetter(file), rank)
  }

  /** 'A' through 'H' name files 1 through 8, either case names the same file,
      and a letter names an in-board file of the 8x8 board exactly when it is
      one of 'A'..'H' or 'a'..'h'. */
  lemma LetterFiles(upper: char, rank: int)
    requires 'A' <= upper <= 'Z'
    ensures var lower := (upper as int + 32) as char;
      && PositionOfLetter(lower, rank) == PositionOfLetter(upper, rank)
      && (PositionOfLetter(upper, rank).file <= 8 <==> upper <= 'H')
      && PositionOfLetter(upper, rank).file >= 1
  {}
}
