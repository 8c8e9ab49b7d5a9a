/** Facts about the fixed path tables of the piece kinds. */
module Geometry {
  import opened Positions
  import opened Pieces

  /** k copies of one unit direction: "slide k squares". */
  function Repeat(d: Position, k: nat): (r: seq<Position>)
    ensures |r| == k && forall i :: 0 <= i < k ==> r[i] == d
  {
    seq(k, _ => d)
  }

  /** For one direction, the slides of length 1 through n, shortest first. */
  function Rays(d: Position, n: nat): (r: seq<seq<Position>>)
    ensures |r| == n && forall k :: 0 <= k < n ==> r[k] == Repeat(d, k + 1)
  {
    seq(n, k requires 0 <= k < n => Repeat(d, k + 1))
  }

  const BishopDirections: seq<Position> := [RightDown, RightUp, LeftDown, LeftUp]
  const RookDirections: seq<Position> := [Up, Right, Down, Left]

  /** The longest slide in the tables: one less than the 8-square edge. */
  const LongestSlide: nat := 7

  /** The slides of 1 through 7 squares for each of four directions in turn,
      shortest first. */
  function FourRays(dirs: seq<Position>): (r: seq<seq<Position>>)
    requires |dirs| == 4
  {
    Rays(dirs[0], LongestSlide) + Rays(dirs[1], LongestSlide)
      + Rays(dirs[2], LongestSlide) + Rays(dirs[3], LongestSlide)
  }

  /** Entry 7d + k of the four-direction layout is the slide of k + 1
      squares in the d-th direction. */
  lemma FourRaysAt(dirs: seq<Position>, d: nat, k: nat)
    requires |dirs| == 4 && d < 4 && k < LongestSlide
    ensures |FourRays(dirs)| == 28
    ensures FourRays(dirs)[7 * d + k] == Repeat(dirs[d], k + 1)
  {
    var r0, r1, r2, r3 := Rays(dirs[0], 7), Rays(dirs[1], 7), Rays(dirs[2], 7), Rays(dirs[3], 7);
    assert FourRays(dirs) == r0 + r1 + r2 + r3;
    if d == 0 {
      assert (r0 + r1 + r2 + r3)[k] == r0[k];
    } else if d == 1 {
      assert (r0 + r1 + r2 + r3)[7 + k] == r1[k];
    } else if d == 2 {
      assert (r0 + r1 + r2 + r3)[14 + k] == r2[k];
    } else {
      assert (r0 + r1 + r2 + r3)[21 + k] == r3[k];
    }
  }

  /** A Bishop's and a Rook's 28 paths: for each of the four unit directions
      in turn, the slides of 1 through 7 squares, shortest first. A Queen has
      the 28 of a Bishop followed by the 28 of a Rook. */
  lemma SlidingLayout(color: Color, d: nat, k: nat)
    requires d < 4 && k < LongestSlide
    ensures |Paths(Piece(Bishop, color))| == 28 && |Paths(Piece(Rook, color))| == 28
    ensures Paths(Piece(Bishop, color))[7 * d + k] == Repeat(BishopDirections[d], k + 1)
    ensures Paths(Piece(Rook, color))[7 * d + k] == Repeat(RookDirections[d], k + 1)
    ensures |Paths(Piece(Queen, color))| == 56
    ensures Paths(Piece(Queen, color))[7 * d + k] == Paths(Piece(Bishop, color))[7 * d + k]
    ensures Paths(Piece(Queen, color))[28 + 7 * d + k] == Paths(Piece(Rook, color))[7 * d + k]
  {
    BishopRays();
    RookRays();
    FourRaysAt(BishopDirections, d, k);
    FourRaysAt(RookDirections, d, k);
  }

  /** The slides of 1 through 7 squares in direction d, spelled out as the
      tables write them. */
  function SlideBlock(d: Position): seq<seq<Position>>
  {
    [[d], [d, d], [d, d, d], [d, d, d, d], [d, d, d, d, d], [d, d, d, d, d, d],
     [d, d, d, d, d, d, d]]
  }

  lemma SlideBlockIsRays(d: Position)
    ensures SlideBlock(d) == Rays(d, 7)
  {
    var t, r := SlideBlock(d), Rays(d, 7);
    forall i | 0 <= i < 7 ensures t[i] == r[i] {
      assert |t[i]| == |r[i]|;
    }
  }

  lemma RookRays()
    ensures RookPaths() == FourRays(RookDirections)
  {
    assert RookPaths() == SlideBlock(Up) + SlideBlock(Right) + SlideBlock(Down) + SlideBlock(Left);
    SlideBlockIsRays(Up);
    SlideBlockIsRays(Right);
    SlideBlockIsRays(Down);
    SlideBlockIsRays(Left);
  }

  lemma BishopRays()
    ensures BishopPaths() == FourRays(BishopDirections)
  {
    assert BishopPaths() == SlideBlock(RightDown) + SlideBlock(RightUp) + SlideBlock(LeftDown) + SlideBlock(LeftUp);
    SlideBlockIsRays(RightDown);
    SlideBlockIsRays(RightUp);
    SlideBlockIsRays(LeftDown);
    SlideBlockIsRays(LeftUp);
  }

  function Abs(x: int): nat
  {
    if x < 0 then -x else x
  }

  /** An L-shaped jump: two squares one way and one square the other. */
  predicate IsKnightJump(o: Position)
  {
    (Abs(o.file) == 1 && Abs(o.rank) == 2) || (Abs(o.file) == 2 && Abs(o.rank) == 1)
  }

  /** The totals of the Knight's paths, in table order. */
  const KnightOffsets: seq<Position> :=
    [Position(-1, -2), Position(1, -2), Position(2, -1), Position(2, 1),
     Position(1, 2), Position(-1, 2), Position(-2, -1), Position(-2, 1)]

  lemma DisplacementOfPair(a: Position, b: Position)
    ensures Displacement([a, b]) == Add(a, b)
  {
    assert [a, b][1..] == [b];
    assert [b][1..] == [];
    assert Displacement([b]) == Add(b, Displacement([]));
    assert Displacement([a, b]) == Add(a, Displacement([b]));
  }

  lemma KnightPathTotal(i: nat)
    requires i < 8
    ensures |KnightPaths()| == 8 && |KnightPaths()[i]| == 2
    ensures Displacement(KnightPaths()[i]) == KnightOffsets[i]
  {
    if i == 0 {
      DisplacementOfPair(Up, LeftUp);
    } else if i == 1 {
      DisplacementOfPair(Up, RightUp);
    } else if i == 2 {
      DisplacementOfPair(Right, RightUp);
    } else if i == 3 {
      DisplacementOfPair(Right, RightDown);
    } else if i == 4 {
      DisplacementOfPair(Down, RightDown);
    } else if i == 5 {
      DisplacementOfPair(Down, LeftDown);
    } else if i == 6 {
      DisplacementOfPair(Left, LeftUp);
    } else {
      DisplacementOfPair(Left, LeftDown);
    }
  }

  lemma KnightOffsetsAreTheJumps()
    ensures forall i, j :: 0 <= i < j < 8 ==> KnightOffsets[i] != KnightOffsets[j]
    ensures forall o :: IsKnightJump(o) <==> o in KnightOffsets
  {
    forall o | IsKnightJump(o) ensures o in KnightOffsets {
      assert o.file in {-2, -1, 1, 2} && o.rank in {-2, -1, 1, 2};
    }
  }

  /** The Knight's eight two-step paths total the eight L-shaped jumps, one each. */
  lemma KnightJumps()
    ensures |KnightPaths()| == 8
    ensures forall i :: 0 <= i < 8 ==> |KnightPaths()[i]| == 2
    ensures forall i, j :: 0 <= i < j < 8 ==> Displacement(KnightPaths()[i]) != Displacement(KnightPaths()[j])
    ensures forall o :: IsKnightJump(o) <==> exists i :: 0 <= i < 8 && Displacement(KnightPaths()[i]) == o
  {
    forall i | 0 <= i < 8 ensures |KnightPaths()[i]| == 2 && Displacement(KnightPaths()[i]) == KnightOffsets[i] {
      KnightPathTotal(i);
    }
    KnightOffsetsAreTheJumps();
  }

  /** A pawn steps one rank, towards rank 1 if white and towards rank 8 if
      black, and has no move when that rank is off the board. */
  lemma PawnStep(color: Color, origin: Position)
    ensures var step := if color == White then Up else Down;
      var target := Add(origin, step);
      Availables(Piece(Pawn, color), origin, 8)
        == if IsInBoard(target, 8) then [Available([step], target)] else []
  {
    var step := if color == White then Up else Down;
    assert Reduce(origin, [step]) == Add(origin, step);
  }

  /** A Knight at (2, 2) on the 8x8 board lands on (4, 1), (4, 3), (3, 4)
      and (1, 4); its other four jumps leave the board. */
  lemma KnightFromB2(color: Color)
    ensures Availables(Piece(Knight, color), Position(2, 2), 8)
         == [ Available([Right, RightUp], Position(4, 1)),
              Available([Right, RightDown], Position(4, 3)),
              Available([Down, RightDown], Position(3, 4)),
              Available([Down, LeftDown], Position(1, 4)) ]
  {
    var cs := Candidates(KnightPaths(), Position(2, 2));
    var kept := [false, false, true, true, true, true, false, false];
    KnightLandingsFromB2();
    KeepInBoardByPattern(cs, kept, 8);
    KeptMiddleFour(cs);
    KnightMiddlePaths();
  }

  lemma KnightMiddlePaths()
    ensures |KnightPaths()| == 8
    ensures KnightPaths()[2] == [Right, RightUp] && KnightPaths()[3] == [Right, RightDown]
    ensures KnightPaths()[4] == [Down, RightDown] && KnightPaths()[5] == [Down, LeftDown]
  {}

  /** Which of the Knight's eight paths from (2, 2) end on the 8x8 board. */
  lemma KnightLandingsFromB2()
    ensures var cs := Candidates(KnightPaths(), Position(2, 2));
      var kept := [false, false, true, true, true, true, false, false];
      && |cs| == 8
      && (forall i :: 0 <= i < 8 ==> cs[i].finalPosition == Add(Position(2, 2), KnightOffsets[i]))
      && (forall i :: 0 <= i < 8 ==> IsInBoard(cs[i].finalPosition, 8) == kept[i])
  {
    var paths := KnightPaths();
    var cs := Candidates(paths, Position(2, 2));
    forall i | 0 <= i < 8 ensures cs[i].finalPosition == Add(Position(2, 2), KnightOffsets[i]) {
      ReduceIsDisplacement(Position(2, 2), paths[i]);
      KnightPathTotal(i);
    }
  }

  lemma KeptMiddleFour(cs: seq<Available>)
    requires |cs| == 8
    ensures Kept(cs, [false, false, true, true, true, true, false, false]) == [cs[2], cs[3], cs[4], cs[5]]
  {
    var kept := [false, false, true, true, true, true, false, false];
    KeptSplit(cs, kept, 2);
    KeptSplit(cs[2..], kept[2..], 4);
    KeptRun(cs[..2], kept[..2], false);
    KeptRun(cs[2..][..4], kept[2..][..4], true);
    KeptRun(cs[2..][4..], kept[2..][4..], false);
    assert cs[2..][..4] == [cs[2], cs[3], cs[4], cs[5]];
  }

  lemma {:induction false} KeptSplit(cs: seq<Available>, flags: seq<bool>, i: nat)
    requires |flags| == |cs| && i <= |cs|
    ensures Kept(cs, flags) == Kept(cs[..i], flags[..i]) + Kept(cs[i..], flags[i..])
    decreases i
  {
    if i > 0 {
      KeptSplit(cs[1..], flags[1..], i - 1);
      assert cs[..i][1..] == cs[1..][..i - 1] && flags[..i][1..] == flags[1..][..i - 1];
      assert cs[1..][i - 1..] == cs[i..] && flags[1..][i - 1..] == flags[i..];
    } else {
      assert cs[i..] == cs && flags[i..] == flags;
    }
  }

  /** With every flag equal to b, all candidates are kept or none are. */
  lemma {:induction false} KeptRun(cs: seq<Available>, flags: seq<bool>, b: bool)
    requires |flags| == |cs|
    requires forall i :: 0 <= i < |flags| ==> flags[i] == b
    ensures Kept(cs, flags) == if b then cs else []
    decreases |cs|
  {
    if cs != [] {
      KeptRun(cs[1..], flags[1..], b);
    }
  }

  /** The candidates whose flag is set, in order. */
  function Kept(cs: seq<Available>, flags: seq<bool>): seq<Available>
    requires |flags| == |cs|
  {
    if cs == [] then [] else (if flags[0] then [cs[0]] else []) + Kept(cs[1..], flags[1..])
  }

  lemma {:induction false} KeepInBoardByPattern(cs: seq<Available>, flags: seq<bool>, n: int)
    requires n >= 1 && |flags| == |cs|
    requires forall i :: 0 <= i < |cs| ==> IsInBoard(cs[i].finalPosition, n) == flags[i]
    ensures KeepInBoard(cs, n) == Kept(cs, flags)
    decreases |cs|
  {
    if cs != [] {
      KeepInBoardByPattern(cs[1..], flags[1..], n);
    }
  }

  /** m steps in direction d. */
  function Scale(d: Position, m: int): Position
  {
    Position(m * d.file, m * d.rank)
  }

  lemma {:induction false} DisplacementOfRepeat(d: Position, m: nat)
    ensures Displacement(Repeat(d, m)) == Scale(d, m)
    decreases m
  {
    if m > 0 {
      assert Repeat(d, m)[1..] == Repeat(d, m - 1);
      DisplacementOfRepeat(d, m - 1);
    }
  }

  /** A filter over candidates that land on the board for a first stretch and
      off it afterwards keeps exactly that first stretch. */
  lemma {:induction false} KeepInBoardPrefix(cs: seq<Available>, len: nat, n: int)
    requires n >= 1 && len <= |cs|
    requires forall i :: 0 <= i < len ==> IsInBoard(cs[i].finalPosition, n)
    requires forall i :: len <= i < |cs| ==> !IsInBoard(cs[i].finalPosition, n)
    ensures KeepInBoard(cs, n) == cs[..len]
    decreases |cs|
  {
    if cs != [] {
      var rest, shorter := cs[1..], if len == 0 then 0 else len - 1;
      forall i | 0 <= i < |rest| ensures rest[i] == cs[i + 1] {}
      KeepInBoardPrefix(rest, shorter, n);
      if len > 0 {
        assert cs[..len] == [cs[0]] + rest[..shorter];
      } else {
        assert !IsInBoard(cs[0].finalPosition, n);
      }
    }
  }

  /** The candidate a slide of k + 1 squares in the d-th direction gives. */
  lemma SlideCandidate(color: Color, origin: Position, d: nat, k: nat)
    requires d < 4 && k < 7
    ensures var cs := Candidates(Paths(Piece(Bishop, color)), origin);
      |cs| == 28 && cs[7 * d + k]
        == Available(Repeat(BishopDirections[d], k + 1), Add(origin, Scale(BishopDirections[d], k + 1)))
  {
    SlidingLayout(color, d, k);
    ReduceIsDisplacement(origin, Repeat(BishopDirections[d], k + 1));
    DisplacementOfRepeat(BishopDirections[d], k + 1);
  }

  /** The squares on the diagonals through (4, 4), without (4, 4) itself. */
  predicate OnDiagonalOfD4(p: Position)
  {
    Abs(p.file - 4) == Abs(p.rank - 4) && p.file != 4
  }

  /** How many slides of each diagonal from (4, 4) stay on the 8x8 board. */
  const RayLengthsFromD4: seq<nat> := [4, 3, 3, 3]

  lemma SlideFromD4InBoard(d: nat, k: nat)
    requires d < 4 && k < 7
    ensures IsInBoard(Add(Position(4, 4), Scale(BishopDirections[d], k + 1)), 8) <==> k < RayLengthsFromD4[d]
  {
    if d == 0 {
      assert BishopDirections[d] == Position(1, 1);
    } else if d == 1 {
      assert BishopDirections[d] == Position(1, -1);
    } else if d == 2 {
      assert BishopDirections[d] == Position(-1, 1);
    } else {
      assert BishopDirections[d] == Position(-1, -1);
    }
  }

  lemma BishopRayFromD4(color: Color, o: Position, d: nat)
    requires o == Position(4, 4) && d < 4
    ensures var cs := Candidates(Paths(Piece(Bishop, color)), o);
      |cs| == 28 && |KeepInBoard(cs[7 * d..7 * d + 7], 8)| == RayLengthsFromD4[d]
  {
    var cs := Candidates(Paths(Piece(Bishop, color)), o);
    SlidingLayout(color, d, 0);
    var ray := cs[7 * d..7 * d + 7];
    forall k | 0 <= k < 7
      ensures ray[k].finalPosition == Add(o, Scale(BishopDirections[d], k + 1))
      ensures IsInBoard(ray[k].finalPosition, 8) <==> k < RayLengthsFromD4[d]
    {
      SlideCandidate(color, o, d, k);
      SlideFromD4InBoard(d, k);
    }
    KeepInBoardPrefix(ray, RayLengthsFromD4[d], 8);
  }

  lemma BishopCountFromD4(color: Color, o: Position)
    requires o == Position(4, 4)
    ensures |Availables(Piece(Bishop, color), o, 8)| == 13
  {
    var cs := Candidates(Paths(Piece(Bishop, color)), o);
    BishopRayFromD4(color, o, 0);
    BishopRayFromD4(color, o, 1);
    BishopRayFromD4(color, o, 2);
    BishopRayFromD4(color, o, 3);
    SplitIntoRays(cs);
    KeepInBoardAppend(cs[0..7] + cs[7..14] + cs[14..21], cs[21..28], 8);
    KeepInBoardAppend(cs[0..7] + cs[7..14], cs[14..21], 8);
    KeepInBoardAppend(cs[0..7], cs[7..14], 8);
  }

  lemma SplitIntoRays<T>(s: seq<T>)
    requires |s| == 28
    ensures s == s[0..7] + s[7..14] + s[14..21] + s[21..28]
  {}

  lemma SlideFromD4OnDiagonal(d: nat, m: nat)
    requires d < 4 && m >= 1
    ensures OnDiagonalOfD4(Add(Position(4, 4), Scale(BishopDirections[d], m)))
  {
    if d == 0 {
      assert BishopDirections[d] == Position(1, 1);
    } else if d == 1 {
      assert BishopDirections[d] == Position(1, -1);
    } else if d == 2 {
      assert BishopDirections[d] == Position(-1, 1);
    } else {
      assert BishopDirections[d] == Position(-1, -1);
    }
  }

  lemma BishopFromD4Lands(color: Color, o: Position, a: Available)
    requires o == Position(4, 4)
    requires a in Availables(Piece(Bishop, color), o, 8)
    ensures OnDiagonalOfD4(a.finalPosition)
  {
    var cs := Candidates(Paths(Piece(Bishop, color)), o);
    var i :| 0 <= i < |cs| && cs[i] == a;
    SlideCandidate(color, o, i / 7, i % 7);
    SlideFromD4OnDiagonal(i / 7, i % 7 + 1);
  }

  /** Every slide of the table that stays on the board is available. */
  lemma BishopSlideAvailable(color: Color, o: Position, d: nat, m: nat)
    requires d < 4 && 1 <= m <= 7
    requires IsInBoard(Add(o, Scale(BishopDirections[d], m)), 8)
    ensures Available(Repeat(BishopDirections[d], m), Add(o, Scale(BishopDirections[d], m)))
            in Availables(Piece(Bishop, color), o, 8)
  {
    var cs := Candidates(Paths(Piece(Bishop, color)), o);
    SlideCandidate(color, o, d, m - 1);
    assert cs[7 * d + m - 1] in cs;
  }

  lemma BishopFromD4Reaches(color: Color, o: Position, p: Position)
    requires o == Position(4, 4) && IsInBoard(p, 8) && OnDiagonalOfD4(p)
    ensures Available(Repeat(DiagonalTowards(p), Abs(p.file - 4)), p)
            in Availables(Piece(Bishop, color), o, 8)
  {
    var m := Abs(p.file - 4);
    var d := DiagonalIndex(p);
    assert BishopDirections[d] == DiagonalTowards(p) && Add(o, Scale(BishopDirections[d], m)) == p by {
      DiagonalIndexFacts(p);
    }
    BishopSlideAvailable(color, o, d, m);
  }

  function DiagonalIndex(p: Position): (d: nat)
    ensures d < 4
  {
    if p.file > 4 then (if p.rank > 4 then 0 else 1) else (if p.rank > 4 then 2 else 3)
  }

  lemma DiagonalIndexFacts(p: Position)
    requires OnDiagonalOfD4(p)
    ensures BishopDirections[DiagonalIndex(p)] == DiagonalTowards(p)
    ensures Add(Position(4, 4), Scale(DiagonalTowards(p), Abs(p.file - 4))) == p
  {
    var m := Abs(p.file - 4);
    if p.file > 4 && p.rank > 4 {
      assert DiagonalTowards(p) == Position(1, 1);
    } else if p.file > 4 {
      assert DiagonalTowards(p) == Position(1, -1);
    } else if p.rank > 4 {
      assert DiagonalTowards(p) == Position(-1, 1);
    } else {
      assert DiagonalTowards(p) == Position(-1, -1);
    }
  }

  /** A Bishop at (4, 4) on the 8x8 board reaches 13 squares, which are
      exactly the board squares on its two diagonals. */
  lemma BishopFromD4(color: Color, o: Position)
    requires o == Position(4, 4)
    ensures |Availables(Piece(Bishop, color), o, 8)| == 13
    ensures forall a :: (a in Availables(Piece(Bishop, color), o, 8)
                         ==> OnDiagonalOfD4(a.finalPosition))
    ensures forall p :: (IsInBoard(p, 8) && OnDiagonalOfD4(p)
                         ==> Available(Repeat(DiagonalTowards(p), Abs(p.file - 4)), p)
                             in Availables(Piece(Bishop, color), o, 8))
    ensures |set a | a in Availables(Piece(Bishop, color), o, 8) :: a.finalPosition| == 13
  {
    BishopCountFromD4(color, o);
    forall a | a in Availables(Piece(Bishop, color), o, 8) ensures OnDiagonalOfD4(a.finalPosition) {
      BishopFromD4Lands(color, o, a);
    }
    forall p | IsInBoard(p, 8) && OnDiagonalOfD4(p)
      ensures Available(Repeat(DiagonalTowards(p), Abs(p.file - 4)), p) in Availables(Piece(Bishop, color), o, 8)
    {
      BishopFromD4Reaches(color, o, p);
    }
    BishopSquaresFromD4(color, o);
  }

  /** The squares a Bishop at (4, 4) lands on are the 13 diagonal squares. */
  lemma BishopSquaresFromD4(color: Color, o: Position)
    requires o == Position(4, 4)
    ensures (set a | a in Availables(Piece(Bishop, color), o, 8) :: a.finalPosition) == DiagonalSquaresOfD4
    ensures |DiagonalSquaresOfD4| == 13
  {
    var finals := set a | a in Availables(Piece(Bishop, color), o, 8) :: a.finalPosition;
    forall p ensures p in finals <==> p in DiagonalSquaresOfD4 {
      DiagonalSquaresOfD4Exactly(p);
      if p in finals {
        var a :| a in Availables(Piece(Bishop, color), o, 8) && a.finalPosition == p;
        BishopFromD4Lands(color, o, a);
      }
      if IsInBoard(p, 8) && OnDiagonalOfD4(p) {
        BishopFromD4Reaches(color, o, p);
      }
    }
    DiagonalSquaresOfD4Count();
  }

  /** The board squares on the diagonals through (4, 4): four towards (8, 8)
      and three along each of the other three rays. */
  const DiagonalSquaresOfD4: set<Position> := {
    Position(5, 5), Position(6, 6), Position(7, 7), Position(8, 8),
    Position(5, 3), Position(6, 2), Position(7, 1),
    Position(3, 5), Position(2, 6), Position(1, 7),
    Position(3, 3), Position(2, 2), Position(1, 1)
  }

  lemma DiagonalSquaresOfD4Exactly(p: Position)
    ensures p in DiagonalSquaresOfD4 <==> IsInBoard(p, 8) && OnDiagonalOfD4(p)
  {
  }

  lemma DiagonalSquaresOfD4Count()
    ensures |DiagonalSquaresOfD4| == 13
  {
  }

  /** The diagonal unit direction from (4, 4) towards p. */
  function DiagonalTowards(p: Position): Position
  {
    if p.file > 4 then (if p.rank > 4 then RightDown else RightUp)
    else (if p.rank > 4 then LeftDown else LeftUp)
  }
}
