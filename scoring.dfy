/** `score(for:)` and `allScore()`: the sum of the piece scores of one colour,
    whatever order the dictionary is walked in, and the two-line summary text
    with the scores written in decimal. */
module Scoring {
  import opened Positions
  import opened Pieces
  import opened Placement

  /** `pieces.filter { $0.value.color == color }`. */
  function FilterColor(pieces: map<Position, Piece>, color: Color): (r: map<Position, Piece>)
    ensures forall p :: p in r <==> p in pieces && pieces[p].color == color
    ensures forall p :: p in r ==> r[p] == pieces[p]
  {
    map p | p in pieces && pieces[p].color == color :: pieces[p]
  }

  /** `reduce(0) { $0 + type(of: $1.value).score }` over a dictionary, whose
      iteration order is unspecified: each step takes some entry out. */
  ghost function ReduceScore(pieces: map<Position, Piece>): int
    decreases |pieces|
  {
    if pieces.Keys == {} then 0
    else
      var p :| p in pieces.Keys;
      Score(pieces[p].kind) + ReduceScore(pieces - {p})
  }

  /** How many squares hold a piece of this kind, of either colour. */
  function KindCount(pieces: map<Position, Piece>, kind: Kind): nat
  {
    |KindHolders(pieces, kind)|
  }

  function KindHolders(pieces: map<Position, Piece>, kind: Kind): (s: set<Position>)
    ensures s <= pieces.Keys
  {
    set p | p in pieces && pieces[p].kind == kind
  }

  lemma KindCountRemove(pieces: map<Position, Piece>, position: Position, kind: Kind)
    requires position in pieces
    ensures KindCount(pieces - {position}, kind)
         == KindCount(pieces, kind) - (if pieces[position].kind == kind then 1 else 0)
  {
    var before := set p | p in pieces && pieces[p].kind == kind;
    var taken := pieces - {position};
    var after := set p | p in taken && taken[p].kind == kind;
    if pieces[position].kind == kind {
      assert before == after + {position};
    } else {
      assert after == before;
    }
  }

  /** The score total computed kind by kind: count times score. */
  function Weighted(pieces: map<Position, Piece>): nat
  {
    KindCount(pieces, Pawn) * Score(Pawn)
      + KindCount(pieces, Knight) * Score(Knight)
      + KindCount(pieces, Bishop) * Score(Bishop)
      + KindCount(pieces, Rook) * Score(Rook)
      + KindCount(pieces, Queen) * Score(Queen)
  }

  /** Taking any one entry out lowers the kind-by-kind total by that entry's
      score. */
  lemma WeightedRemove(pieces: map<Position, Piece>, position: Position)
    requires position in pieces
    ensures Weighted(pieces) == Score(pieces[position].kind) + Weighted(pieces - {position})
  {
    KindCountRemove(pieces, position, Pawn);
    KindCountRemove(pieces, position, Knight);
    KindCountRemove(pieces, position, Bishop);
    KindCountRemove(pieces, position, Rook);
    KindCountRemove(pieces, position, Queen);
  }

  lemma WeightedEmpty(pieces: map<Position, Piece>)
    requires pieces.Keys == {}
    ensures Weighted(pieces) == 0
  {
    forall kind: Kind ensures KindCount(pieces, kind) == 0 {
      assert KindHolders(pieces, kind) == {};
    }
  }

  /** Whatever entries the reduction happens to take first, its sum is the
      kind-by-kind total. */
  lemma {:induction false} ReduceScoreIsWeighted(pieces: map<Position, Piece>)
    ensures ReduceScore(pieces) == Weighted(pieces)
    decreases |pieces|
  {
    if pieces.Keys == {} {
      WeightedEmpty(pieces);
    } else {
      var p :| p in pieces.Keys && ReduceScore(pieces) == Score(pieces[p].kind) + ReduceScore(pieces - {p});
      ReduceScoreIsWeighted(pieces - {p});
      WeightedRemove(pieces, p);
    }
  }

  /** The reduction's order does not matter: starting from any entry gives
      the same sum. */
  lemma ReduceScoreAnyOrder(pieces: map<Position, Piece>, position: Position)
    requires position in pieces
    ensures ReduceScore(pieces) == Score(pieces[position].kind) + ReduceScore(pieces - {position})
  {
    ReduceScoreIsWeighted(pieces);
    ReduceScoreIsWeighted(pieces - {position});
    WeightedRemove(pieces, position);
  }

  lemma KindCountOfFilter(pieces: map<Position, Piece>, color: Color, kind: Kind)
    ensures KindCount(FilterColor(pieces, color), kind) == Count(pieces, Piece(kind, color))
  {
    var filtered := FilterColor(pieces, color);
    assert (set p | p in filtered && filtered[p].kind == kind)
        == (set p | p in pieces && pieces[p] == Piece(kind, color));
  }

  /** `score(for:)`: computed kind by kind over the pieces of that colour. */
  function ScoreFor(pieces: map<Position, Piece>, color: Color): nat
  {
    Weighted(FilterColor(pieces, color))
  }

  /** A colour's score is the number of its pieces of each kind times the
      kind's score. */
  lemma ScoreForByCounts(pieces: map<Position, Piece>, color: Color)
    ensures ScoreFor(pieces, color)
         == Count(pieces, Piece(Pawn, color)) * Score(Pawn)
          + Count(pieces, Piece(Knight, color)) * Score(Knight)
          + Count(pieces, Piece(Bishop, color)) * Score(Bishop)
          + Count(pieces, Piece(Rook, color)) * Score(Rook)
          + Count(pieces, Piece(Queen, color)) * Score(Queen)
  {
    KindCountOfFilter(pieces, color, Pawn);
    KindCountOfFilter(pieces, color, Knight);
    KindCountOfFilter(pieces, color, Bishop);
    KindCountOfFilter(pieces, color, Rook);
    KindCountOfFilter(pieces, color, Queen);
  }

  /** `score(for:)` is the source's filter-then-reduce, in whatever order the
      dictionary hands out its entries. */
  lemma ScoreForIsReduce(pieces: map<Position, Piece>, color: Color)
    ensures ScoreFor(pieces, color) == ReduceScore(FilterColor(pieces, color))
  {
    ReduceScoreIsWeighted(FilterColor(pieces, color));
  }

  /** Placing a piece on an empty square adds it to its own colour's
      filter only. */
  lemma FilterOfInsert(pieces: map<Position, Piece>, position: Position, piece: Piece, color: Color)
    requires position !in pieces
    ensures FilterColor(pieces[position := piece], color)
         == if piece.color == color then FilterColor(pieces, color)[position := piece]
            else FilterColor(pieces, color)
  {
    var before, now := FilterColor(pieces, color), FilterColor(pieces[position := piece], color);
    if piece.color == color {
      assert forall p :: p in now <==> p in before[position := piece];
    } else {
      assert forall p :: p in now <==> p in before;
    }
  }

  /** Placing a piece on an empty square raises its own colour's score by
      the piece's score and leaves the other colour's alone. */
  lemma ScoreAfterInsert(pieces: map<Position, Piece>, position: Position, piece: Piece, color: Color)
    requires position !in pieces
    ensures ScoreFor(pieces[position := piece], color)
         == ScoreFor(pieces, color) + (if color == piece.color then Score(piece.kind) else 0)
  {
    FilterOfInsert(pieces, position, piece, color);
    if color == piece.color {
      var before := FilterColor(pieces, color);
      WeightedRemove(before[position := piece], position);
      assert before[position := piece] - {position} == before;
    }
  }

  /** A successful add raises its own colour's score by the piece's score and
      leaves the other colour's score alone; a failed add changes neither. */
  lemma ScoreAfterAdd(pieces: map<Position, Piece>, piece: Piece, position: Position, color: Color)
    ensures ScoreFor(AfterAdd(pieces, piece, position), color)
         == ScoreFor(pieces, color)
            + (if AddCheck(pieces, piece, position) == Pass && color == piece.color then Score(piece.kind) else 0)
  {
    if AddCheck(pieces, piece, position) == Pass {
      ScoreAfterInsert(pieces, position, piece, color);
    }
  }

  /** The decimal digit of a value below ten. */
  function DigitChar(d: nat): (c: char)
    requires d < 10
    ensures '0' <= c <= '9'
  {
    ('0' as int + d) as char
  }

  predicate IsDigits(s: string)
  {
    forall i :: 0 <= i < |s| ==> '0' <= s[i] <= '9'
  }

  /** String interpolation of a non-negative `Int`: decimal, no leading zero. */
  function NatToString(n: nat): (s: string)
    ensures |s| >= 1 && IsDigits(s)
    ensures s[0] == '0' ==> n == 0
    decreases n
  {
    if n < 10 then [DigitChar(n)] else NatToString(n / 10) + [DigitChar(n % 10)]
  }

  /** Reading a decimal numeral back, most significant digit first. */
  function ParseNat(s: string): nat
    requires IsDigits(s)
    decreases |s|
  {
    if s == [] then 0 else ParseNat(s[..|s| - 1]) * 10 + (s[|s| - 1] as int - '0' as int)
  }

  lemma {:induction false} NatToStringRoundTrip(n: nat)
    ensures ParseNat(NatToString(n)) == n
    decreases n
  {
    if n >= 10 {
      var s := NatToString(n);
      NatToStringRoundTrip(n / 10);
      assert s[..|s| - 1] == NatToString(n / 10);
    }
  }

  /** Different scores are written differently. */
  lemma NatToStringInjective(m: nat, n: nat)
    ensures NatToString(m) == NatToString(n) <==> m == n
  {
    NatToStringRoundTrip(m);
    NatToStringRoundTrip(n);
  }

  /** How `PieceColor` interpolates: its case name. */
  function ColorName(color: Color): string
  {
    match color
    case White => "white"
    case Black => "black"
  }

  /** `"\(color): \(score)"`. */
  function ScoreLine(pieces: map<Position, Piece>, color: Color): string
  {
    ColorName(color) + ": " + NatToString(ScoreFor(pieces, color))
  }

  /** `joined(separator:)`. */
  function Joined(lines: seq<string>, separator: string): string
    decreases |lines|
  {
    if |lines| == 0 then ""
    else if |lines| == 1 then lines[0]
    else lines[0] + separator + Joined(lines[1..], separator)
  }

  lemma JoinedPair(first: string, second: string, separator: string)
    ensures Joined([first, second], separator) == first + separator + second
  {
    assert [first, second][1..] == [second];
  }

  /** `allScore()`: one score line per colour in declaration order, joined by
      newlines. */
  function AllScore(pieces: map<Position, Piece>): (text: string)
    ensures text == "white: " + NatToString(ScoreFor(pieces, White))
                    + "\nblack: " + NatToString(ScoreFor(pieces, Black))
  {
    var lines := seq(|AllColors|, i requires 0 <= i < |AllColors| => ScoreLine(pieces, AllColors[i]));
    assert lines == [ScoreLine(pieces, White), ScoreLine(pieces, Black)];
    SummaryShape(NatToString(ScoreFor(pieces, White)), NatToString(ScoreFor(pieces, Black)));
    Joined(lines, "\n")
  }

  lemma SummaryShape(white: string, black: string)
    ensures Joined([ColorName(White) + ": " + white, ColorName(Black) + ": " + black], "\n")
         == "white: " + white + "\nblack: " + black
  {
    assert "white" + ": " == "white: ";
    assert "black" + ": " == "black: ";
    JoinedPair("white: " + white, "black: " + black, "\n");
    assert "\n" + ("black: " + black) == "\nblack: " + black;
  }

  /** The length of the run of digits a string starts with. */
  function DigitRun(s: string): (n: nat)
    ensures n <= |s|
    decreases |s|
  {
    if |s| > 0 && '0' <= s[0] <= '9' then 1 + DigitRun(s[1..]) else 0
  }

  lemma {:induction false} DigitRunOfNumeral(a: string, x: string)
    requires IsDigits(a)
    requires |x| >= 1 && !('0' <= x[0] <= '9')
    ensures DigitRun(a + x) == |a|
    decreases |a|
  {
    if |a| > 0 {
      assert (a + x)[1..] == a[1..] + x;
      DigitRunOfNumeral(a[1..], x);
    }
  }

  /** Two digit strings each followed by the same non-digit text line up. */
  lemma DigitsPrefix(a: string, b: string, x: string, y: string)
    requires IsDigits(a) && IsDigits(b)
    requires |x| >= 1 && |y| >= 1 && !('0' <= x[0] <= '9') && x[0] == y[0]
    requires a + x == b + y
    ensures a == b && x == y
  {
    DigitRunOfNumeral(a, x);
    DigitRunOfNumeral(b, y);
    assert a == (a + x)[..|a|] && b == (b + y)[..|a|];
    assert x == (a + x)[|a|..] && y == (b + y)[|a|..];
  }

  /** A summary text splits back into its two numerals. */
  lemma SummaryParts(w1: string, b1: string, w2: string, b2: string)
    requires IsDigits(w1) && IsDigits(w2)
    requires "white: " + w1 + "\nblack: " + b1 == "white: " + w2 + "\nblack: " + b2
    ensures w1 == w2 && b1 == b2
  {
    var head := "white: ";
    var tail1, tail2 := "\nblack: " + b1, "\nblack: " + b2;
    assert "white: " + w1 + "\nblack: " + b1 == head + (w1 + tail1);
    assert "white: " + w2 + "\nblack: " + b2 == head + (w2 + tail2);
    assert w1 + tail1 == w2 + tail2 by {
      assert w1 + tail1 == (head + (w1 + tail1))[|head|..];
      assert w2 + tail2 == (head + (w2 + tail2))[|head|..];
    }
    DigitsPrefix(w1, w2, tail1, tail2);
    assert b1 == tail1[8..] && b2 == tail2[8..];
  }

  /** The summary text is lossless: it determines both colours' scores. */
  lemma AllScoreDeterminesScores(m1: map<Position, Piece>, m2: map<Position, Piece>)
    requires AllScore(m1) == AllScore(m2)
    ensures ScoreFor(m1, White) == ScoreFor(m2, White)
    ensures ScoreFor(m1, Black) == ScoreFor(m2, Black)
  {
    SummaryParts(NatToString(ScoreFor(m1, White)), NatToString(ScoreFor(m1, Black)),
                 NatToString(ScoreFor(m2, White)), NatToString(ScoreFor(m2, Black)));
    NatToStringInjective(ScoreFor(m1, White), ScoreFor(m2, White));
    NatToStringInjective(ScoreFor(m1, Black), ScoreFor(m2, Black));
  }
}
