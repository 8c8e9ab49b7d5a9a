/** `display()`: the board drawn as text, one line per rank from rank 1,
    each line one glyph per file from file 1, '.' for an empty square, and a
    newline between lines but not after the last. */
module Rendering {
  import opened Positions
  import opened Pieces
  import opened Placement

  /** `pieces[square]?.symbol ?? "."`. */
  function Glyph(pieces: map<Position, Piece>, p: Position): (c: char)
    ensures c == '.' <==> p !in pieces
    ensures p in pieces ==> c == Symbol(pieces[p])
  {
    if p in pieces then Symbol(pieces[p]) else '.'
  }

  /** Characters per drawn line, counting its newline. */
  const Stride: int := Size + 1

  /** Where a square's glyph sits in the text. */
  function TextIndex(p: Position): int
  {
    (p.rank - 1) * Stride + (p.file - 1)
  }

  /** The display text, read off character by character: every Stride-th
      character is a line break, the others are the glyphs of the squares in
      rank-major order. */
  function Render(pieces: map<Position, Piece>): (text: string)
    ensures |text| == Size * Stride - 1
  {
    seq(Size * Stride - 1, i =>
      if i % Stride == Size then '\n' else Glyph(pieces, Position(i % Stride + 1, i / Stride + 1)))
  }

  lemma RowColumn(row: int, column: int)
    requires 0 <= row && 0 <= column < Stride
    ensures (row * Stride + column) / Stride == row
    ensures (row * Stride + column) % Stride == column
  {}

  /** Each square of the board is drawn at its text index. */
  lemma RenderAt(pieces: map<Position, Piece>, p: Position)
    requires IsInBoard(p, Size)
    ensures 0 <= TextIndex(p) < |Render(pieces)|
    ensures Render(pieces)[TextIndex(p)] == Glyph(pieces, p)
  {
    RowColumn(p.rank - 1, p.file - 1);
  }

  /** The glyphs of one rank: the text's line for that rank, without its
      line break. */
  function Line(text: string, rank: int): (line: string)
    requires |text| == Size * Stride - 1 && 1 <= rank <= Size
    ensures |line| == Size
  {
    text[(rank - 1) * Stride..(rank - 1) * Stride + Size]
  }

  /** Line r of the display is the glyphs of rank r, file 1 first. */
  lemma RenderLine(pieces: map<Position, Piece>, rank: int)
    requires 1 <= rank <= Size
    ensures Line(Render(pieces), rank) == seq(Size, f => Glyph(pieces, Position(f + 1, rank)))
  {
    forall f | 0 <= f < Size
      ensures Line(Render(pieces), rank)[f] == Glyph(pieces, Position(f + 1, rank))
    {
      RenderAt(pieces, Position(f + 1, rank));
    }
  }

  /** Every line but the last ends in a line break. */
  lemma RenderNewline(pieces: map<Position, Piece>, rank: int)
    requires 1 <= rank < Size
    ensures 0 <= rank * Stride - 1 < |Render(pieces)|
    ensures Render(pieces)[rank * Stride - 1] == '\n'
  {
    RowColumn(rank - 1, Size);
  }

  /** The text has no other line breaks: a character is a line break exactly
      when it sits in the last column of the stride. */
  lemma RenderLineBreaks(pieces: map<Position, Piece>, i: int)
    requires 0 <= i < |Render(pieces)|
    ensures Render(pieces)[i] == '\n' <==> i % Stride == Size
  {
    if i % Stride != Size {
      var p := Position(i % Stride + 1, i / Stride + 1);
      assert Render(pieces)[i] == Glyph(pieces, p);
      if p in pieces {
        SymbolRoundTrip(pieces[p]);
      }
    }
  }

  /** The same fact for the whole text at once: the line breaks are exactly
      the seven characters between the eight lines. */
  lemma RenderLineBreaksEverywhere(pieces: map<Position, Piece>)
    ensures forall i :: 0 <= i < |Render(pieces)| ==> (Render(pieces)[i] == '\n' <==> i % Stride == Size)
  {
    forall i | 0 <= i < |Render(pieces)| ensures Render(pieces)[i] == '\n' <==> i % Stride == Size {
      RenderLineBreaks(pieces, i);
    }
  }

  /** Reads a display text back into a square-to-piece map. */
  function ReadBoard(text: string): (pieces: map<Position, Piece>)
    requires |text| == Size * Stride - 1
    ensures forall p :: p in pieces ==> IsInBoard(p, Size)
  {
    map p | p in Squares(Size) && PieceOfSymbol(text[TextIndex(p)]).Some?
      :: PieceOfSymbol(text[TextIndex(p)]).value
  }

  /** The display is lossless: reading it back gives the board it drew. */
  lemma RenderIsLossless(pieces: map<Position, Piece>)
    requires forall p :: p in pieces ==> IsInBoard(p, Size)
    ensures ReadBoard(Render(pieces)) == pieces
  {
    var text := Render(pieces);
    var back := ReadBoard(text);
    forall p | IsInBoard(p, Size)
      ensures PieceOfSymbol(text[TextIndex(p)]) == if p in pieces then Some(pieces[p]) else None
    {
      RenderAt(pieces, p);
      if p in pieces {
        SymbolRoundTrip(pieces[p]);
      }
    }
    assert forall p :: p in back <==> p in pieces;
  }

  /** Two boards drawn alike are alike. */
  lemma RenderIsInjective(m1: map<Position, Piece>, m2: map<Position, Piece>)
    requires forall p :: p in m1 ==> IsInBoard(p, Size)
    requires forall p :: p in m2 ==> IsInBoard(p, Size)
    ensures Render(m1) == Render(m2) <==> m1 == m2
  {
    if Render(m1) == Render(m2) {
      RenderIsLossless(m1);
      RenderIsLossless(m2);
    }
  }
}
