/**
 * The player's character: a head drawn from a fixed piece of ASCII art that moves up and down
 * inside the playfield, and a rainbow tail of dots regenerated behind it on every tick.
 */
module Nyans {
  import opened Primitives
  import opened Matrices

  /** The head's art, four rows; its top-left corner is the head's position. */
  const HEAD_ART: seq<string> := [",-----", "|   /\\_/\\", "|__( ^ .^)", "\"\"  \"\""]

  /** One column of tail dots and their colours, top to bottom. */
  const TAIL_PATTERN: seq<char> := ['o', 'o', 'o', 'o']
  const TAIL_COLORS: seq<Color> := [Red, Yellow, Green, Blue]

  /** The head's glyphs as drawn: its art laid out with the corner at (x, y), unclipped as built
      or clipped at the left edge of the screen once it has moved. */
  ghost predicate Drawn(glyphs: seq<Primitive>, x: int, y: int)
  {
    glyphs == Layout(HEAD_ART, x, y) || glyphs == Clipped(Layout(HEAD_ART, x, y))
  }

  /** What a head move does to the drawing: translating a drawn head vertically by dy and
      clipping it is the head drawn dy rows further down, clipped. */
  lemma HeadMoveKeepsDrawn(glyphs: seq<Primitive>, x: int, y: int, dy: int)
    requires Drawn(glyphs, x, y)
    ensures Clipped(Shifted(glyphs, 0, dy)) == Clipped(Layout(HEAD_ART, x, y + dy))
    ensures Drawn(Clipped(Shifted(glyphs, 0, dy)), x, y + dy)
  {
    TranslateLayoutVertically(HEAD_ART, x, y, dy, glyphs != Layout(HEAD_ART, x, y));
  }

  /** The head. Its glyphs are its art laid out at (x, y) when it is built; every move then
      translates them and drops those left of the screen. */
  class Head {
    const x: int
    var y: int
    const height: int
    const matrix: Matrix

    /** The head's grid has the art's four rows and every glyph lies in one of them. */
    ghost predicate Valid()
      reads this, matrix
    {
      matrix.height == |HEAD_ART| && WithinRows(matrix.data, y, y + |HEAD_ART|)
    }

    /** The head lies inside the playfield's rows. */
    predicate InBounds()
      reads this
    {
      0 <= y && y + |HEAD_ART| <= height
    }

    /** A head centred on (x0, y0): its art starts six columns left and two rows up. */
    constructor (x0: int, y0: int, height: int)
      ensures Valid() && fresh(matrix)
      ensures x == x0 - 6 && y == y0 - 2 && this.height == height
      ensures matrix.data == Layout(HEAD_ART, x, y)
    {
      x := x0 - 6;
      y := y0 - 2;
      this.height := height;
      matrix := new Matrix(HEAD_ART, x0 - 6, y0 - 2);
      LayoutWithinRows(HEAD_ART, x0 - 6, y0 - 2);
    }

    /** Moves one row up unless the head is already at the top row; a refused move changes
        nothing, an accepted one translates every glyph by (0, -1). */
    method MoveUp()
      requires Valid()
      modifies this, matrix
      ensures Valid()
      ensures old(y) > 0 ==> y == old(y) - 1 && matrix.data == Clipped(Shifted(old(matrix.data), 0, -1))
      ensures old(y) <= 0 ==> y == old(y) && matrix.data == old(matrix.data)
      ensures old(InBounds()) ==> InBounds()
    {
      if y > 0 {
        VerticalShiftWithinRows(matrix.data, -1, y, y + |HEAD_ART|);
        ClippedWithinRows(Shifted(matrix.data, 0, -1), y - 1, y - 1 + |HEAD_ART|);
        y := y - 1;
        matrix.Translate(0, -1);
      }
    }

    /** Moves one row down unless the head's bottom row is already the playfield's last row; a
        refused move changes nothing, an accepted one translates every glyph by (0, 1). */
    method MoveDown()
      requires Valid()
      modifies this, matrix
      ensures Valid()
      ensures old(y) + |HEAD_ART| < height ==> y == old(y) + 1 && matrix.data == Clipped(Shifted(old(matrix.data), 0, 1))
      ensures old(y) + |HEAD_ART| >= height ==> y == old(y) && matrix.data == old(matrix.data)
      ensures old(InBounds()) ==> InBounds()
    {
      if y + matrix.height < height {
        VerticalShiftWithinRows(matrix.data, 1, y, y + |HEAD_ART|);
        ClippedWithinRows(Shifted(matrix.data, 0, 1), y + 1, y + 1 + |HEAD_ART|);
        y := y + 1;
        matrix.Translate(0, 1);
      }
    }

    /** The head's glyphs, all in the four rows starting at y. */
    function Primitives(): (r: seq<Primitive>)
      requires Valid()
      reads this, matrix
      ensures WithinRows(r, y, y + |HEAD_ART|)
    {
      matrix.data
    }
  }

  /** The tail: dots that follow the head and drift left. */
  class Tail {
    const head: Head
    const matrix: Matrix

    /** Every tail glyph is a coloured dot. */
    ghost predicate Valid()
      reads matrix
    {
      forall p :: p in matrix.data ==> p.ch == 'o' && p.color != White
    }

    /** An empty tail one column left of the head. */
    constructor (head: Head)
      ensures this.head == head && fresh(matrix)
      ensures Valid() && matrix.data == []
    {
      this.head := head;
      matrix := new Matrix([""], head.x - 1, head.y);
    }

    /** One tail step: the old dots move one column left and those left of the screen are dropped,
        then a fresh column of four dots is painted just left of the head, at the head's rows. */
    method Generate()
      requires Valid()
      modifies matrix
      ensures Valid()
      ensures matrix.data == Clipped(Shifted(old(matrix.data), -1, 0)) + Painted(TAIL_PATTERN, TAIL_COLORS, head.x - 1, head.y)
    {
      matrix.Translate(-1, 0);
      ClippedIdempotent(Shifted(old(matrix.data), -1, 0));
      matrix.Clear();
      matrix.Append(TAIL_PATTERN, TAIL_COLORS, head.x - 1, head.y);
      forall p | p in matrix.data ensures p.ch == 'o' && p.color != White {
        var shifted := Shifted(old(matrix.data), -1, 0);
        ClippedMember(shifted, p);
        if p in Clipped(shifted) {
          var i :| 0 <= i < |shifted| && shifted[i] == p;
          assert old(matrix.data)[i] in old(matrix.data);
        }
      }
    }

    /** The tail's glyphs: coloured dots. */
    function Primitives(): (r: seq<Primitive>)
      requires Valid()
      reads matrix
      ensures forall p :: p in r ==> p.ch == 'o' && p.color != White
    {
      matrix.data
    }
  }

  /** The character: a head and the tail that follows it. */
  class Nyan {
    const head: Head
    const tail: Tail

    ghost predicate Valid()
      reads head, head.matrix, tail.matrix
    {
      && tail.head == head
      && tail.matrix != head.matrix
      && head.Valid()
      && tail.Valid()
    }

    /** The head inside the playfield and every tail dot in one of its rows. */
    ghost predicate InPlayfield()
      reads head, tail.matrix
    {
      head.InBounds() && WithinRows(tail.matrix.data, 0, head.height)
    }

    /** A character centred on (x, y) in a playfield of the given height, with no tail yet. */
    constructor (x: int, y: int, height: int)
      ensures Valid() && fresh(head) && fresh(head.matrix) && fresh(tail) && fresh(tail.matrix)
      ensures head.x == x - 6 && head.y == y - 2 && head.height == height
      ensures head.matrix.data == Layout(HEAD_ART, head.x, head.y)
      ensures tail.matrix.data == []
    {
      var h := new Head(x, y, height);
      head := h;
      tail := new Tail(h);
    }

    /** One tick of the character: the tail is regenerated; the head stays where it is. */
    method Update()
      requires Valid()
      modifies tail.matrix
      ensures Valid()
      ensures tail.matrix.data == Clipped(Shifted(old(tail.matrix.data), -1, 0)) + Painted(TAIL_PATTERN, TAIL_COLORS, head.x - 1, head.y)
      ensures old(InPlayfield()) ==> InPlayfield()
    {
      ghost var before := tail.matrix.data;
      tail.Generate();
      if head.InBounds() && WithinRows(before, 0, head.height) {
        ShiftedWithinRows(before, -1, 0, head.height);
        ClippedWithinRows(Shifted(before, -1, 0), 0, head.height);
      }
    }

    /** Forwards an upward move to the head. */
    method MoveUp()
      requires Valid()
      modifies head, head.matrix
      ensures Valid()
      ensures old(head.y) > 0 ==> head.y == old(head.y) - 1 && head.matrix.data == Clipped(Shifted(old(head.matrix.data), 0, -1))
      ensures old(head.y) <= 0 ==> head.y == old(head.y) && head.matrix.data == old(head.matrix.data)
      ensures old(InPlayfield()) ==> InPlayfield()
    {
      head.MoveUp();
    }

    /** Forwards a downward move to the head. */
    method MoveDown()
      requires Valid()
      modifies head, head.matrix
      ensures Valid()
      ensures old(head.y) + |HEAD_ART| < head.height ==> head.y == old(head.y) + 1 && head.matrix.data == Clipped(Shifted(old(head.matrix.data), 0, 1))
      ensures old(head.y) + |HEAD_ART| >= head.height ==> head.y == old(head.y) && head.matrix.data == old(head.matrix.data)
      ensures old(InPlayfield()) ==> InPlayfield()
    {
      head.MoveDown();
    }

    /** The head's glyphs followed by the tail's; in a playfield-bound character all of them lie
        in the playfield's rows. */
    function Primitives(): (r: seq<Primitive>)
      requires Valid()
      reads head, head.matrix, tail.matrix
      ensures InPlayfield() ==> WithinRows(r, 0, head.height)
    {
      head.Primitives() + tail.Primitives()
    }
  }
}
