/** Glyphs: the positioned, coloured characters every entity of the game is drawn with. */
module Primitives {

  /** The terminal colours the game uses; abstract stand-ins for the curses colour constants. */
  datatype Color = White | Red | Yellow | Green | Blue

  /** One glyph: column x, row y (row 0 at the top), the character drawn there (`char` in the game) and its colour. */
  datatype Primitive = Primitive(x: int, y: int, ch: char, color: Color)

  /** The glyph moved by (dx, dy); character and colour are kept. */
  function Moved(p: Primitive, dx: int, dy: int): Primitive
  {
    p.(x := p.x + dx, y := p.y + dy)
  }

  /** Two glyphs occupy the same cell of the playfield; character and colour play no part. */
  predicate SameCell(a: Primitive, b: Primitive)
  {
    a.x == b.x && a.y == b.y
  }

  /** Every glyph of s lies in a row of [lo, hi). */
  predicate WithinRows(s: seq<Primitive>, lo: int, hi: int)
  {
    forall p :: p in s ==> lo <= p.y < hi
  }
}
