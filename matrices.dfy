/**
 * The glyph grid every entity of the game is drawn with: a list of glyphs laid out from rows of
 * text, shifted and clipped at the left edge of the screen, and extended by painted columns.
 * The functions below specify the grid's operations on values; the class Matrix performs them in
 * place, as the game does.
 */
module Matrices {
  import opened Primitives

  // ---------------------------------------------------------------------------------------------
  // Specification functions

  /** Every glyph of s moved by (dx, dy), in the same order. */
  function Shifted(s: seq<Primitive>, dx: int, dy: int): seq<Primitive>
  {
    seq(|s|, i requires 0 <= i < |s| => Moved(s[i], dx, dy))
  }

  /** The glyphs of s that are not left of the screen (x >= 0), in their original order. */
  function Clipped(s: seq<Primitive>): seq<Primitive>
    decreases |s|
  {
    if s == [] then []
    else if s[|s| - 1].x >= 0 then Clipped(s[..|s| - 1]) + [s[|s| - 1]]
    else Clipped(s[..|s| - 1])
  }

  /** The glyphs of one text row whose first character sits at (x, y), all white. */
  function RowGlyphs(row: string, x: int, y: int): seq<Primitive>
  {
    seq(|row|, j requires 0 <= j < |row| => Primitive(x + j, y, row[j], White))
  }

  /** The glyphs of rows laid out with the top-left corner at (x, y), row after row. */
  function Layout(rows: seq<string>, x: int, y: int): seq<Primitive>
    decreases |rows|
  {
    if rows == [] then []
    else Layout(rows[..|rows| - 1], x, y) + RowGlyphs(rows[|rows| - 1], x, y + |rows| - 1)
  }

  /** The number of characters in the rows before row i: where row i starts in a layout. */
  function Offset(rows: seq<string>, i: nat): nat
    requires i <= |rows|
  {
    if i == 0 then 0 else Offset(rows, i - 1) + |rows[i - 1]|
  }

  /** A column painted downwards from (x, y): glyph i is chars[i] in colors[i] at (x, y + i). */
  function Painted(chars: seq<char>, colors: seq<Color>, x: int, y: int): seq<Primitive>
    requires |chars| <= |colors|
  {
    seq(|chars|, i requires 0 <= i < |chars| => Primitive(x, y + i, chars[i], colors[i]))
  }

  // ---------------------------------------------------------------------------------------------
  // Lemmas about clipping

  /** Clipping is a filter: it distributes over concatenation. */
  lemma {:induction false} ClippedAppend(s: seq<Primitive>, t: seq<Primitive>)
    ensures Clipped(s + t) == Clipped(s) + Clipped(t)
    decreases |t|
  {
    if t == [] {
      assert s + t == s;
    } else {
      var init := t[..|t| - 1];
      assert (s + t)[..|s + t| - 1] == s + init;
      assert (s + t)[|s + t| - 1] == t[|t| - 1];
      ClippedAppend(s, init);
    }
  }

  /** Clipping never adds glyphs. */
  lemma {:induction false} ClippedLength(s: seq<Primitive>)
    ensures |Clipped(s)| <= |s|
    decreases |s|
  {
    if s != [] {
      ClippedLength(s[..|s| - 1]);
    }
  }

  /** A glyph survives clipping exactly when it is in the list and not left of the screen. */
  lemma {:induction false} ClippedMember(s: seq<Primitive>, p: Primitive)
    ensures p in Clipped(s) <==> p in s && p.x >= 0
    decreases |s|
  {
    if s != [] {
      var init := s[..|s| - 1];
      assert s == init + [s[|s| - 1]];
      ClippedMember(init, p);
    }
  }

  /** A list with no glyph left of the screen is not changed by clipping. */
  lemma {:induction false} ClippedKeepsAll(s: seq<Primitive>)
    requires forall p :: p in s ==> p.x >= 0
    ensures Clipped(s) == s
    decreases |s|
  {
    if s != [] {
      var init := s[..|s| - 1];
      assert s == init + [s[|s| - 1]];
      ClippedKeepsAll(init);
    }
  }

  /** A list whose glyphs are all left of the screen is clipped away entirely. */
  lemma {:induction false} ClippedDropsAll(s: seq<Primitive>)
    requires forall p :: p in s ==> p.x < 0
    ensures Clipped(s) == []
    decreases |s|
  {
    if s != [] {
      var init := s[..|s| - 1];
      assert s == init + [s[|s| - 1]];
      ClippedDropsAll(init);
    }
  }

  /** Clipping twice is clipping once: the extra clear after a translate changes nothing. */
  lemma ClippedIdempotent(s: seq<Primitive>)
    ensures Clipped(Clipped(s)) == Clipped(s)
  {
    forall p | p in Clipped(s) ensures p.x >= 0 {
      ClippedMember(s, p);
    }
    ClippedKeepsAll(Clipped(s));
  }

  /** Clipping keeps every glyph in the rows it was in. */
  lemma ClippedWithinRows(s: seq<Primitive>, lo: int, hi: int)
    requires WithinRows(s, lo, hi)
    ensures WithinRows(Clipped(s), lo, hi)
  {
  }

  /** A vertical shift leaves every x alone, so it commutes with clipping. */
  lemma {:induction false} VerticalShiftCommutes(s: seq<Primitive>, dy: int)
    ensures Shifted(Clipped(s), 0, dy) == Clipped(Shifted(s, 0, dy))
    decreases |s|
  {
    if s != [] {
      var init := s[..|s| - 1];
      var last := s[|s| - 1];
      assert s == init + [last];
      assert Shifted(s, 0, dy) == Shifted(init, 0, dy) + [Moved(last, 0, dy)];
      VerticalShiftCommutes(init, dy);
      assert Shifted(s, 0, dy)[..|s| - 1] == Shifted(init, 0, dy);
      if last.x >= 0 {
        assert Shifted(Clipped(init) + [last], 0, dy) == Shifted(Clipped(init), 0, dy) + [Moved(last, 0, dy)];
      }
    }
  }

  /** A horizontal shift leaves every row alone. */
  lemma ShiftedWithinRows(s: seq<Primitive>, dx: int, lo: int, hi: int)
    requires WithinRows(s, lo, hi)
    ensures WithinRows(Shifted(s, dx, 0), lo, hi)
  {
    forall p | p in Shifted(s, dx, 0) ensures lo <= p.y < hi {
      var i :| 0 <= i < |s| && Shifted(s, dx, 0)[i] == p;
      assert s[i] in s;
    }
  }

  /** A vertical shift moves every glyph's row by the same amount. */
  lemma VerticalShiftWithinRows(s: seq<Primitive>, dy: int, lo: int, hi: int)
    requires WithinRows(s, lo, hi)
    ensures WithinRows(Shifted(s, 0, dy), lo + dy, hi + dy)
  {
    forall p | p in Shifted(s, 0, dy) ensures lo + dy <= p.y < hi + dy {
      var i :| 0 <= i < |s| && Shifted(s, 0, dy)[i] == p;
      assert s[i] in s;
    }
  }

  // ---------------------------------------------------------------------------------------------
  // Lemmas about layout

  /** The start of row i does not depend on the rows after it. */
  lemma {:induction false} OffsetPrefix(rows: seq<string>, n: nat, i: nat)
    requires i <= n <= |rows|
    ensures Offset(rows[..n], i) == Offset(rows, i)
    decreases i
  {
    if i > 0 {
      OffsetPrefix(rows, n, i - 1);
    }
  }

  /** A layout holds one glyph per character of its rows. */
  lemma {:induction false} LayoutLength(rows: seq<string>, x: int, y: int)
    ensures |Layout(rows, x, y)| == Offset(rows, |rows|)
    decreases |rows|
  {
    if rows != [] {
      var n := |rows| - 1;
      LayoutLength(rows[..n], x, y);
      OffsetPrefix(rows, n, n);
    }
  }

  /** Row-major order: the character in row i, column j lands at (x + j, y + i), white, at the
      position where row i starts plus j. */
  lemma {:induction false} LayoutAt(rows: seq<string>, x: int, y: int, i: nat, j: nat)
    requires i < |rows| && j < |rows[i]|
    ensures Offset(rows, i) + j < |Layout(rows, x, y)|
    ensures Layout(rows, x, y)[Offset(rows, i) + j] == Primitive(x + j, y + i, rows[i][j], White)
    decreases |rows|
  {
    var n := |rows| - 1;
    var init := rows[..n];
    LayoutLength(init, x, y);
    OffsetPrefix(rows, n, n);
    if i == n {
      assert Layout(rows, x, y) == Layout(init, x, y) + RowGlyphs(rows[n], x, y + n);
    } else {
      LayoutAt(init, x, y, i, j);
      OffsetPrefix(rows, n, i);
    }
  }

  /** Every glyph of a layout lies in the rows [y, y + number of rows). */
  lemma {:induction false} LayoutWithinRows(rows: seq<string>, x: int, y: int)
    ensures WithinRows(Layout(rows, x, y), y, y + |rows|)
    decreases |rows|
  {
    if rows != [] {
      var n := |rows| - 1;
      LayoutWithinRows(rows[..n], x, y);
    }
  }

  /** Shifting a layout is laying it out from the shifted corner. */
  lemma {:induction false} ShiftedLayout(rows: seq<string>, x: int, y: int, dx: int, dy: int)
    ensures Shifted(Layout(rows, x, y), dx, dy) == Layout(rows, x + dx, y + dy)
    decreases |rows|
  {
    if rows != [] {
      var n := |rows| - 1;
      var a := Layout(rows[..n], x, y);
      var b := RowGlyphs(rows[n], x, y + n);
      ShiftedLayout(rows[..n], x, y, dx, dy);
      assert Shifted(a + b, dx, dy) == Shifted(a, dx, dy) + Shifted(b, dx, dy);
      assert Shifted(b, dx, dy) == RowGlyphs(rows[n], x + dx, y + dy + n);
    }
  }

  /** Moving a laid-out shape vertically and clipping it, whether or not it was clipped before,
      gives the shape laid out at the new row, clipped. */
  lemma TranslateLayoutVertically(rows: seq<string>, x: int, y: int, dy: int, wasClipped: bool)
    ensures var before := if wasClipped then Clipped(Layout(rows, x, y)) else Layout(rows, x, y);
            Clipped(Shifted(before, 0, dy)) == Clipped(Layout(rows, x, y + dy))
  {
    var l := Layout(rows, x, y);
    ShiftedLayout(rows, x, y, 0, dy);
    if wasClipped {
      VerticalShiftCommutes(l, dy);
      ClippedIdempotent(Shifted(l, 0, dy));
    }
  }

  // ---------------------------------------------------------------------------------------------
  // The grid, updated in place

  /** A grid of glyphs. Only the list of glyphs and the number of rows it was built from are kept
      after construction. */
  class Matrix {
    var data: seq<Primitive>
    const height: nat

    /** Lays out the rows with the top-left corner at (x, y): one white glyph per character. */
    constructor (strings: seq<string>, x: int, y: int)
      ensures data == Layout(strings, x, y)
      ensures height == |strings|
    {
      var acc: seq<Primitive> := [];
      for i := 0 to |strings|
        invariant acc == Layout(strings[..i], x, y)
      {
        var j := x;
        var k := 0;
        while k < |strings[i]|
          invariant 0 <= k <= |strings[i]| && j == x + k
          invariant acc == Layout(strings[..i], x, y) + RowGlyphs(strings[i][..k], x, y + i)
        {
          acc := acc + [Primitive(j, i + y, strings[i][k], White)];
          j := j + 1;
          k := k + 1;
        }
        assert strings[..i + 1][..i] == strings[..i];
        assert strings[i][..k] == strings[i];
      }
      assert strings[..|strings|] == strings;
      data := acc;
      height := |strings|;
    }

    /** Moves every glyph by (dx, dy), then drops the glyphs left of the screen. */
    method Translate(dx: int, dy: int)
      modifies this
      ensures data == Clipped(Shifted(old(data), dx, dy))
    {
      var i := 0;
      while i < |data|
        invariant 0 <= i <= |data| == |old(data)|
        invariant forall k :: 0 <= k < i ==> data[k] == Moved(old(data)[k], dx, dy)
        invariant forall k :: i <= k < |data| ==> data[k] == old(data)[k]
      {
        data := data[i := Moved(data[i], dx, dy)];
        i := i + 1;
      }
      assert data == Shifted(old(data), dx, dy);
      Clear();
    }

    /** Drops the glyphs left of the screen, keeping the others in order. */
    method Clear()
      modifies this
      ensures data == Clipped(old(data))
    {
      var kept: seq<Primitive> := [];
      for i := 0 to |data|
        invariant kept == Clipped(data[..i])
      {
        assert data[..i + 1][..i] == data[..i];
        if data[i].x >= 0 {
          kept := kept + [data[i]];
        }
      }
      assert data[..|data|] == data;
      data := kept;
    }

    /** Paints a column after the existing glyphs: chars[i] in colors[i] at (x, y + i). */
    method Append(chars: seq<char>, colors: seq<Color>, x: int, y: int)
      requires |chars| <= |colors|
      modifies this
      ensures data == old(data) + Painted(chars, colors, x, y)
    {
      for i := 0 to |chars|
        invariant data == old(data) + Painted(chars[..i], colors, x, y)
      {
        data := data + [Primitive(x, y + i, chars[i], colors[i])];
      }
      assert chars[..|chars|] == chars;
    }
  }
}
