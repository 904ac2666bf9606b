/**
 * The game itself: one character and one wall in a width-by-height playfield, the tick that
 * advances them, recycles the wall and counts the walls passed, exact-cell collision between the
 * wall and the character's head, and the keys that steer the character.
 */
module Game {
  import opened Primitives
  import opened Matrices
  import opened Nyans
  import opened Walls

  // -----------------------------------------------------------------------------------------------
  // Commands

  /** What a key press asks the game to do. */
  datatype Command = MoveUp | MoveDown | Exit

  /** The key bindings: w and k move up, s and j move down, q quits; no other key does anything. */
  function InputMap(): (m: map<char, Command>)
    ensures m.Keys == {'w', 's', 'k', 'j', 'q'}
    ensures forall c :: c in m ==> (m[c] == MoveUp <==> c == 'w' || c == 'k')
    ensures forall c :: c in m ==> (m[c] == MoveDown <==> c == 's' || c == 'j')
    ensures forall c :: c in m ==> (m[c] == Exit <==> c == 'q')
  {
    map['w' := MoveUp, 's' := MoveDown, 'k' := MoveUp, 'j' := MoveDown, 'q' := Exit]
  }

  // -----------------------------------------------------------------------------------------------
  // Collision

  /** Some brick is in the same cell as some glyph. */
  predicate Collides(bricks: seq<Primitive>, glyphs: seq<Primitive>)
  {
    exists b, g :: b in bricks && g in glyphs && SameCell(b, g)
  }

  /** The cells a list of glyphs occupies. */
  function Cells(s: seq<Primitive>): set<(int, int)>
  {
    set p | p in s :: (p.x, p.y)
  }

  /** A collision is exactly a cell occupied by both lists; characters and colours play no part. */
  lemma CollidesIffSharedCell(bricks: seq<Primitive>, glyphs: seq<Primitive>)
    ensures Collides(bricks, glyphs) <==> Cells(bricks) * Cells(glyphs) != {}
  {
    if Collides(bricks, glyphs) {
      var b, g :| b in bricks && g in glyphs && SameCell(b, g);
      assert (b.x, b.y) in Cells(bricks) * Cells(glyphs);
    }
    if Cells(bricks) * Cells(glyphs) != {} {
      var c :| c in Cells(bricks) * Cells(glyphs);
      var b :| b in bricks && (b.x, b.y) == c;
      var g :| g in glyphs && (g.x, g.y) == c;
      assert SameCell(b, g);
    }
  }

  /** Searches the bricks, and for each the glyphs, for a brick and a glyph in the same cell;
      stops at the first such pair. */
  method FindCollision(bricks: seq<Primitive>, glyphs: seq<Primitive>) returns (hit: bool)
    ensures hit == Collides(bricks, glyphs)
  {
    for i := 0 to |bricks|
      invariant forall a, b :: 0 <= a < i && 0 <= b < |glyphs| ==> !SameCell(bricks[a], glyphs[b])
    {
      for j := 0 to |glyphs|
        invariant forall b :: 0 <= b < j ==> !SameCell(bricks[i], glyphs[b])
      {
        if bricks[i].y == glyphs[j].y && bricks[i].x == glyphs[j].x {
          assert bricks[i] in bricks && glyphs[j] in glyphs;
          return true;
        }
      }
    }
    return false;
  }

  // -----------------------------------------------------------------------------------------------
  // The wall counter and the score

  /** The wall counter and the score. */
  datatype Tally = Tally(counter: int, score: nat)

  /** One tick without a collision: once the counter has passed the screen width the wall is
      recycled, the score goes up and the counter restarts; the counter then advances. */
  function Advance(t: Tally, width: nat): (r: Tally)
    ensures r.score == t.score + 1 <==> t.counter > width
    ensures r.score >= t.score
    ensures 0 <= t.counter <= width + 1 ==> 1 <= r.counter <= width + 1
  {
    if t.counter > width then Tally(1, t.score + 1) else Tally(t.counter + 1, t.score)
  }

  /** k ticks without a collision. */
  function AdvanceBy(t: Tally, width: nat, k: nat): Tally
  {
    if k == 0 then t else Advance(AdvanceBy(t, width, k - 1), width)
  }

  /** A positive multiple of a positive number is at least that number. */
  lemma {:induction false} MultipleAtLeast(k: nat, n: nat)
    requires k >= 1
    ensures k * n >= n
  {
    if k > 1 {
      MultipleAtLeast(k - 1, n);
      assert k * n == (k - 1) * n + n;
    }
  }

  /** Division with remainder has one answer. */
  lemma DivModUnique(m: int, n: int, q: int, r: int)
    requires n > 0 && 0 <= r < n && m == q * n + r
    ensures m / n == q && m % n == r
  {
    var q', r' := m / n, m % n;
    assert m == q' * n + r';
    if q > q' {
      MultipleAtLeast(q - q', n);
    } else if q < q' {
      MultipleAtLeast(q' - q, n);
    }
  }

  /** How quotient and remainder change from m to m + 1. */
  lemma DivModNext(m: nat, n: nat)
    requires n > 0
    ensures (m + 1) % n == if m % n == n - 1 then 0 else m % n + 1
    ensures (m + 1) / n == if m % n == n - 1 then m / n + 1 else m / n
  {
    var q, r := m / n, m % n;
    if r == n - 1 {
      assert m + 1 == (q + 1) * n + 0;
      DivModUnique(m + 1, n, q + 1, 0);
    } else {
      assert m + 1 == q * n + (r + 1);
      DivModUnique(m + 1, n, q, r + 1);
    }
  }

  /** From a new game, after k >= 1 ticks without a collision the counter has cycled through
      1..width + 1 and the score is the number of completed cycles: the first wall is passed on
      tick width + 2 and every later one width + 1 ticks after the one before. */
  lemma {:induction false} AdvanceFromStart(width: nat, k: nat)
    requires k >= 1
    ensures AdvanceBy(Tally(0, 0), width, k) == Tally((k - 1) % (width + 1) + 1, (k - 1) / (width + 1))
  {
    if k > 1 {
      AdvanceFromStart(width, k - 1);
      DivModNext(k - 2, width + 1);
    }
  }

  // -----------------------------------------------------------------------------------------------
  // The game

  class NyanRush {
    const width: nat
    const height: nat
    const nyan: Nyan
    var wall: Wall
    var wallCounter: int
    var score: nat
    /** The game has stopped, by a collision or by the player quitting. */
    var ended: bool

    ghost predicate Valid()
      reads this, nyan.head, nyan.head.matrix, nyan.tail.matrix, wall, wall.topMatrix, wall.bottomMatrix
    {
      && nyan.Valid() && nyan.InPlayfield() && nyan.head.height == height
      && wall.Valid() && wall.scrWidth == width && wall.scrHeight == height
      && wall.topMatrix != nyan.head.matrix && wall.topMatrix != nyan.tail.matrix
      && wall.bottomMatrix != nyan.head.matrix && wall.bottomMatrix != nyan.tail.matrix
      && 0 <= wallCounter <= width + 1
      && Drawn(nyan.head.matrix.data, nyan.head.x, nyan.head.y)
    }

    /** A new game: the character centred, a wall at the right edge with its door at row door (the
        game's random pick from [0, height - 5)), no walls passed. */
    constructor (width: nat, height: nat, door: nat)
      requires door + 5 < height
      ensures Valid() && wallCounter == 0 && score == 0 && !ended
      ensures this.width == width && this.height == height
      ensures nyan.head.x == width / 2 - 6 && nyan.head.y == height / 2 - 2
      ensures wall.doors == door && wall.Column() == width - 1
      ensures nyan.head.matrix.data == Layout(HEAD_ART, nyan.head.x, nyan.head.y)
      ensures nyan.tail.matrix.data == []
    {
      this.width := width;
      this.height := height;
      wallCounter := 0;
      score := 0;
      ended := false;
      nyan := new Nyan(width / 2, height / 2, height);
      wall := new Wall(width, height, door);
    }

    /** Everything to draw: the character's glyphs, then the wall's; all in the playfield's rows. */
    function Objects(): (r: seq<Primitive>)
      requires Valid()
      reads this, nyan.head, nyan.head.matrix, nyan.tail.matrix, wall, wall.topMatrix, wall.bottomMatrix
      ensures WithinRows(r, 0, height)
    {
      nyan.Primitives() + wall.Primitives()
    }

    /** Whether the wall touches the head; the tail takes no part. */
    method Collision() returns (hit: bool)
      requires Valid()
      ensures hit == Collides(wall.Primitives(), nyan.head.Primitives())
    {
      hit := FindCollision(wall.Primitives(), nyan.head.Primitives());
    }

    /** Ends the game if the wall touches the head. */
    method CheckCollision()
      requires Valid()
      modifies this`ended
      ensures ended == (old(ended) || Collides(wall.Primitives(), nyan.head.Primitives()))
    {
      var hit := Collision();
      if hit {
        Exit();
      }
    }

    /** Ends the game. */
    method Exit()
      modifies this`ended
      ensures ended
    {
      ended := true;
    }

    /** One tick: the tail is regenerated and the wall scrolls; once the counter has passed the
        screen width the wall is replaced by a fresh one at the right edge and the score goes up;
        a collision of the (possibly new) wall with the head ends the game before the counter
        advances. */
    method Tick(door: nat)
      requires Valid() && !ended && door + 5 < height
      modifies this, nyan.tail.matrix, wall, wall.topMatrix, wall.bottomMatrix
      ensures Valid()
      ensures nyan.tail.matrix.data == Clipped(Shifted(old(nyan.tail.matrix.data), -1, 0)) + Painted(TAIL_PATTERN, TAIL_COLORS, nyan.head.x - 1, nyan.head.y)
      ensures var next := Advance(Tally(old(wallCounter), old(score)), width);
              score == next.score && wallCounter == next.counter - (if ended then 1 else 0)
      ensures old(wallCounter) > width ==> fresh(wall) && wall.doors == door && wall.Column() == width - 1
      ensures old(wallCounter) <= width ==> wall == old(wall) && wall.updates == old(wall.updates) + 1
      ensures ended == Collides(wall.Primitives(), nyan.head.Primitives())
      ensures !ended ==> 1 <= wallCounter <= width + 1
      ensures score >= old(score)
    {
      Move(door);
      CheckCollision();
      // On a collision the game stops inside the check, so the counter is not advanced.
      if !ended {
        wallCounter := wallCounter + 1;
      }
    }

    /** The moving part of a tick: the tail is regenerated, the wall scrolls and, once the counter
        has passed the screen width, is replaced by a fresh one while the score goes up. */
    method Move(door: nat)
      requires Valid() && !ended && door + 5 < height
      modifies this, nyan.tail.matrix, wall, wall.topMatrix, wall.bottomMatrix
      ensures Valid() && !ended && wallCounter <= width
      ensures nyan.tail.matrix.data == Clipped(Shifted(old(nyan.tail.matrix.data), -1, 0)) + Painted(TAIL_PATTERN, TAIL_COLORS, nyan.head.x - 1, nyan.head.y)
      ensures old(wallCounter) > width ==> wallCounter == 0 && score == old(score) + 1
      ensures old(wallCounter) <= width ==> wallCounter == old(wallCounter) && score == old(score)
      ensures old(wallCounter) > width ==> fresh(wall) && wall.doors == door && wall.Column() == width - 1
      ensures old(wallCounter) <= width ==> wall == old(wall) && wall.updates == old(wall.updates) + 1
    {
      UpdateNyan();
      UpdateWall();
      if wallCounter > width {
        Recycle(door);
      }
    }

    /** The tail is regenerated. */
    method UpdateNyan()
      requires Valid()
      modifies nyan.tail.matrix
      ensures Valid()
      ensures nyan.tail.matrix.data == Clipped(Shifted(old(nyan.tail.matrix.data), -1, 0)) + Painted(TAIL_PATTERN, TAIL_COLORS, nyan.head.x - 1, nyan.head.y)
    {
      nyan.Update();
    }

    /** The wall scrolls one column left. */
    method UpdateWall()
      requires Valid()
      modifies wall, wall.topMatrix, wall.bottomMatrix
      ensures Valid()
      ensures wall.updates == old(wall.updates) + 1
    {
      wall.Update();
    }

    /** A fresh wall at the right edge, with its door at row door; the score goes up and the
        counter restarts. */
    method Recycle(door: nat)
      requires Valid() && door + 5 < height
      modifies this
      ensures Valid() && ended == old(ended)
      ensures wallCounter == 0 && score == old(score) + 1
      ensures fresh(wall) && wall.doors == door && wall.Column() == width - 1
    {
      wallCounter := 0;
      score := score + 1;
      wall := new Wall(width, height, door);
    }

    /** Forwards an upward move to the character. */
    method MoveUp()
      requires Valid()
      modifies nyan.head, nyan.head.matrix
      ensures Valid()
      ensures old(nyan.head.y) > 0 ==>
                nyan.head.y == old(nyan.head.y) - 1 && nyan.head.matrix.data == Clipped(Shifted(old(nyan.head.matrix.data), 0, -1))
      ensures old(nyan.head.y) <= 0 ==> nyan.head.y == old(nyan.head.y) && nyan.head.matrix.data == old(nyan.head.matrix.data)
    {
      HeadMoveKeepsDrawn(nyan.head.matrix.data, nyan.head.x, nyan.head.y, -1);
      nyan.MoveUp();
    }

    /** Forwards a downward move to the character. */
    method MoveDown()
      requires Valid()
      modifies nyan.head, nyan.head.matrix
      ensures Valid()
      ensures old(nyan.head.y) + |HEAD_ART| < height ==>
                nyan.head.y == old(nyan.head.y) + 1 && nyan.head.matrix.data == Clipped(Shifted(old(nyan.head.matrix.data), 0, 1))
      ensures old(nyan.head.y) + |HEAD_ART| >= height ==> nyan.head.y == old(nyan.head.y) && nyan.head.matrix.data == old(nyan.head.matrix.data)
    {
      HeadMoveKeepsDrawn(nyan.head.matrix.data, nyan.head.x, nyan.head.y, 1);
      nyan.MoveDown();
    }
  }
}
