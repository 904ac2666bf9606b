/**
 * The wall: one column of bricks at the right edge of the screen with a four-row door in it,
 * scrolling one column left per tick until it has left the screen.
 */
module Walls {
  import opened Primitives
  import opened Matrices

  /** Rows of the door, the gap the character must pass through. */
  const DOOR_HEIGHT: nat := 4

  /** n one-character rows of bricks. */
  function Hashes(n: nat): seq<string>
  {
    seq(n, _ => "#")
  }

  /** The bricks of column c in rows [lo, hi), top to bottom. */
  function Bricks(c: int, lo: int, hi: int): seq<Primitive>
    requires lo <= hi
  {
    seq(hi - lo, i requires 0 <= i < hi - lo => Primitive(c, lo + i, '#', White))
  }

  /** A whole wall in column c of a playfield h rows high, with its door at rows [d, d + 4). */
  function WallGlyphs(c: int, h: int, d: nat): seq<Primitive>
    requires d + DOOR_HEIGHT <= h
  {
    Bricks(c, 0, d) + Bricks(c, d + DOOR_HEIGHT, h)
  }

  /** Laying out n brick rows from (c, y) gives the bricks of column c in rows [y, y + n). */
  lemma {:induction false} LayoutHashes(n: nat, c: int, y: int)
    ensures Layout(Hashes(n), c, y) == Bricks(c, y, y + n)
  {
    if n > 0 {
      assert Hashes(n)[..n - 1] == Hashes(n - 1);
      LayoutHashes(n - 1, c, y);
      assert Bricks(c, y, y + n) == Bricks(c, y, y + n - 1) + [Primitive(c, y + n - 1, '#', White)];
    }
  }

  /** The door invariant: a wall's glyphs are exactly the white bricks of its column in the
      playfield's rows, except the four door rows, which hold none. */
  lemma WallRows(c: int, h: int, d: nat, p: Primitive)
    requires d + DOOR_HEIGHT <= h
    ensures p in WallGlyphs(c, h, d) <==>
              && p.x == c && 0 <= p.y < h && !(d <= p.y < d + DOOR_HEIGHT)
              && p.ch == '#' && p.color == White
  {
    var top, bottom := Bricks(c, 0, d), Bricks(c, d + DOOR_HEIGHT, h);
    if p.x == c && 0 <= p.y < h && !(d <= p.y < d + DOOR_HEIGHT) && p.ch == '#' && p.color == White {
      if p.y < d {
        assert top[p.y] == p;
      } else {
        assert bottom[p.y - (d + DOOR_HEIGHT)] == p;
      }
    }
  }

  /** One scroll step moves a column of bricks one column left; the column at 0 leaves the screen. */
  lemma ScrollBricks(c: int, lo: int, hi: int)
    requires lo <= hi
    ensures Clipped(Shifted(Bricks(c, lo, hi), -1, 0)) == if c >= 1 then Bricks(c - 1, lo, hi) else []
  {
    assert Shifted(Bricks(c, lo, hi), -1, 0) == Bricks(c - 1, lo, hi);
    if c >= 1 {
      ClippedKeepsAll(Bricks(c - 1, lo, hi));
    } else {
      ClippedDropsAll(Bricks(c - 1, lo, hi));
    }
  }

  class Wall {
    const scrWidth: nat
    const scrHeight: nat
    const doors: nat
    const topPattern: seq<string>
    const bottomPattern: seq<string>
    const topMatrix: Matrix
    const bottomMatrix: Matrix
    /** How many times the wall has scrolled. */
    ghost var updates: nat

    /** The column the wall has reached: it starts at the right edge and moves left each update. */
    ghost function Column(): int
      reads this
    {
      scrWidth - 1 - updates
    }

    /** Before its first update the wall keeps its glyphs wherever it was built; after that it is
        on screen only while its column is not left of the screen. */
    ghost predicate OnScreen()
      reads this
    {
      updates == 0 || Column() >= 0
    }

    ghost predicate Valid()
      reads this, topMatrix, bottomMatrix
    {
      && topMatrix != bottomMatrix
      && doors + 5 < scrHeight
      && topMatrix.data == (if OnScreen() then Bricks(Column(), 0, doors) else [])
      && bottomMatrix.data == (if OnScreen() then Bricks(Column(), doors + DOOR_HEIGHT, scrHeight) else [])
    }

    /** A wall at the right edge of a width-by-height playfield with its door at row door; door
        stands for the game's random pick from [0, height - 5). */
    constructor (width: nat, height: nat, door: nat)
      requires door + 5 < height
      ensures Valid() && fresh(topMatrix) && fresh(bottomMatrix)
      ensures scrWidth == width && scrHeight == height && doors == door && updates == 0
      ensures Primitives() == WallGlyphs(width - 1, height, door)
    {
      scrWidth := width;
      scrHeight := height;
      var top, bottom := Generate(height, door);
      doors := door;
      topPattern := top;
      bottomPattern := bottom;
      topMatrix := new Matrix(top, width - 1, 0);
      bottomMatrix := new Matrix(bottom, width - 1, door + DOOR_HEIGHT);
      updates := 0;
      LayoutHashes(door, width - 1, 0);
      LayoutHashes(height - (door + DOOR_HEIGHT), width - 1, door + DOOR_HEIGHT);
    }

    /** The brick rows above the door and below it, for a door at row door. */
    static method Generate(height: nat, door: nat) returns (top: seq<string>, bottom: seq<string>)
      requires door + 5 < height
      ensures top == Hashes(door)
      ensures bottom == Hashes(height - (door + DOOR_HEIGHT))
    {
      top, bottom := [], [];
      for i := 0 to door
        invariant top == Hashes(i)
      {
        top := top + ["#"];
      }
      for i := door + DOOR_HEIGHT to height
        invariant bottom == Hashes(i - (door + DOOR_HEIGHT))
      {
        bottom := bottom + ["#"];
      }
    }

    /** Scrolls both segments one column left, dropping bricks that leave the screen; the wall is
        gone exactly when it has scrolled as many times as the screen is wide. */
    method Update()
      requires Valid()
      modifies this, topMatrix, bottomMatrix
      ensures Valid() && updates == old(updates) + 1
      ensures topMatrix.data == Clipped(Shifted(old(topMatrix.data), -1, 0))
      ensures bottomMatrix.data == Clipped(Shifted(old(bottomMatrix.data), -1, 0))
      ensures Primitives() == [] <==> updates >= scrWidth
    {
      ScrollBricks(Column(), 0, doors);
      ScrollBricks(Column(), doors + DOOR_HEIGHT, scrHeight);
      topMatrix.Translate(-1, 0);
      bottomMatrix.Translate(-1, 0);
      updates := updates + 1;
      if OnScreen() {
        assert Bricks(Column(), doors + DOOR_HEIGHT, scrHeight)[0] in Primitives();
      }
    }

    /** Both segments' glyphs: the wall's column with no brick in the door rows. */
    function Primitives(): (r: seq<Primitive>)
      requires Valid()
      reads this, topMatrix, bottomMatrix
      ensures r == [] || r == WallGlyphs(Column(), scrHeight, doors)
      ensures forall p :: p in r ==> p.x == Column() && 0 <= p.y < scrHeight && !(doors <= p.y < doors + DOOR_HEIGHT)
    {
      var r := topMatrix.data + bottomMatrix.data;
      assert forall p :: p in r ==> p in WallGlyphs(Column(), scrHeight, doors) by {
        if !OnScreen() { assert r == []; }
      }
      assert forall p :: p in WallGlyphs(Column(), scrHeight, doors) ==> p.x == Column() && 0 <= p.y < scrHeight && !(doors <= p.y < doors + DOOR_HEIGHT) by {
        forall p | p in WallGlyphs(Column(), scrHeight, doors)
          ensures p.x == Column() && 0 <= p.y < scrHeight && !(doors <= p.y < doors + DOOR_HEIGHT)
        {
          WallRows(Column(), scrHeight, doors, p);
        }
      }
      r
    }
  }

  // -----------------------------------------------------------------------------------------------
  // Wall construction as written: Matrix.new reads the length of the first row, so an empty list
  // of rows crashes it, and a wall whose door is at row 0 has an empty top segment.

  /** The outcome of building a grid: its glyphs, or the crash on an empty list of rows. */
  datatype Construction = Built(glyphs: seq<Primitive>) | Crashed

  /** Matrix.new as the game has it: no rows is a crash, otherwise the layout. */
  function MatrixNewAsWritten(strings: seq<string>, x: int, y: int): Construction
  {
    if strings == [] then Crashed else Built(Layout(strings, x, y))
  }

  /** Wall construction as the game has it, for a door at row door. */
  function WallAsWritten(width: nat, height: nat, door: nat): Construction
    requires door + 5 < height
  {
    match (MatrixNewAsWritten(Hashes(door), width - 1, 0),
           MatrixNewAsWritten(Hashes(height - (door + DOOR_HEIGHT)), width - 1, door + DOOR_HEIGHT))
    case (Built(top), Built(bottom)) => Built(top + bottom)
    case _ => Crashed
  }

  /** Row 0 is among the doors the game picks, and a wall with its door there crashes; every other
      door builds the intended wall. */
  lemma DoorZeroCrashes(width: nat, height: nat)
    requires 6 <= height
    ensures 0 + 5 < height && WallAsWritten(width, height, 0) == Crashed
    ensures forall door :: 1 <= door && door + 5 < height ==>
              WallAsWritten(width, height, door) == Built(WallGlyphs(width - 1, height, door))
  {
    forall door | 1 <= door && door + 5 < height
      ensures WallAsWritten(width, height, door) == Built(WallGlyphs(width - 1, height, door))
    {
      LayoutHashes(door, width - 1, 0);
      LayoutHashes(height - (door + DOOR_HEIGHT), width - 1, door + DOOR_HEIGHT);
    }
  }
}
