/** What DXYN does to the screen, cell by cell: with X and Y other than F,
    every cell under a set sprite bit is flipped exactly once, every other
    cell is kept, and VF ends as 1 iff some flipped cell was set before. The
    8 x N sprite window never overlaps itself after wrapping, because 8 is
    less than the 64 columns and N (at most 15) is less than the 32 rows. */
module Sprites {
  import opened Bits
  import opened Display
  import opened Semantics

  /** Bit `col` (from the left) of sprite row `row` at `base`. */
  predicate Lit(mem: seq<Byte>, base: nat, row: nat, col: nat)
  {
    Bit7(Read(mem, base + row) * Pow2(col))
  }

  /** Pixel (r, c) is visited before pixel (row, col). */
  predicate Before(r: nat, c: nat, row: nat, col: nat)
  {
    r < row || (r == row && c < col)
  }

  /** Cell `k` lies under a set sprite bit visited before (row, col), for a
      sprite whose top-left corner is (vx, vy); rows are 8 pixels wide. */
  predicate Covered(mem: seq<Byte>, base: nat, vx: int, vy: int, row: nat, col: nat, k: int)
    requires col <= 8
    decreases row, col
  {
    if col == 0 then
      row > 0 && Covered(mem, base, vx, vy, row - 1, 8, k)
    else
      Covered(mem, base, vx, vy, row, col - 1, k) ||
      (Lit(mem, base, row, col - 1) && Location(vx + col - 1, vy + row) == k)
  }

  /** Some set sprite bit visited before (row, col) lands on a cell that is
      set in `bm`. */
  predicate Hit(mem: seq<Byte>, base: nat, vx: int, vy: int, bm: seq<int>, row: nat, col: nat)
    requires |bm| == Resolution && col <= 8
    decreases row, col
  {
    if col == 0 then
      row > 0 && Hit(mem, base, vx, vy, bm, row - 1, 8)
    else
      Hit(mem, base, vx, vy, bm, row, col - 1) ||
      (Lit(mem, base, row, col - 1) && bm[Location(vx + col - 1, vy + row)] == 1)
  }

  /** The canvas `c` is what drawing from `c0` gives once every pixel before
      (row, col) has been visited. */
  ghost predicate DrawnUpTo(c0: Canvas, c: Canvas, mem: seq<Byte>, base: nat, x: Nibble, y: Nibble, row: nat, col: nat)
    requires CanvasOk(c0) && CanvasOk(c) && col <= 8
  {
    var vx, vy := c0.v[x], c0.v[y];
    c.v == c0.v[Flag := if Hit(mem, base, vx, vy, c0.bitMap, row, col) then 1 else c0.v[Flag]] &&
    forall k :: 0 <= k < Resolution ==>
      c.bitMap[k] == if Covered(mem, base, vx, vy, row, col, k) then 1 - c0.bitMap[k] else c0.bitMap[k]
  }

  /** Two residues that agree and are less than the modulus apart are equal. */
  lemma {:induction false} CloseResidues(a: int, b: int, d: int)
    requires d == 64 || d == 32
    requires a % d == b % d && -d < a - b < d
    ensures a == b
  {
    var q := a / d - b / d;
    assert a - b == d * q;
  }

  /** Distinct pixels of an 8 x 16 window land on distinct cells. */
  lemma {:induction false} WindowInjective(vx: int, vy: int, r1: nat, c1: nat, r2: nat, c2: nat)
    requires c1 < 8 && c2 < 8 && r1 < 16 && r2 < 16
    requires Location(vx + c1, vy + r1) == Location(vx + c2, vy + r2)
    ensures r1 == r2 && c1 == c2
  {
    var l := Location(vx + c1, vy + r1);
    CloseResidues(vx + c1, vx + c2, Columns);
    assert (vy + r1) % Rows == l / Columns == (vy + r2) % Rows;
    CloseResidues(vy + r1, vy + r2, Rows);
  }

  /** A pixel not yet visited lands on a cell that no visited pixel covers. */
  lemma {:induction false} NotCoveredAhead(mem: seq<Byte>, base: nat, vx: int, vy: int, row: nat, col: nat, r: nat, c: nat)
    requires col <= 8 && row < 16 && r < 16 && c < 8 && !Before(r, c, row, col)
    ensures !Covered(mem, base, vx, vy, row, col, Location(vx + c, vy + r))
    decreases row, col
  {
    var l := Location(vx + c, vy + r);
    if col == 0 {
      if row > 0 {
        NotCoveredAhead(mem, base, vx, vy, row - 1, 8, r, c);
      }
    } else {
      NotCoveredAhead(mem, base, vx, vy, row, col - 1, r, c);
      if Location(vx + col - 1, vy + row) == l {
        WindowInjective(vx, vy, row, col - 1, r, c);
      }
    }
  }

  /** One visited pixel keeps `DrawnUpTo`. */
  lemma {:induction false} PixelStep(c0: Canvas, c: Canvas, mem: seq<Byte>, base: nat, x: Nibble, y: Nibble, row: nat, col: nat)
    requires CanvasOk(c0) && CanvasOk(c) && x != Flag && y != Flag && row < 16 && col < 8
    requires DrawnUpTo(c0, c, mem, base, x, y, row, col)
    ensures DrawnUpTo(c0, DrawPixel(c, mem, base, x, y, row, col), mem, base, x, y, row, col + 1)
  {
    var vx, vy := c0.v[x], c0.v[y];
    assert c.v[x] == vx && c.v[y] == vy;
    if Lit(mem, base, row, col) {
      NotCoveredAhead(mem, base, vx, vy, row, col, row, col);
    }
  }

  /** `DrawRow` visits the pixels of one row in order. */
  lemma {:induction false} RowCells(c0: Canvas, c: Canvas, mem: seq<Byte>, base: nat, x: Nibble, y: Nibble, row: nat, cols: nat)
    requires CanvasOk(c0) && CanvasOk(c) && x != Flag && y != Flag && row < 16 && cols <= 8
    requires DrawnUpTo(c0, c, mem, base, x, y, row, 0)
    ensures DrawnUpTo(c0, DrawRow(c, mem, base, x, y, row, cols), mem, base, x, y, row, cols)
    decreases cols
  {
    if cols > 0 {
      RowCells(c0, c, mem, base, x, y, row, cols - 1);
      PixelStep(c0, DrawRow(c, mem, base, x, y, row, cols - 1), mem, base, x, y, row, cols - 1);
    }
  }

  /** Having visited the whole of row `row` is having reached the start of
      the next one. */
  lemma RowBoundary(c0: Canvas, c: Canvas, mem: seq<Byte>, base: nat, x: Nibble, y: Nibble, row: nat)
    requires CanvasOk(c0) && CanvasOk(c)
    requires DrawnUpTo(c0, c, mem, base, x, y, row, 8)
    ensures DrawnUpTo(c0, c, mem, base, x, y, row + 1, 0)
  {
  }

  /** Before the first pixel, the canvas is the starting one. */
  lemma NothingDrawn(c0: Canvas, mem: seq<Byte>, base: nat, x: Nibble, y: Nibble)
    requires CanvasOk(c0)
    ensures DrawnUpTo(c0, c0, mem, base, x, y, 0, 0)
  {
    assert c0.v == c0.v[Flag := c0.v[Flag]];
  }

  /** `DrawSprite` visits the rows in order. */
  lemma {:induction false} SpriteCells(c0: Canvas, mem: seq<Byte>, base: nat, x: Nibble, y: Nibble, rows: nat)
    requires CanvasOk(c0) && x != Flag && y != Flag && rows <= 16
    ensures DrawnUpTo(c0, DrawSprite(c0, mem, base, x, y, rows), mem, base, x, y, rows, 0)
    decreases rows
  {
    if rows == 0 {
      NothingDrawn(c0, mem, base, x, y);
    } else {
      var before := DrawSprite(c0, mem, base, x, y, rows - 1);
      SpriteCells(c0, mem, base, x, y, rows - 1);
      RowCells(c0, before, mem, base, x, y, rows - 1, 8);
      RowBoundary(c0, DrawRow(before, mem, base, x, y, rows - 1, 8), mem, base, x, y, rows - 1);
    }
  }

  /** Some covered cell was set iff a set bit hit a set cell. */
  lemma {:induction false} HitIffCoveredSet(mem: seq<Byte>, base: nat, vx: int, vy: int, bm: seq<int>, row: nat, col: nat)
    requires IsBitmap(bm) && col <= 8
    ensures Hit(mem, base, vx, vy, bm, row, col) <==>
      exists k :: 0 <= k < Resolution && Covered(mem, base, vx, vy, row, col, k) && bm[k] == 1
    decreases row, col
  {
    if col == 0 {
      if row > 0 {
        HitIffCoveredSet(mem, base, vx, vy, bm, row - 1, 8);
      }
    } else {
      HitIffCoveredSet(mem, base, vx, vy, bm, row, col - 1);
      var l := Location(vx + col - 1, vy + row);
      if Lit(mem, base, row, col - 1) && bm[l] == 1 {
        assert Covered(mem, base, vx, vy, row, col, l);
      }
      if exists k :: 0 <= k < Resolution && Covered(mem, base, vx, vy, row, col, k) && bm[k] == 1 {
        var k :| 0 <= k < Resolution && Covered(mem, base, vx, vy, row, col, k) && bm[k] == 1;
        if !Covered(mem, base, vx, vy, row, col - 1, k) {
          assert k == l;
        }
      }
    }
  }

  /** Cell `k` lies under a set bit of the `n`-row sprite at `base` placed
      at (vx, vy), with wrap-around. */
  ghost predicate UnderSprite(mem: seq<Byte>, base: nat, vx: int, vy: int, n: nat, k: int)
  {
    exists r: nat, c: nat :: r < n && c < 8 && Lit(mem, base, r, c) && Location(vx + c, vy + r) == k
  }

  /** Some cell under the sprite is set in `bm`. */
  ghost predicate Collides(mem: seq<Byte>, base: nat, vx: int, vy: int, n: nat, bm: seq<int>)
    requires IsBitmap(bm)
  {
    exists k :: 0 <= k < Resolution && UnderSprite(mem, base, vx, vy, n, k) && bm[k] == 1
  }

  /** `Covered` up to (row, col) is the existence of a visited set bit on the cell. */
  lemma {:induction false} CoveredIff(mem: seq<Byte>, base: nat, vx: int, vy: int, row: nat, col: nat, k: int)
    requires col <= 8
    ensures Covered(mem, base, vx, vy, row, col, k) <==>
      exists r: nat, c: nat :: c < 8 && Before(r, c, row, col) && Lit(mem, base, r, c) && Location(vx + c, vy + r) == k
    decreases row, col
  {
    if col == 0 {
      if row > 0 {
        CoveredIff(mem, base, vx, vy, row - 1, 8, k);
        if exists r: nat, c: nat :: c < 8 && Before(r, c, row, 0) && Lit(mem, base, r, c) && Location(vx + c, vy + r) == k {
          var r: nat, c: nat :| c < 8 && Before(r, c, row, 0) && Lit(mem, base, r, c) && Location(vx + c, vy + r) == k;
          assert Before(r, c, row - 1, 8);
        }
      }
    } else {
      CoveredIff(mem, base, vx, vy, row, col - 1, k);
      if Lit(mem, base, row, col - 1) && Location(vx + col - 1, vy + row) == k {
        assert Before(row, col - 1, row, col);
      }
      if exists r: nat, c: nat :: c < 8 && Before(r, c, row, col) && Lit(mem, base, r, c) && Location(vx + c, vy + r) == k {
        var r: nat, c: nat :| c < 8 && Before(r, c, row, col) && Lit(mem, base, r, c) && Location(vx + c, vy + r) == k;
        if !(r == row && c == col - 1) {
          assert Before(r, c, row, col - 1);
        }
      }
    }
  }

  /** A whole sprite of `n` rows covers exactly the cells under it. */
  lemma CoveredUnder(mem: seq<Byte>, base: nat, vx: int, vy: int, n: nat, k: int)
    ensures Covered(mem, base, vx, vy, n, 0, k) == UnderSprite(mem, base, vx, vy, n, k)
  {
    CoveredIff(mem, base, vx, vy, n, 0, k);
    if Covered(mem, base, vx, vy, n, 0, k) {
      var r: nat, c: nat :| c < 8 && Before(r, c, n, 0) && Lit(mem, base, r, c) && Location(vx + c, vy + r) == k;
      assert r < n;
    }
    if UnderSprite(mem, base, vx, vy, n, k) {
      var r: nat, c: nat :| r < n && c < 8 && Lit(mem, base, r, c) && Location(vx + c, vy + r) == k;
      assert Before(r, c, n, 0);
    }
  }

  /** `DrawnUpTo` for a whole DXYN. */
  lemma DrawCovered(m: Machine, x: Nibble, y: Nibble, n: Nibble)
    requires Valid(m) && x != Flag && y != Flag
    ensures var r := ExecuteDraw(m, x, y, n);
      (forall k :: 0 <= k < Resolution ==>
        r.bitMap[k] == if Covered(m.memory, m.i, m.v[x], m.v[y], n, 0, k) then 1 - m.bitMap[k] else m.bitMap[k]) &&
      r.v == m.v[Flag := if Hit(m.memory, m.i, m.v[x], m.v[y], m.bitMap, n, 0) then 1 else 0] &&
      r == m.(v := r.v, bitMap := r.bitMap)
  {
    var c0 := Canvas(m.v[Flag := 0], m.bitMap);
    SpriteCells(c0, m.memory, m.i, x, y, n);
    assert c0.v[Flag := 0] == m.v[Flag := 0];
  }

  /** DXYN with X and Y other than F: the cells under the set bits of the
      N-row sprite at I, placed at (V[X], V[Y]) with wrap-around, are flipped
      and no other cell changes; VF becomes 1 iff one of those cells was set
      before, and nothing else in the machine changes. */
  lemma DrawCells(m: Machine, x: Nibble, y: Nibble, n: Nibble)
    requires Valid(m) && x != Flag && y != Flag
    ensures var r := ExecuteDraw(m, x, y, n);
      (forall k :: 0 <= k < Resolution ==>
        r.bitMap[k] == if UnderSprite(m.memory, m.i, m.v[x], m.v[y], n, k) then 1 - m.bitMap[k] else m.bitMap[k]) &&
      r.v == m.v[Flag := if Collides(m.memory, m.i, m.v[x], m.v[y], n, m.bitMap) then 1 else 0] &&
      r == m.(v := r.v, bitMap := r.bitMap)
  {
    var vx, vy := m.v[x], m.v[y];
    DrawCovered(m, x, y, n);
    HitIffCoveredSet(m.memory, m.i, vx, vy, m.bitMap, n, 0);
    forall k | 0 <= k < Resolution
      ensures Covered(m.memory, m.i, vx, vy, n, 0, k) == UnderSprite(m.memory, m.i, vx, vy, n, k)
    {
      CoveredUnder(m.memory, m.i, vx, vy, n, k);
    }
    var hit := Hit(m.memory, m.i, vx, vy, m.bitMap, n, 0);
    var any := Collides(m.memory, m.i, vx, vy, n, m.bitMap);
    assert hit == any by {
      if hit {
        var k :| 0 <= k < Resolution && Covered(m.memory, m.i, vx, vy, n, 0, k) && m.bitMap[k] == 1;
        assert UnderSprite(m.memory, m.i, vx, vy, n, k);
      }
      if any {
        var k :| 0 <= k < Resolution && UnderSprite(m.memory, m.i, vx, vy, n, k) && m.bitMap[k] == 1;
        assert Covered(m.memory, m.i, vx, vy, n, 0, k);
      }
    }
  }

  /** The collision flag of DXYN (X, Y other than F) is 1 iff the draw
      erased a cell that was set, and 0 otherwise. */
  lemma CollisionIffErased(m: Machine, x: Nibble, y: Nibble, n: Nibble)
    requires Valid(m) && x != Flag && y != Flag
    ensures var r := ExecuteDraw(m, x, y, n);
      (r.v[Flag] == 1 <==> exists k :: 0 <= k < Resolution && m.bitMap[k] == 1 && r.bitMap[k] == 0) &&
      (r.v[Flag] == 0 || r.v[Flag] == 1)
  {
    var r := ExecuteDraw(m, x, y, n);
    DrawCells(m, x, y, n);
    if exists k :: 0 <= k < Resolution && m.bitMap[k] == 1 && r.bitMap[k] == 0 {
      var k :| 0 <= k < Resolution && m.bitMap[k] == 1 && r.bitMap[k] == 0;
      assert UnderSprite(m.memory, m.i, m.v[x], m.v[y], n, k);
    }
  }

  /** Drawing the same sprite twice at the same place (X, Y other than F)
      restores the screen: this is how CHIP-8 programs erase a sprite. */
  lemma DrawTwiceRestores(m: Machine, x: Nibble, y: Nibble, n: Nibble)
    requires Valid(m) && x != Flag && y != Flag
    ensures ExecuteDraw(ExecuteDraw(m, x, y, n), x, y, n).bitMap == m.bitMap
  {
    var once := ExecuteDraw(m, x, y, n);
    var twice := ExecuteDraw(once, x, y, n);
    DrawCells(m, x, y, n);
    DrawCells(once, x, y, n);
    assert once.v[x] == m.v[x] && once.v[y] == m.v[y];
    assert forall k :: 0 <= k < Resolution ==> twice.bitMap[k] == m.bitMap[k];
  }
}
