/** The monochrome framebuffer of the emulator (src/screen.ts): a row-major
    bitmap of 64 x 32 cells, each 0 or 1, drawn into by XOR with wrap-around. */
module Display {
  import opened Bits

  const Columns: int := 64
  const Rows: int := 32
  const Resolution: int := Rows * Columns

  /** What the screen's `bitMap` always is: `Resolution` cells, each 0 or 1. */
  ghost predicate IsBitmap(bm: seq<int>)
  {
    |bm| == Resolution && forall k :: 0 <= k < |bm| ==> bm[k] == 0 || bm[k] == 1
  }

  /** `new Array(resolution).fill(0)`. */
  function Blank(): (bm: seq<int>)
    ensures IsBitmap(bm)
    ensures forall k :: 0 <= k < |bm| ==> bm[k] == 0
  {
    seq(Resolution, _ => 0)
  }

  /** The cell index that `setPixel(x, y)` touches: the coordinates are first
      wrapped into the screen, then laid out row by row. */
  function Location(x: int, y: int): (loc: int)
    ensures 0 <= loc < Resolution
    ensures loc % Columns == x % Columns && loc / Columns == y % Rows
  {
    x % Columns + Columns * (y % Rows)
  }

  /** The bitmap after one `setPixel`, and the value `setPixel` returns. */
  datatype Plot = Plot(bitMap: seq<int>, collided: bool)

  /** `setPixel(x, y)` on a value: XOR the wrapped cell with 1 and report
      whether it is 0 afterwards. Exactly that one cell flips, and the report
      is true iff the cell was set before the call. */
  function XorPixel(bm: seq<int>, x: int, y: int): (r: Plot)
    requires IsBitmap(bm)
    ensures IsBitmap(r.bitMap)
    ensures r.bitMap[Location(x, y)] == 1 - bm[Location(x, y)]
    ensures forall k :: 0 <= k < Resolution && k != Location(x, y) ==> r.bitMap[k] == bm[k]
    ensures r.collided <==> bm[Location(x, y)] == 1
  {
    var loc := Location(x, y);
    var cell := Xor(bm[loc], 1);
    Plot(bm[loc := cell], cell == 0)
  }

  /** Coordinates wrap: one screen width to the right or one screen height
      down names the same cell, and (-1, -1) is the bottom-right cell. */
  lemma LocationWraps(x: int, y: int)
    ensures Location(x + Columns, y) == Location(x, y)
    ensures Location(x, y + Rows) == Location(x, y)
    ensures Location(-1, -1) == Resolution - 1
  {
  }

  /** Setting the same pixel twice restores the bitmap, and exactly one of
      the two calls reports a collision. */
  lemma XorPixelTwice(bm: seq<int>, x: int, y: int)
    requires IsBitmap(bm)
    ensures XorPixel(XorPixel(bm, x, y).bitMap, x, y).bitMap == bm
    ensures XorPixel(bm, x, y).collided != XorPixel(XorPixel(bm, x, y).bitMap, x, y).collided
  {
    var once := XorPixel(bm, x, y);
    var twice := XorPixel(once.bitMap, x, y);
    assert forall k :: 0 <= k < Resolution ==> twice.bitMap[k] == bm[k];
  }

  /** The screen object: its `bitMap` is replaced by `clear` and updated in
      place by `setPixel`. */
  class Screen {
    var bitMap: seq<int>

    ghost predicate Valid()
      reads this
    {
      IsBitmap(bitMap)
    }

    constructor ()
      ensures Valid() && bitMap == Blank()
    {
      bitMap := Blank();
    }

    /** Every cell becomes 0. */
    method Clear()
      modifies this
      ensures Valid() && bitMap == Blank()
    {
      bitMap := Blank();
    }

    /** The private `overflow`: wrap a coordinate pair into the screen by
        repeatedly adding or subtracting the screen's width and height. */
    method Overflow(x: int, y: int) returns (wx: int, wy: int)
      ensures 0 <= wx < Columns && wx % Columns == x % Columns
      ensures 0 <= wy < Rows && wy % Rows == y % Rows
    {
      wx, wy := x, y;
      while wx > Columns - 1
        invariant wx % Columns == x % Columns
        decreases wx
      {
        wx := wx - Columns;
      }
      while wx < 0
        invariant wx <= Columns - 1 && wx % Columns == x % Columns
        decreases -wx
      {
        wx := wx + Columns;
      }
      while wy > Rows - 1
        invariant wy % Rows == y % Rows
        decreases wy
      {
        wy := wy - Rows;
      }
      while wy < 0
        invariant wy <= Rows - 1 && wy % Rows == y % Rows
        decreases -wy
      {
        wy := wy + Rows;
      }
    }

    /** Toggle the cell at the wrapped coordinates and report whether it went
        from set to clear. */
    method SetPixel(x: int, y: int) returns (collided: bool)
      requires Valid()
      modifies this
      ensures Valid()
      ensures Plot(bitMap, collided) == XorPixel(old(bitMap), x, y)
    {
      var wx, wy := Overflow(x, y);
      var location := wx + wy * Columns;
      bitMap := bitMap[location := Xor(bitMap[location], 1)];
      collided := bitMap[location] == 0;
    }
  }
}
