/**
 * Row-major grids: the cell (x, y) of a grid width cells wide is stored at
 * x + y * width. The clustering pass and the image drivers share these facts.
 */
module Grids {

  /** The number of 4-pixel blocks that cover pixels: Math.Ceiling(pixels / 4.0) as an int. */
  function BlocksAcross(pixels: int): (r: int)
    ensures 4 * r - 4 < pixels <= 4 * r
  {
    (pixels + 3) / 4
  }

  function Index(x: int, y: int, width: int): int
  {
    x + y * width
  }

  predicate InGrid(x: int, y: int, width: int, height: int)
  {
    0 <= x < width && 0 <= y < height
  }

  lemma IndexInRange(x: int, y: int, width: int, height: int)
    requires InGrid(x, y, width, height)
    ensures 0 <= Index(x, y, width) < width * height
  {
    assert y * width <= (height - 1) * width;
  }

  /** Two different pixels of a row-major grid have different indices. */
  lemma IndexDistinct(x1: int, y1: int, x2: int, y2: int, width: int)
    requires 0 <= x1 < width && 0 <= x2 < width && (x1 != x2 || y1 != y2)
    ensures Index(x1, y1, width) != Index(x2, y2, width)
  {
    if y1 < y2 {
      RowsApart(x1, y1, x2, y2, width);
    } else if y2 < y1 {
      RowsApart(x2, y2, x1, y1, width);
    }
  }

  lemma RowsApart(x1: int, y1: int, x2: int, y2: int, width: int)
    requires 0 <= x1 < width && 0 <= x2 && y1 < y2
    ensures Index(x1, y1, width) < Index(x2, y2, width)
  {
    assert y2 * width - (y1 + 1) * width == (y2 - y1 - 1) * width;
    assert (y2 - y1 - 1) * width >= 0;
    assert (y1 + 1) * width == y1 * width + width;
  }

  /** The start of the next row lies width entries further and still inside the map. */
  lemma NextRow(y: int, width: int, height: int)
    requires 0 <= y < height && width >= 0
    ensures (y + 1) * width == width + y * width <= height * width
  {
    assert height * width - (y + 1) * width == (height - y - 1) * width;
  }

  /** Pixel (x, y) of a grid of 4x4 tiles lies in tile (x / 4, y / 4), at texel (x % 4, y % 4). */
  lemma QuarterInGrid(x: int, y: int, width: int, height: int)
    requires InGrid(x, y, 4 * width, 4 * height)
    ensures InGrid(x / 4, y / 4, width, height)
    ensures 0 <= Index(x % 4, y % 4, 4) < 16
  {
  }

  lemma MulMonotone(a: int, b: int, c: nat)
    requires a <= b
    ensures a * c <= b * c
  {
    var d := b - a;
    assert b * c == a * c + d * c;
  }
}
