/**
 * The uncompressed 4x4 tile the encoders work on (BCnEnc.Net/Shared/RawBlocks.cs):
 * sixteen GorgonColor pixels in row-major order.
 */
module RawBlocks {

  /**
   * A GorgonColor: four float channels. The model only moves channels
   * around, so they are kept as reals.
   */
  datatype GorgonColor = GorgonColor(red: real, green: real, blue: real, alpha: real)

  /** default(GorgonColor): every channel 0. */
  const Transparent := GorgonColor(0.0, 0.0, 0.0, 0.0)

  class RawBlock4X4Rgba32 {
    /** The sixteen pixels, texel (x, y) at x + 4 * y. */
    const pixels: array<GorgonColor>

    predicate Valid()
    {
      pixels.Length == 16
    }

    /** new RawBlock4X4Rgba32(): sixteen default colours. */
    constructor()
      ensures Valid() && fresh(pixels)
      ensures forall i :: 0 <= i < 16 ==> pixels[i] == Transparent
    {
      pixels := new GorgonColor[16](i => Transparent);
    }

    /** The indexer's getter: texel (x, y). */
    function Get(x: int, y: int): GorgonColor
      requires Valid() && 0 <= x < 4 && 0 <= y < 4
      reads pixels
    {
      pixels[x + y * 4]
    }

    /** The indexer's setter: texel (x, y) becomes c, the other fifteen stay. */
    method Set(x: int, y: int, c: GorgonColor)
      requires Valid() && 0 <= x < 4 && 0 <= y < 4
      modifies pixels
      ensures pixels[..] == old(pixels[..])[x + y * 4 := c]
      ensures Get(x, y) == c
      ensures forall i, j :: 0 <= i < 4 && 0 <= j < 4 && (i != x || j != y) ==> Get(i, j) == old(Get(i, j))
    {
      pixels[x + y * 4] := c;
    }
  }
}
