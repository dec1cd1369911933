/**
 * The encoding driver (BCnEnc.Net/Encoder/BcEncoder.cs): picks the block
 * encoder for a compressed format and cuts the source image into 4x4
 * blocks, replicating the last real row and column into the padding of
 * the bottom and right blocks.
 */
module BcEncoders {
  import opened Results
  import opened Grids
  import opened BufferFormats
  import opened RawBlocks

  /** The IBcBlockEncoder implementations; Bc4BlockEncoder carries its luminanceAsRed flag. */
  datatype BlockEncoder =
    | Bc1AlphaBlockEncoder | Bc1BlockEncoder | Bc2BlockEncoder | Bc3BlockEncoder
    | Bc4BlockEncoder(luminanceAsRed: bool)
    | Bc5BlockEncoder | Bc7Encoder

  /** BcEncoder.GetEncoder: the block encoder of a format, or null (None) for formats without one. */
  function GetEncoder(format: BufferFormat, includeAlpha: bool, luminanceAsRed: bool): (r: Option<BlockEncoder>)
    ensures r.None? <==> !format.IsBlockCompressed()
    ensures format.IsBc1() ==> (r == Some(Bc1AlphaBlockEncoder) <==> includeAlpha)
    ensures r == Some(Bc1AlphaBlockEncoder) ==> format.IsBc1() && includeAlpha
    ensures r.Some? && r.value.Bc4BlockEncoder? ==> r.value.luminanceAsRed == luminanceAsRed
  {
    match format
    case BC1_UNorm | BC1_UNorm_SRgb => Some(if includeAlpha then Bc1AlphaBlockEncoder else Bc1BlockEncoder)
    case BC2_UNorm | BC2_UNorm_SRgb => Some(Bc2BlockEncoder)
    case BC3_UNorm | BC3_UNorm_SRgb => Some(Bc3BlockEncoder)
    case BC4_UNorm | BC4_SNorm => Some(Bc4BlockEncoder(luminanceAsRed))
    case BC5_UNorm | BC5_SNorm => Some(Bc5BlockEncoder)
    case BC7_UNorm | BC7_UNorm_SRgb => Some(Bc7Encoder)
    case _ => None
  }

  // ---------------------------------------------------------------------
  // Source pixels.
  // ---------------------------------------------------------------------

  /**
   * The colour of pixel (x, y) of the source image: GorgonColor.FromABGR
   * for the R8G8B8A8 layouts and the GorgonColor(int) constructor for the
   * B8G8R8 ones. Both conversions belong to the graphics library and are
   * parameters here.
   */
  function SourceColor(image: seq<int>, format: BufferFormat, width: int, height: int, x: int, y: int,
                       fromAbgr: int -> GorgonColor, fromArgb: int -> GorgonColor): GorgonColor
    requires format.IsRgba8() && InGrid(x, y, width, height) && |image| >= width * height
  {
    IndexInRange(x, y, width, height);
    var pixel := image[Index(x, y, width)];
    if format == R8G8B8A8_UNorm || format == R8G8B8A8_UNorm_SRgb then fromAbgr(pixel) else fromArgb(pixel)
  }

  /** The last real row or column at or before v, for an image size pixels long. */
  function Edge(v: int, size: int): int
  {
    if v < size then v else size - 1
  }

  // ---------------------------------------------------------------------
  // The block array, seen as an image of 4 * blocksWidth x 4 * blocksHeight pixels.
  // ---------------------------------------------------------------------

  /** The rented block array after initialisation: every slot a block of its own. */
  predicate BlocksValid(blocks: array<RawBlock4X4Rgba32?>)
    reads blocks
  {
    (forall k :: 0 <= k < blocks.Length ==> blocks[k] != null && blocks[k].Valid()) &&
    (forall k, l :: 0 <= k < blocks.Length && 0 <= l < blocks.Length && k != l ==>
       blocks[k] != null && blocks[l] != null && blocks[k].pixels != blocks[l].pixels)
  }

  /** The pixel arrays of the blocks. */
  function PixelArrays(blocks: array<RawBlock4X4Rgba32?>): set<array<GorgonColor>>
    reads blocks
  {
    set k | 0 <= k < blocks.Length && blocks[k] != null :: blocks[k].pixels
  }

  /** Pixel (x, y): texel (x % 4, y % 4) of block x / 4 + (y / 4) * blocksWidth. */
  function At(blocks: array<RawBlock4X4Rgba32?>, blocksWidth: int, blocksHeight: int, x: int, y: int): GorgonColor
    requires BlocksValid(blocks) && blocks.Length == blocksWidth * blocksHeight
    requires InGrid(x, y, 4 * blocksWidth, 4 * blocksHeight)
    reads blocks, PixelArrays(blocks)
  {
    QuarterInGrid(x, y, blocksWidth, blocksHeight);
    IndexInRange(x / 4, y / 4, blocksWidth, blocksHeight);
    blocks[Index(x / 4, y / 4, blocksWidth)].Get(x % 4, y % 4)
  }

  /** Every texel of every block is some pixel (x, y): the block array holds nothing At does not describe. */
  lemma EveryTexelIsAPixel(blocksWidth: int, blocksHeight: int, k: int, i: int, j: int)
    requires 0 <= blocksWidth && 0 <= blocksHeight
    requires 0 <= k < blocksWidth * blocksHeight && 0 <= i < 4 && 0 <= j < 4
    ensures var x, y := 4 * (k % blocksWidth) + i, 4 * (k / blocksWidth) + j;
      InGrid(x, y, 4 * blocksWidth, 4 * blocksHeight) &&
      Index(x / 4, y / 4, blocksWidth) == k && x % 4 == i && y % 4 == j
  {
    var col, row := k % blocksWidth, k / blocksWidth;
    assert k == col + row * blocksWidth;
    var x, y := 4 * col + i, 4 * row + j;
    assert x / 4 == col && x % 4 == i;
    assert y / 4 == row && y % 4 == j;
  }

  // ---------------------------------------------------------------------
  // ImageTo4X4.
  // ---------------------------------------------------------------------

  /** Writes one source pixel into its block: block[x % 4, y % 4] of output[x / 4 + (y / 4) * blocksWidth]. */
  method PlacePixel(output: array<RawBlock4X4Rgba32?>, blocksWidth: int, blocksHeight: int, x: int, y: int, color: GorgonColor)
    requires BlocksValid(output) && output.Length == blocksWidth * blocksHeight
    requires InGrid(x, y, 4 * blocksWidth, 4 * blocksHeight)
    modifies PixelArrays(output)
    ensures BlocksValid(output)
    ensures forall i, j :: InGrid(i, j, 4 * blocksWidth, 4 * blocksHeight) ==>
      At(output, blocksWidth, blocksHeight, i, j) == if i == x && j == y then color else old(At(output, blocksWidth, blocksHeight, i, j))
  {
    QuarterInGrid(x, y, blocksWidth, blocksHeight);
    IndexInRange(x / 4, y / 4, blocksWidth, blocksHeight);
    var index := x / 4 + (y / 4) * blocksWidth;
    var block := output[index];
    block.Set(x % 4, y % 4, color);
    forall i, j | InGrid(i, j, 4 * blocksWidth, 4 * blocksHeight)
      ensures At(output, blocksWidth, blocksHeight, i, j) == if i == x && j == y then color else old(At(output, blocksWidth, blocksHeight, i, j))
    {
      QuarterInGrid(i, j, blocksWidth, blocksHeight);
      IndexInRange(i / 4, j / 4, blocksWidth, blocksHeight);
      if Index(i / 4, j / 4, blocksWidth) == index {
        if i / 4 != x / 4 || j / 4 != y / 4 {
          IndexDistinct(i / 4, j / 4, x / 4, y / 4, blocksWidth);
        }
      }
    }
  }

  /** The inner loop of ImageTo4X4's first pass: the pixels of row y. */
  method PlaceRow(output: array<RawBlock4X4Rgba32?>, image: seq<int>, format: BufferFormat, width: int, height: int,
                  blocksWidth: int, blocksHeight: int, y: int, fromAbgr: int -> GorgonColor, fromArgb: int -> GorgonColor)
    requires format.IsRgba8() && 0 <= width && 0 <= y < height && |image| >= width * height
    requires width <= 4 * blocksWidth && height <= 4 * blocksHeight
    requires BlocksValid(output) && output.Length == blocksWidth * blocksHeight
    modifies PixelArrays(output)
    ensures BlocksValid(output)
    ensures forall i, j :: InGrid(i, j, 4 * blocksWidth, 4 * blocksHeight) ==>
      At(output, blocksWidth, blocksHeight, i, j) ==
        if j == y && i < width then SourceColor(image, format, width, height, i, j, fromAbgr, fromArgb)
        else old(At(output, blocksWidth, blocksHeight, i, j))
  {
    for x := 0 to width
      invariant BlocksValid(output)
      invariant forall i, j :: InGrid(i, j, 4 * blocksWidth, 4 * blocksHeight) ==>
        At(output, blocksWidth, blocksHeight, i, j) ==
          if j == y && i < x then SourceColor(image, format, width, height, i, j, fromAbgr, fromArgb)
          else old(At(output, blocksWidth, blocksHeight, i, j))
    {
      PlacePixel(output, blocksWidth, blocksHeight, x, y, SourceColor(image, format, width, height, x, y, fromAbgr, fromArgb));
    }
  }

  /** Replicates row start - 1 of a block into rows start .. 3 (the inner loops of the row padding). */
  method PadBlockRows(block: RawBlock4X4Rgba32, start: int)
    requires block.Valid() && 1 <= start < 4
    modifies block.pixels
    ensures forall i, j :: 0 <= i < 4 && 0 <= j < 4 ==> block.Get(i, j) == old(block.Get(i, Edge(j, start)))
  {
    for y := start to 4
      invariant forall i, j :: 0 <= i < 4 && 0 <= j < 4 ==> block.Get(i, j) == old(block.Get(i, if j < y then Edge(j, start) else j))
    {
      for x := 0 to 4
        invariant forall i, j :: 0 <= i < 4 && 0 <= j < 4 ==>
          block.Get(i, j) == old(block.Get(i, if j < y || (j == y && i < x) then Edge(j, start) else j))
      {
        block.Set(x, y, block.Get(x, y - 1));
      }
    }
  }

  /** Replicates column start - 1 of a block into columns start .. 3 (the inner loops of the column padding). */
  method PadBlockColumns(block: RawBlock4X4Rgba32, start: int)
    requires block.Valid() && 1 <= start < 4
    modifies block.pixels
    ensures forall i, j :: 0 <= i < 4 && 0 <= j < 4 ==> block.Get(i, j) == old(block.Get(Edge(i, start), j))
  {
    for x := start to 4
      invariant forall i, j :: 0 <= i < 4 && 0 <= j < 4 ==> block.Get(i, j) == old(block.Get(if i < x then Edge(i, start) else i, j))
    {
      for y := 0 to 4
        invariant forall i, j :: 0 <= i < 4 && 0 <= j < 4 ==>
          block.Get(i, j) == old(block.Get(if i < x || (i == x && j < y) then Edge(i, start) else i, j))
      {
        block.Set(x, y, block.Get(x - 1, y));
      }
    }
  }

  /** The outer loop of ImageTo4X4's first pass: every pixel of the image into its block. */
  method PlacePixels(output: array<RawBlock4X4Rgba32?>, image: seq<int>, format: BufferFormat, width: int, height: int,
                     blocksWidth: int, blocksHeight: int, fromAbgr: int -> GorgonColor, fromArgb: int -> GorgonColor)
    requires format.IsRgba8() && 0 <= width && 0 <= height && |image| >= width * height
    requires width <= 4 * blocksWidth && height <= 4 * blocksHeight
    requires BlocksValid(output) && output.Length == blocksWidth * blocksHeight
    modifies PixelArrays(output)
    ensures BlocksValid(output)
    ensures forall i, j :: InGrid(i, j, 4 * blocksWidth, 4 * blocksHeight) ==>
      At(output, blocksWidth, blocksHeight, i, j) ==
        if i < width && j < height then SourceColor(image, format, width, height, i, j, fromAbgr, fromArgb)
        else old(At(output, blocksWidth, blocksHeight, i, j))
  {
    for y := 0 to height
      invariant BlocksValid(output)
      invariant forall i, j :: InGrid(i, j, 4 * blocksWidth, 4 * blocksHeight) ==>
        At(output, blocksWidth, blocksHeight, i, j) ==
          if i < width && j < y then SourceColor(image, format, width, height, i, j, fromAbgr, fromArgb)
          else old(At(output, blocksWidth, blocksHeight, i, j))
    {
      PlaceRow(output, image, format, width, height, blocksWidth, blocksHeight, y, fromAbgr, fromArgb);
    }
  }

  /** Where a row (or column) v of the last block row (column) of an image size pixels long takes its padding from. */
  lemma LastBlock(v: int, size: int, blocks: int)
    requires 0 <= size && size % 4 != 0 && blocks == BlocksAcross(size) && 0 <= v < 4 * blocks
    ensures 0 <= Edge(v, size) <= v
    ensures v / 4 == blocks - 1 ==> Edge(v, size) / 4 == blocks - 1 && Edge(v, size) % 4 == Edge(v % 4, size % 4)
    ensures v / 4 != blocks - 1 ==> Edge(v, size) == v
  {
  }

  /** One block of the row padding: block i of the bottom block row gets rows height % 4 .. 3 from row height % 4 - 1. */
  method PadBottomBlock(output: array<RawBlock4X4Rgba32?>, height: int, blocksWidth: int, blocksHeight: int, i: int)
    requires 0 <= height && height % 4 != 0 && blocksHeight == BlocksAcross(height) && 0 <= i < blocksWidth
    requires BlocksValid(output) && output.Length == blocksWidth * blocksHeight
    modifies PixelArrays(output)
    ensures BlocksValid(output)
    ensures forall x, y :: InGrid(x, y, 4 * blocksWidth, 4 * blocksHeight) ==>
      0 <= Edge(y, height) < 4 * blocksHeight &&
      At(output, blocksWidth, blocksHeight, x, y) ==
        old(At(output, blocksWidth, blocksHeight, x, if x / 4 == i then Edge(y, height) else y))
  {
    IndexInRange(i, blocksHeight - 1, blocksWidth, blocksHeight);
    var last := i + blocksWidth * (blocksHeight - 1);
    assert last == Index(i, blocksHeight - 1, blocksWidth);
    var lastBlock := output[last];
    PadBlockRows(lastBlock, height % 4);
    forall x, y | InGrid(x, y, 4 * blocksWidth, 4 * blocksHeight)
      ensures 0 <= Edge(y, height) < 4 * blocksHeight
      ensures At(output, blocksWidth, blocksHeight, x, y) ==
        old(At(output, blocksWidth, blocksHeight, x, if x / 4 == i then Edge(y, height) else y))
    {
      LastBlock(y, height, blocksHeight);
      QuarterInGrid(x, y, blocksWidth, blocksHeight);
      IndexInRange(x / 4, y / 4, blocksWidth, blocksHeight);
      var k := Index(x / 4, y / 4, blocksWidth);
      if x / 4 == i && y / 4 == blocksHeight - 1 {
        assert k == last;
        assert At(output, blocksWidth, blocksHeight, x, y) == lastBlock.Get(x % 4, y % 4);
        assert old(At(output, blocksWidth, blocksHeight, x, Edge(y, height))) ==
          old(lastBlock.Get(x % 4, Edge(y % 4, height % 4)));
      } else {
        IndexDistinct(x / 4, y / 4, i, blocksHeight - 1, blocksWidth);
        assert k != last;
        assert At(output, blocksWidth, blocksHeight, x, y) == old(At(output, blocksWidth, blocksHeight, x, y));
      }
    }
  }

  /** The row padding of ImageTo4X4: rows height .. 4 * blocksHeight - 1 repeat row height - 1. */
  method PadBottomRow(output: array<RawBlock4X4Rgba32?>, height: int, blocksWidth: int, blocksHeight: int)
    requires 0 <= height && height % 4 != 0 && blocksHeight == BlocksAcross(height) && 0 <= blocksWidth
    requires BlocksValid(output) && output.Length == blocksWidth * blocksHeight
    modifies PixelArrays(output)
    ensures BlocksValid(output)
    ensures forall x, y :: InGrid(x, y, 4 * blocksWidth, 4 * blocksHeight) ==>
      0 <= Edge(y, height) < 4 * blocksHeight &&
      At(output, blocksWidth, blocksHeight, x, y) == old(At(output, blocksWidth, blocksHeight, x, Edge(y, height)))
  {
    for i := 0 to blocksWidth
      invariant BlocksValid(output)
      invariant forall x, y :: InGrid(x, y, 4 * blocksWidth, 4 * blocksHeight) ==>
        0 <= Edge(y, height) < 4 * blocksHeight &&
        At(output, blocksWidth, blocksHeight, x, y) ==
          old(At(output, blocksWidth, blocksHeight, x, if x / 4 < i then Edge(y, height) else y))
    {
      PadBottomBlock(output, height, blocksWidth, blocksHeight, i);
    }
  }

  /** One block of the column padding: block i of the right block column gets columns width % 4 .. 3 from column width % 4 - 1. */
  method PadRightBlock(output: array<RawBlock4X4Rgba32?>, width: int, blocksWidth: int, blocksHeight: int, i: int)
    requires 0 <= width && width % 4 != 0 && blocksWidth == BlocksAcross(width) && 0 <= i < blocksHeight
    requires BlocksValid(output) && output.Length == blocksWidth * blocksHeight
    modifies PixelArrays(output)
    ensures BlocksValid(output)
    ensures forall x, y :: InGrid(x, y, 4 * blocksWidth, 4 * blocksHeight) ==>
      0 <= Edge(x, width) < 4 * blocksWidth &&
      At(output, blocksWidth, blocksHeight, x, y) ==
        old(At(output, blocksWidth, blocksHeight, if y / 4 == i then Edge(x, width) else x, y))
  {
    IndexInRange(blocksWidth - 1, i, blocksWidth, blocksHeight);
    var last := blocksWidth - 1 + i * blocksWidth;
    assert last == Index(blocksWidth - 1, i, blocksWidth);
    var lastBlock := output[last];
    PadBlockColumns(lastBlock, width % 4);
    forall x, y | InGrid(x, y, 4 * blocksWidth, 4 * blocksHeight)
      ensures 0 <= Edge(x, width) < 4 * blocksWidth
      ensures At(output, blocksWidth, blocksHeight, x, y) ==
        old(At(output, blocksWidth, blocksHeight, if y / 4 == i then Edge(x, width) else x, y))
    {
      LastBlock(x, width, blocksWidth);
      QuarterInGrid(x, y, blocksWidth, blocksHeight);
      IndexInRange(x / 4, y / 4, blocksWidth, blocksHeight);
      var k := Index(x / 4, y / 4, blocksWidth);
      if x / 4 == blocksWidth - 1 && y / 4 == i {
        assert k == last;
        assert At(output, blocksWidth, blocksHeight, x, y) == lastBlock.Get(x % 4, y % 4);
        assert old(At(output, blocksWidth, blocksHeight, Edge(x, width), y)) ==
          old(lastBlock.Get(Edge(x % 4, width % 4), y % 4));
      } else {
        IndexDistinct(x / 4, y / 4, blocksWidth - 1, i, blocksWidth);
        assert k != last;
        assert At(output, blocksWidth, blocksHeight, x, y) == old(At(output, blocksWidth, blocksHeight, x, y));
      }
    }
  }

  /** The column padding of ImageTo4X4: columns width .. 4 * blocksWidth - 1 repeat column width - 1. */
  method PadRightColumn(output: array<RawBlock4X4Rgba32?>, width: int, blocksWidth: int, blocksHeight: int)
    requires 0 <= width && width % 4 != 0 && blocksWidth == BlocksAcross(width) && 0 <= blocksHeight
    requires BlocksValid(output) && output.Length == blocksWidth * blocksHeight
    modifies PixelArrays(output)
    ensures BlocksValid(output)
    ensures forall x, y :: InGrid(x, y, 4 * blocksWidth, 4 * blocksHeight) ==>
      0 <= Edge(x, width) < 4 * blocksWidth &&
      At(output, blocksWidth, blocksHeight, x, y) == old(At(output, blocksWidth, blocksHeight, Edge(x, width), y))
  {
    for i := 0 to blocksHeight
      invariant BlocksValid(output)
      invariant forall x, y :: InGrid(x, y, 4 * blocksWidth, 4 * blocksHeight) ==>
        0 <= Edge(x, width) < 4 * blocksWidth &&
        At(output, blocksWidth, blocksHeight, x, y) ==
          old(At(output, blocksWidth, blocksHeight, if y / 4 < i then Edge(x, width) else x, y))
    {
      PadRightBlock(output, width, blocksWidth, blocksHeight, i);
    }
  }

  /** The `if (imageHeight % 4 != 0)` step of ImageTo4X4: afterwards every column of the image runs down to the bottom of the blocks. */
  method PadHeight(output: array<RawBlock4X4Rgba32?>, image: seq<int>, format: BufferFormat, width: int, height: int,
                   blocksWidth: int, blocksHeight: int, fromAbgr: int -> GorgonColor, fromArgb: int -> GorgonColor)
    requires format.IsRgba8() && 0 <= width && 0 <= height && |image| >= width * height
    requires blocksWidth == BlocksAcross(width) && blocksHeight == BlocksAcross(height)
    requires BlocksValid(output) && output.Length == blocksWidth * blocksHeight
    requires forall x, y :: InGrid(x, y, width, height) ==>
      InGrid(x, y, 4 * blocksWidth, 4 * blocksHeight) &&
      At(output, blocksWidth, blocksHeight, x, y) == SourceColor(image, format, width, height, x, y, fromAbgr, fromArgb)
    modifies PixelArrays(output)
    ensures BlocksValid(output)
    ensures forall x, y :: InGrid(x, y, 4 * blocksWidth, 4 * blocksHeight) && x < width ==>
      InGrid(x, Edge(y, height), width, height) &&
      At(output, blocksWidth, blocksHeight, x, y) == SourceColor(image, format, width, height, x, Edge(y, height), fromAbgr, fromArgb)
  {
    if height % 4 != 0 {
      PadBottomRow(output, height, blocksWidth, blocksHeight);
    }
    forall x, y | InGrid(x, y, 4 * blocksWidth, 4 * blocksHeight) && x < width
      ensures InGrid(x, Edge(y, height), width, height)
      ensures At(output, blocksWidth, blocksHeight, x, y) == SourceColor(image, format, width, height, x, Edge(y, height), fromAbgr, fromArgb)
    {
      if height % 4 == 0 {
        assert Edge(y, height) == y;
      } else {
        assert At(output, blocksWidth, blocksHeight, x, y) == old(At(output, blocksWidth, blocksHeight, x, Edge(y, height)));
      }
    }
  }

  /** The `if (imageWidth % 4 != 0)` step of ImageTo4X4: afterwards every pixel of the blocks holds its nearest image pixel. */
  method PadWidth(output: array<RawBlock4X4Rgba32?>, image: seq<int>, format: BufferFormat, width: int, height: int,
                  blocksWidth: int, blocksHeight: int, fromAbgr: int -> GorgonColor, fromArgb: int -> GorgonColor)
    requires format.IsRgba8() && 0 <= width && 0 <= height && |image| >= width * height
    requires blocksWidth == BlocksAcross(width) && blocksHeight == BlocksAcross(height)
    requires BlocksValid(output) && output.Length == blocksWidth * blocksHeight
    requires forall x, y :: InGrid(x, y, 4 * blocksWidth, 4 * blocksHeight) && x < width ==>
      InGrid(x, Edge(y, height), width, height) &&
      At(output, blocksWidth, blocksHeight, x, y) == SourceColor(image, format, width, height, x, Edge(y, height), fromAbgr, fromArgb)
    modifies PixelArrays(output)
    ensures BlocksValid(output)
    ensures forall x, y :: InGrid(x, y, 4 * blocksWidth, 4 * blocksHeight) ==>
      InGrid(Edge(x, width), Edge(y, height), width, height) &&
      At(output, blocksWidth, blocksHeight, x, y) ==
        SourceColor(image, format, width, height, Edge(x, width), Edge(y, height), fromAbgr, fromArgb)
  {
    if width % 4 != 0 {
      PadRightColumn(output, width, blocksWidth, blocksHeight);
    }
    forall x, y | InGrid(x, y, 4 * blocksWidth, 4 * blocksHeight)
      ensures InGrid(Edge(x, width), Edge(y, height), width, height)
      ensures At(output, blocksWidth, blocksHeight, x, y) ==
        SourceColor(image, format, width, height, Edge(x, width), Edge(y, height), fromAbgr, fromArgb)
    {
      if width % 4 == 0 {
        assert Edge(x, width) == x;
      } else {
        assert At(output, blocksWidth, blocksHeight, x, y) == old(At(output, blocksWidth, blocksHeight, Edge(x, width), y));
      }
    }
  }

  /**
   * ImageTo4X4: NotSupportedException for a source format other than the
   * six 8-bit layouts, leaving the blocks as they were. Otherwise pixel
   * (x, y) of the block array is the source pixel (x, y), and the padding
   * beyond the image repeats its last row and column: the source pixel
   * nearest to (x, y).
   */
  method ImageTo4X4(output: array<RawBlock4X4Rgba32?>, image: seq<int>, sourceFormat: BufferFormat, imageWidth: int, imageHeight: int,
                    blocksWidth: int, blocksHeight: int, fromAbgr: int -> GorgonColor, fromArgb: int -> GorgonColor)
    returns (error: Option<Exception>)
    requires 0 <= imageWidth && 0 <= imageHeight && |image| >= imageWidth * imageHeight
    requires blocksWidth == BlocksAcross(imageWidth) && blocksHeight == BlocksAcross(imageHeight)
    requires BlocksValid(output) && output.Length == blocksWidth * blocksHeight
    modifies PixelArrays(output)
    ensures BlocksValid(output)
    ensures !sourceFormat.IsRgba8() ==> error == Some(NotSupportedException) && unchanged(PixelArrays(output))
    ensures sourceFormat.IsRgba8() ==>
      error.None? &&
      forall x, y :: InGrid(x, y, 4 * blocksWidth, 4 * blocksHeight) ==>
        InGrid(Edge(x, imageWidth), Edge(y, imageHeight), imageWidth, imageHeight) &&
        At(output, blocksWidth, blocksHeight, x, y) ==
          SourceColor(image, sourceFormat, imageWidth, imageHeight, Edge(x, imageWidth), Edge(y, imageHeight), fromAbgr, fromArgb)
  {
    if !sourceFormat.IsRgba8() {
      return Some(NotSupportedException);
    }
    PlacePixels(output, image, sourceFormat, imageWidth, imageHeight, blocksWidth, blocksHeight, fromAbgr, fromArgb);
    PadHeight(output, image, sourceFormat, imageWidth, imageHeight, blocksWidth, blocksHeight, fromAbgr, fromArgb);
    PadWidth(output, image, sourceFormat, imageWidth, imageHeight, blocksWidth, blocksHeight, fromAbgr, fromArgb);
    return None;
  }

  /** BcEncoder: encodes images into block-compressed formats. */
  class BcEncoder {
    /** LuminanceAsRed: BC4 blocks encode the pixel luminance rather than its red channel. */
    var luminanceAsRed: bool

    constructor()
      ensures !luminanceAsRed
    {
      luminanceAsRed := false;
    }

    /**
     * EncodeToRawBytes up to the hand-off to the block encoder:
     * NotSupportedException for a compression format without an encoder
     * (before any block is built) or for an unsupported source layout;
     * otherwise the chosen encoder and the ceil(width / 4) x
     * ceil(height / 4) blocks cut from the image, padding included.
     */
    method EncodeToRawBytes(inputImage: seq<int>, width: int, height: int, include1BitAlpha: bool,
                            sourceFormat: BufferFormat, compressionFormat: BufferFormat,
                            fromAbgr: int -> GorgonColor, fromArgb: int -> GorgonColor)
      returns (r: Result<(BlockEncoder, array<RawBlock4X4Rgba32?>)>)
      requires 0 <= width && 0 <= height && |inputImage| >= width * height
      ensures !compressionFormat.IsBlockCompressed() ==> r == Failure(NotSupportedException)
      ensures compressionFormat.IsBlockCompressed() && !sourceFormat.IsRgba8() ==> r == Failure(NotSupportedException)
      ensures r.Failure? ==> r.error == NotSupportedException
      ensures r.Success? ==>
        var blocksWidth, blocksHeight := BlocksAcross(width), BlocksAcross(height);
        var blocks := r.value.1;
        GetEncoder(compressionFormat, include1BitAlpha, luminanceAsRed) == Some(r.value.0) &&
        fresh(blocks) && blocks.Length == blocksWidth * blocksHeight && BlocksValid(blocks) &&
        forall x, y :: InGrid(x, y, 4 * blocksWidth, 4 * blocksHeight) ==>
          InGrid(Edge(x, width), Edge(y, height), width, height) &&
          At(blocks, blocksWidth, blocksHeight, x, y) ==
            SourceColor(inputImage, sourceFormat, width, height, Edge(x, width), Edge(y, height), fromAbgr, fromArgb)
    {
      var blocksWidth := BlocksAcross(width);
      var blocksHeight := BlocksAcross(height);
      var blockCount := blocksWidth * blocksHeight;
      var compressedEncoder := GetEncoder(compressionFormat, include1BitAlpha, luminanceAsRed);
      if compressedEncoder.None? {
        return Failure(NotSupportedException);
      }
      var blocks := new RawBlock4X4Rgba32?[blockCount];
      for i := 0 to blockCount
        invariant forall k :: 0 <= k < i ==> blocks[k] != null && blocks[k].Valid() && fresh(blocks[k].pixels)
        invariant forall k, l :: 0 <= k < i && 0 <= l < i && k != l ==>
          blocks[k] != null && blocks[l] != null && blocks[k].pixels != blocks[l].pixels
      {
        blocks[i] := new RawBlock4X4Rgba32();
      }
      var error := ImageTo4X4(blocks, inputImage, sourceFormat, width, height, blocksWidth, blocksHeight, fromAbgr, fromArgb);
      if error.Some? {
        return Failure(error.value);
      }
      return Success((compressedEncoder.value, blocks));
    }
  }
}
