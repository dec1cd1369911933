/**
 * The decoding driver (BCnEnc.Net/Decoder/BcDecoder.cs): picks the block
 * decoder for a compressed format, decodes the block grid and lays the
 * decoded 4x4 tiles out as one image whose sides are rounded up to
 * multiples of 4.
 */
module BcDecoders {
  import opened Bits
  import opened Results
  import opened Grids
  import opened BufferFormats
  import opened BlockDecoders

  /** BcDecoder.GetDecoder: the block decoder of a format, or null (None) for formats without one. */
  function GetDecoder(format: BufferFormat, expectAlpha: bool, luminanceAsRed: bool): (r: Option<BlockDecoder>)
    ensures r.None? <==> !format.IsBlockCompressed()
    ensures r.Some? ==> (r.value.BlockSize() == 8 <==> format in {BC1_UNorm, BC1_UNorm_SRgb, BC4_UNorm, BC4_SNorm})
    ensures format.IsBc1() ==> (r == Some(Bc1ADecoder) <==> expectAlpha)
    ensures r.Some? && r.value.Bc4Decoder? ==> r.value.redAsLuminance == luminanceAsRed
  {
    match format
    case BC1_UNorm | BC1_UNorm_SRgb => Some(if expectAlpha then Bc1ADecoder else Bc1NoAlphaDecoder)
    case BC2_UNorm | BC2_UNorm_SRgb => Some(Bc2Decoder)
    case BC3_UNorm | BC3_UNorm_SRgb => Some(Bc3Decoder)
    case BC4_UNorm | BC4_SNorm => Some(Bc4Decoder(luminanceAsRed))
    case BC5_SNorm | BC5_UNorm => Some(Bc5Decoder)
    case BC7_UNorm | BC7_UNorm_SRgb => Some(Bc7Decoder)
    case _ => None
  }

  /** The alpha flag matters only for BC1 and the luminance flag only for BC4. */
  lemma GetDecoderFlags(format: BufferFormat, a1: bool, a2: bool, l1: bool, l2: bool)
    ensures !format.IsBc1() ==> GetDecoder(format, a1, l1) == GetDecoder(format, a2, l1)
    ensures format != BC4_UNorm && format != BC4_SNorm ==> GetDecoder(format, a1, l1) == GetDecoder(format, a1, l2)
  {
  }

  /** The texel of a block grid that lands on pixel (x, y): blocks[x / 4, y / 4] at (x % 4, y % 4). */
  function TexelAt<T>(blocks: array2<seq<T>>, x: int, y: int): T
    requires InGrid(x, y, 4 * blocks.Length0, 4 * blocks.Length1)
    requires |blocks[x / 4, y / 4]| == 16
    reads blocks
  {
    blocks[x / 4, y / 4][Index(x % 4, y % 4, 4)]
  }

  /** Whether every cell of the grid holds sixteen texels. */
  predicate FullTiles<T>(blocks: array2<seq<T>>)
    reads blocks
  {
    forall i, j :: 0 <= i < blocks.Length0 && 0 <= j < blocks.Length1 ==> |blocks[i, j]| == 16
  }

  /**
   * ImageFromRawBlocks: a pixelWidth x pixelHeight image, row after row,
   * whose pixel (x, y) is texel (x % 4, y % 4) of block [x / 4, y / 4].
   * The ToABGR packing of each colour is not part of this model.
   */
  method ImageFromRawBlocks<T(0)>(blocks: array2<seq<T>>, pixelWidth: int, pixelHeight: int) returns (output: array<T>)
    requires 0 <= pixelWidth <= 4 * blocks.Length0 && 0 <= pixelHeight <= 4 * blocks.Length1
    requires FullTiles(blocks)
    ensures fresh(output) && output.Length == pixelWidth * pixelHeight
    ensures forall x, y :: InGrid(x, y, pixelWidth, pixelHeight) ==>
      0 <= Index(x, y, pixelWidth) < output.Length && output[Index(x, y, pixelWidth)] == TexelAt(blocks, x, y)
  {
    output := new T[pixelWidth * pixelHeight];
    for y := 0 to pixelHeight
      invariant forall i, j :: InGrid(i, j, pixelWidth, y) ==>
        0 <= Index(i, j, pixelWidth) < output.Length && output[Index(i, j, pixelWidth)] == TexelAt(blocks, i, j)
    {
      FillRow(blocks, output, pixelWidth, pixelHeight, y);
      forall i, j | InGrid(i, j, pixelWidth, y)
        ensures 0 <= Index(i, j, pixelWidth) < y * pixelWidth
      {
        IndexInRange(i, j, pixelWidth, y);
      }
    }
  }

  /** The inner loop of ImageFromRawBlocks: row y, leaving the rows above it as they were. */
  method FillRow<T>(blocks: array2<seq<T>>, output: array<T>, pixelWidth: int, pixelHeight: int, y: int)
    requires 0 <= pixelWidth <= 4 * blocks.Length0 && 0 <= y < pixelHeight <= 4 * blocks.Length1
    requires FullTiles(blocks) && output.Length == pixelWidth * pixelHeight
    modifies output
    ensures forall k :: 0 <= k < y * pixelWidth ==> output[k] == old(output[k])
    ensures forall i :: 0 <= i < pixelWidth ==>
      0 <= Index(i, y, pixelWidth) < output.Length && output[Index(i, y, pixelWidth)] == TexelAt(blocks, i, y)
  {
    var row := y * pixelWidth;
    MulMonotone(y + 1, pixelHeight, pixelWidth);
    assert (y + 1) * pixelWidth == row + pixelWidth;
    for x := 0 to pixelWidth
      invariant forall k :: 0 <= k < row ==> output[k] == old(output[k])
      invariant forall i :: 0 <= i < x ==>
        0 <= Index(i, y, pixelWidth) < output.Length && output[Index(i, y, pixelWidth)] == TexelAt(blocks, i, y)
    {
      QuarterInGrid(x, y, blocks.Length0, blocks.Length1);
      assert Index(x, y, pixelWidth) == row + x;
      output[row + x] := TexelAt(blocks, x, y);
    }
  }

  /** Pixel (x, y) of the decoded image: texel (x % 4, y % 4) of block (x / 4, y / 4), or that block's error. */
  function DecodedPixel(decoder: BlockDecoder, data: seq<byte>, blocksWidth: int, blocksHeight: int, x: int, y: int): (r: Result<Texel>)
    requires InGrid(x, y, 4 * blocksWidth, 4 * blocksHeight) && |data| == blocksWidth * blocksHeight * decoder.BlockSize()
    ensures r.Failure? <==> decoder.DecodedAt(data, blocksWidth, blocksHeight, x / 4, y / 4).Failure?
  {
    QuarterInGrid(x, y, blocksWidth, blocksHeight);
    var tile := decoder.DecodedAt(data, blocksWidth, blocksHeight, x / 4, y / 4);
    if tile.Failure? then Failure(tile.error) else Success(tile.value[Index(x % 4, y % 4, 4)])
  }

  /** BcDecoder: decodes block-compressed data into an image. */
  class BcDecoder {
    /** LuminanceAsRed: BC4 data is decoded as luminance (red copied to green and blue). */
    var luminanceAsRed: bool

    constructor()
      ensures !luminanceAsRed
    {
      luminanceAsRed := false;
    }

    /**
     * Decode: NotSupportedException for a format without a block decoder,
     * then the block decoder's own errors, otherwise the decoded image, its
     * sides rounded up to multiples of 4, pixel (x, y) taken from block
     * (x / 4, y / 4).
     */
    method Decode(encodedData: seq<byte>, imageWidth: int, imageHeight: int, has1BitAlpha: bool, compressedFormat: BufferFormat)
      returns (r: Result<array<Texel>>)
      ensures !compressedFormat.IsBlockCompressed() ==> r == Failure(NotSupportedException)
      ensures compressedFormat.IsBlockCompressed() ==>
        var decoder := GetDecoder(compressedFormat, has1BitAlpha, luminanceAsRed).value;
        var blocksWidth, blocksHeight := BlocksAcross(imageWidth), BlocksAcross(imageHeight);
        (!decoder.SizeMatches(encodedData, imageWidth, imageHeight) ==> r == Failure(InvalidDataException)) &&
        (r.Failure? && r.error == InvalidDataException && decoder.SizeMatches(encodedData, imageWidth, imageHeight) ==>
           exists x, y :: InGrid(x, y, blocksWidth, blocksHeight) &&
             decoder.DecodedAt(encodedData, blocksWidth, blocksHeight, x, y).Failure?) &&
        (r.Success? ==>
           decoder.SizeMatches(encodedData, imageWidth, imageHeight) &&
           fresh(r.value) && r.value.Length == (4 * blocksWidth) * (4 * blocksHeight) &&
           forall x, y :: InGrid(x, y, 4 * blocksWidth, 4 * blocksHeight) ==>
             0 <= Index(x, y, 4 * blocksWidth) < r.value.Length &&
             DecodedPixel(decoder, encodedData, blocksWidth, blocksHeight, x, y) == Success(r.value[Index(x, y, 4 * blocksWidth)]))
      ensures r.Failure? ==> r.error in {NotSupportedException, InvalidDataException, OverflowException}
    {
      var found := GetDecoder(compressedFormat, has1BitAlpha, luminanceAsRed);
      if found.None? {
        return Failure(NotSupportedException);
      }
      var decoder := found.value;
      var blocksWidth := BlocksAcross(imageWidth);
      var blocksHeight := BlocksAcross(imageHeight);
      var blocks := decoder.Decode(encodedData, imageWidth, imageHeight);
      if blocks.Failure? {
        return Failure(blocks.error);
      }
      var grid := blocks.value;
      var image := ImageFromRawBlocks(grid, blocksWidth * 4, blocksHeight * 4);
      forall x, y | InGrid(x, y, 4 * blocksWidth, 4 * blocksHeight)
        ensures DecodedPixel(decoder, encodedData, blocksWidth, blocksHeight, x, y) == Success(TexelAt(grid, x, y))
      {
        QuarterInGrid(x, y, blocksWidth, blocksHeight);
      }
      return Success(image);
    }
  }
}
