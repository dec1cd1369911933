/**
 * The block decoders (BCnEnc.Net/Decoder/BcBlockDecoder.cs and
 * BCnEnc.Net/Decoder/Bc7Decoder.cs): each checks that the encoded bytes hold
 * exactly one block per 4x4 tile, reads the bytes as an array of block
 * structs, and fills a blockWidth x blockHeight grid whose cell [x, y] is
 * the decoded block x + y * blockWidth.
 */
module BlockDecoders {
  import opened Bits
  import opened Results
  import opened Colors
  import opened EncodedBlocks
  import opened Grids
  import Bc7Layout
  import Bc7Decoding

  // ---------------------------------------------------------------------
  // Reading the encoded bytes as block structs.
  // ---------------------------------------------------------------------

  /** The bits of bytes in memory order: byte 0 first, each byte least significant bit first. */
  function BytesToWord(b: seq<byte>): (w: Word)
    ensures |w| == 8 * |b|
  {
    if |b| == 0 then [] else FromNat(b[0], 8) + BytesToWord(b[1..])
  }

  /** Little-endian layout: bit j of byte k is bit 8k + j of the word. */
  lemma {:induction false} WordBits(b: seq<byte>, k: nat, j: nat)
    requires k < |b| && j < 8
    ensures BytesToWord(b)[8 * k + j] == Bit(b[k], j)
  {
    if k > 0 {
      WordBits(b[1..], k - 1, j);
      assert BytesToWord(b) == FromNat(b[0], 8) + BytesToWord(b[1..]);
    }
  }

  /** A ulong field. */
  function Ulong8(b: seq<byte>): Ulong
    requires |b| == 8
  {
    BytesToWord(b)
  }

  /** A uint field. */
  function Uint4(b: seq<byte>): Uint
    requires |b| == 4
  {
    BytesToWord(b)
  }

  /** A ColorRgb565 field: its ushort data. */
  function Color2(b: seq<byte>): ColorRgb565
    requires |b| == 2
  {
    Pow2Of16();
    ColorRgb565(ToNat(BytesToWord(b)))
  }

  // ---------------------------------------------------------------------
  // Decoded tiles.
  // ---------------------------------------------------------------------

  /** The sixteen colours a decoder writes into a RawBlock4X4Rgba32, named by what each block format writes. */
  datatype Texel =
      /** BC1: a palette colour. */
    | PaletteTexel(color: PaletteColor)
      /** BC2: a palette colour and the texel's 4-bit alpha, scaled by 255/15 in doubles. */
    | PaletteAlphaTexel(color: PaletteColor, alphaNibble: nat)
      /** BC3: a palette colour and an alpha level. */
    | PaletteLevelTexel(color: PaletteColor, level: Level)
      /** BC4 and BC5: four channels. */
    | ChannelTexel(red: Channel, green: Channel, blue: Channel, alpha: Channel)
      /** BC7: texel index of the block (lowBits, highBits); Bc7Color gives its 32-bit colour. */
    | Bc7Texel(lowBits: Ulong, highBits: Ulong, index: nat)

  /** Bc2Block.GetAlpha before scaling: the four bits 4i .. 4i + 3 of alphaColors. */
  function Bc2Alpha(alphaColors: Ulong, i: int): (r: nat)
    requires 0 <= i < 16
    ensures r < 16
  {
    Pow2Of16();
    assert Pow2(4) == 16;
    ToNat(alphaColors[4 * i .. 4 * i + 4])
  }

  /** Bc2Block.Decode: the four-colour palette (no black) and each texel's alpha. */
  function Bc2Texels(alphaColors: Ulong, color0: ColorRgb565, color1: ColorRgb565, colorIndices: Uint): (r: seq<Texel>)
    ensures |r| == 16
    ensures forall i :: 0 <= i < 16 ==>
              && r[i].PaletteAlphaTexel? && r[i].alphaNibble < 16
              && r[i].color in ColorPalette(color0, color1, false)
              && r[i].color != OpaqueBlack && r[i].color != BlackConstant
    ensures forall i :: 0 <= i < 16 ==>
              && r[i].color == ColorPalette(color0, color1, false)[ColorIndex(colorIndices, i)]
              && r[i].alphaNibble == Bc2Alpha(alphaColors, i)
  {
    var colors := ColorPalette(color0, color1, false);
    seq(16, i requires 0 <= i < 16 => PaletteAlphaTexel(colors[ColorIndex(colorIndices, i)], Bc2Alpha(alphaColors, i)))
  }

  /** A Bc1Block (color0, color1, colorIndices) decoded with or without alpha. */
  function Bc1Tile(b: seq<byte>, useAlpha: bool): (r: seq<Texel>)
    requires |b| == 8
    ensures |r| == 16
  {
    var t := Bc1Texels(Color2(b[0..2]), Color2(b[2..4]), Uint4(b[4..8]), useAlpha);
    seq(16, i requires 0 <= i < 16 => PaletteTexel(t[i]))
  }

  /** A Bc2Block (alphaColors, color0, color1, colorIndices) decoded. */
  function Bc2Tile(b: seq<byte>): (r: seq<Texel>)
    requires |b| == 16
    ensures |r| == 16
  {
    Bc2Texels(Ulong8(b[0..8]), Color2(b[8..10]), Color2(b[10..12]), Uint4(b[12..16]))
  }

  /** A Bc3Block (alphaBlock, color0, color1, colorIndices) decoded. */
  function Bc3Tile(b: seq<byte>): (r: seq<Texel>)
    requires |b| == 16
    ensures |r| == 16
  {
    var t := Bc3Texels(Color2(b[8..10]), Color2(b[10..12]), Uint4(b[12..16]), Ulong8(b[0..8]));
    seq(16, i requires 0 <= i < 16 => PaletteLevelTexel(t[i].0, t[i].1))
  }

  /** A Bc4Block (redBlock) decoded. */
  function Bc4Tile(b: seq<byte>, redAsLuminance: bool): (r: seq<Texel>)
    requires |b| == 8
    ensures |r| == 16
  {
    var t := Bc4Texels(Ulong8(b), redAsLuminance);
    seq(16, i requires 0 <= i < 16 => ChannelTexel(t[i].0, t[i].1, t[i].2, t[i].3))
  }

  /** A Bc5Block (redBlock, greenBlock) decoded. */
  function Bc5Tile(b: seq<byte>): (r: seq<Texel>)
    requires |b| == 16
    ensures |r| == 16
  {
    var t := Bc5Texels(Ulong8(b[0..8]), Ulong8(b[8..16]));
    seq(16, i requires 0 <= i < 16 => ChannelTexel(t[i].0, t[i].1, t[i].2, t[i].3))
  }

  /** A Bc7Block (lowBits, highBits) decoded: InvalidDataException for the reserved mode, otherwise its sixteen texels. */
  function Bc7Tile(b: seq<byte>): (r: Result<seq<Texel>>)
    requires |b| == 16
    ensures r.Failure? ==> r.error == InvalidDataException
    ensures r.Success? ==> |r.value| == 16
  {
    Bc7Texels(Ulong8(b[0..8]), Ulong8(b[8..16]))
  }

  /** The fields lowBits, highBits of a Bc7Block decoded. */
  function Bc7Texels(low: Ulong, high: Ulong): (r: Result<seq<Texel>>)
    ensures r.Failure? <==> Bc7Layout.TypeOf(low) == Bc7Layout.Type8Reserved
    ensures r.Failure? ==> r.error == InvalidDataException
    ensures r.Success? ==> |r.value| == 16 && forall i :: 0 <= i < 16 ==> r.value[i] == Bc7Texel(low, high, i)
  {
    if Bc7Layout.TypeOf(low) == Bc7Layout.Type8Reserved then Failure(InvalidDataException)
    else Success(seq(16, i requires 0 <= i < 16 => Bc7Texel(low, high, i)))
  }

  /**
   * The colour Bc7Block.Decode writes for a BC7 texel. The endpoint buffer
   * Decode rents is taken as cleared; Bc7TexelColor shows its contents do
   * not matter.
   */
  function Bc7Color(t: Texel): ColorRgba32
    requires t.Bc7Texel? && t.index < 16 && Bc7Layout.TypeOf(t.lowBits) != Bc7Layout.Type8Reserved
  {
    var pool := ClearedPool(Bc7Layout.TypeOf(t.lowBits));
    Bc7Decoding.DecodeBlock(t.lowBits, t.highBits, pool).value[t.index]
  }

  /** The endpoint buffer of a block type, cleared. */
  function ClearedPool(t: Bc7Layout.Bc7BlockType): (pool: seq<ColorRgba32>)
    requires t != Bc7Layout.Type8Reserved
    ensures |pool| == t.GetRawEndPointCount()
  {
    seq(t.GetRawEndPointCount(), _ => ColorRgba32(0, 0, 0, 0))
  }

  /** Each texel of a decoded BC7 block has the colour Bc7Block.Decode computes, whatever the rented endpoint buffer held. */
  lemma Bc7TexelColor(b: seq<byte>, pool: seq<ColorRgba32>, i: int)
    requires |b| == 16 && 0 <= i < 16 && Bc7Tile(b).Success?
    requires |pool| == Bc7Layout.TypeOf(Ulong8(b[0..8])).GetRawEndPointCount()
    ensures Bc7Tile(b).value[i].Bc7Texel? && Bc7Tile(b).value[i].index < 16
    ensures Bc7Color(Bc7Tile(b).value[i]) == Bc7Decoding.DecodeBlock(Ulong8(b[0..8]), Ulong8(b[8..16]), pool).value[i]
  {
    var low := Ulong8(b[0..8]);
    Bc7Decoding.DecodeIgnoresPool(low, Ulong8(b[8..16]), pool, ClearedPool(Bc7Layout.TypeOf(low)));
  }

  /** A BC7 block fails to decode exactly when its first byte, which holds the mode bits, is zero. */
  lemma Bc7TileFails(b: seq<byte>)
    requires |b| == 16
    ensures Bc7Tile(b).Failure? <==> b[0] == 0
  {
    var low := Ulong8(b[0..8]);
    Bc7Layout.TypeOfLowestSetBit(low);
    forall k | 0 <= k < 8
      ensures low[k] == Bit(b[0], k)
    {
      WordBits(b[0..8], 0, k);
    }
    if forall k :: 0 <= k < 8 ==> !Bit(b[0], k) {
      forall k | 0 <= k < 8
        ensures Bit(b[0], k) == Bit(0, k)
      {
        BitZero(k);
      }
      Pow2Of16();
      BitExt(b[0], 0, 8);
    } else {
      var k :| 0 <= k < 8 && Bit(b[0], k);
      if b[0] == 0 {
        BitZero(k);
      }
    }
  }

  // ---------------------------------------------------------------------
  // The decoders.
  // ---------------------------------------------------------------------

  /** The IBcBlockDecoder implementations; Bc4Decoder carries its redAsLuminance flag. */
  datatype BlockDecoder =
    | Bc1NoAlphaDecoder | Bc1ADecoder | Bc2Decoder | Bc3Decoder
    | Bc4Decoder(redAsLuminance: bool)
    | Bc5Decoder | Bc7Decoder
  {
    /** Unsafe.SizeOf (Marshal.SizeOf for BC7) of the block struct: a ColorRgb565 pair and a uint, or one or two ulongs ahead. */
    function BlockSize(): nat
    {
      match this
      case Bc1NoAlphaDecoder | Bc1ADecoder | Bc4Decoder(_) => 8
      case _ => 16
    }

    /** The Decode method of the block struct, applied to one block's bytes. */
    function DecodeBlock(b: seq<byte>): (r: Result<seq<Texel>>)
      requires |b| == BlockSize()
      ensures r.Failure? ==> this == Bc7Decoder && r.error == InvalidDataException
      ensures r.Success? ==> |r.value| == 16
    {
      match this
      case Bc1NoAlphaDecoder => Success(Bc1Tile(b, false))
      case Bc1ADecoder => Success(Bc1Tile(b, true))
      case Bc2Decoder => Success(Bc2Tile(b))
      case Bc3Decoder => Success(Bc3Tile(b))
      case Bc4Decoder(redAsLuminance) => Success(Bc4Tile(b, redAsLuminance))
      case Bc5Decoder => Success(Bc5Tile(b))
      case Bc7Decoder => Bc7Tile(b)
    }

    /** Whether data holds exactly one block per tile of a pixelWidth x pixelHeight image. */
    predicate SizeMatches(data: seq<byte>, pixelWidth: int, pixelHeight: int)
    {
      |data| == BlocksAcross(pixelWidth) * BlocksAcross(pixelHeight) * BlockSize()
    }

    /** The decoded block x + y * blockWidth. */
    function DecodedAt(data: seq<byte>, blockWidth: int, blockHeight: int, x: int, y: int): (r: Result<seq<Texel>>)
      requires InGrid(x, y, blockWidth, blockHeight) && |data| == blockWidth * blockHeight * BlockSize()
      ensures r.Failure? ==> this == Bc7Decoder && r.error == InvalidDataException
      ensures r.Success? ==> |r.value| == 16
    {
      BlockInData(x, y, blockWidth, blockHeight, BlockSize());
      var i := Index(x, y, blockWidth);
      DecodeBlock(data[i * BlockSize() .. (i + 1) * BlockSize()])
    }

    /**
     * Decode: InvalidDataException unless the data holds one block per
     * tile; otherwise the grid of decoded blocks, filled column by column.
     * A BC7 block of the reserved mode stops the loop with the block's
     * InvalidDataException.
     */
    method Decode(data: seq<byte>, pixelWidth: int, pixelHeight: int) returns (r: Result<array2<seq<Texel>>>)
      ensures !SizeMatches(data, pixelWidth, pixelHeight) ==> r == Failure(InvalidDataException)
      ensures SizeMatches(data, pixelWidth, pixelHeight) && (BlocksAcross(pixelWidth) < 0 || BlocksAcross(pixelHeight) < 0) ==>
        r == Failure(OverflowException)
      ensures r.Failure? && r.error == InvalidDataException && SizeMatches(data, pixelWidth, pixelHeight) ==>
        exists x, y :: InGrid(x, y, BlocksAcross(pixelWidth), BlocksAcross(pixelHeight)) &&
          DecodedAt(data, BlocksAcross(pixelWidth), BlocksAcross(pixelHeight), x, y).Failure?
      ensures r.Failure? ==> r.error == InvalidDataException || r.error == OverflowException
      ensures r.Success? ==>
        SizeMatches(data, pixelWidth, pixelHeight) && fresh(r.value) &&
        r.value.Length0 == BlocksAcross(pixelWidth) && r.value.Length1 == BlocksAcross(pixelHeight)
      ensures r.Success? ==> forall x, y :: InGrid(x, y, r.value.Length0, r.value.Length1) ==>
        DecodedAt(data, r.value.Length0, r.value.Length1, x, y) == Success(r.value[x, y])
    {
      var blockWidth := BlocksAcross(pixelWidth);
      var blockHeight := BlocksAcross(pixelHeight);
      if |data| != blockWidth * blockHeight * BlockSize() {
        return Failure(InvalidDataException);
      }
      if blockWidth < 0 || blockHeight < 0 {
        return Failure(OverflowException);
      }
      var output := new seq<Texel>[blockWidth, blockHeight]((_, _) => []);
      for x := 0 to blockWidth
        invariant forall i, j :: InGrid(i, j, x, blockHeight) ==>
          DecodedAt(data, blockWidth, blockHeight, i, j) == Success(output[i, j])
      {
        var failure := FillColumn(y => if 0 <= y < blockHeight then DecodedAt(data, blockWidth, blockHeight, x, y)
                                       else Failure(IndexOutOfRangeException), output, x);
        if failure.Some? {
          return Failure(failure.value);
        }
      }
      return Success(output);
    }
  }

  /**
   * The inner loop of the decoders: fills column x of output with the
   * decoded blocks cells(0), cells(1), ... in order, or stops at the first
   * block that fails and returns its error.
   */
  method FillColumn<T>(cells: int -> Result<T>, output: array2<T>, x: int) returns (failure: Option<Exception>)
    requires 0 <= x < output.Length0
    modifies output
    ensures failure.Some? ==> exists y :: 0 <= y < output.Length1 && cells(y) == Failure(failure.value)
    ensures forall i, j :: 0 <= i < output.Length0 && 0 <= j < output.Length1 && i != x ==> output[i, j] == old(output[i, j])
    ensures failure.None? ==> forall j :: 0 <= j < output.Length1 ==> cells(j) == Success(output[x, j])
  {
    for y := 0 to output.Length1
      invariant forall i, j :: 0 <= i < output.Length0 && 0 <= j < output.Length1 && i != x ==> output[i, j] == old(output[i, j])
      invariant forall j :: 0 <= j < y ==> cells(j) == Success(output[x, j])
    {
      var decoded := cells(y);
      if decoded.Failure? {
        return Some(decoded.error);
      }
      output[x, y] := decoded.value;
    }
    return None;
  }

  /** Block i = x + y * blockWidth of the grid lies inside data. */
  lemma BlockInData(x: int, y: int, blockWidth: int, blockHeight: int, size: nat)
    requires InGrid(x, y, blockWidth, blockHeight)
    ensures 0 <= Index(x, y, blockWidth) * size
    ensures (Index(x, y, blockWidth) + 1) * size <= blockWidth * blockHeight * size
  {
    IndexInRange(x, y, blockWidth, blockHeight);
    var i := Index(x, y, blockWidth);
    MulMonotone(0, i, size);
    MulMonotone(i + 1, blockWidth * blockHeight, size);
  }


  // ---------------------------------------------------------------------
  // What the decoders promise.
  // ---------------------------------------------------------------------

  /**
   * The two BC1 decoders differ exactly at texels of index 3 in blocks
   * with color0.data <= color1.data, where Bc1ADecoder writes the Black
   * constant and Bc1NoAlphaDecoder opaque black.
   */
  lemma Bc1DecodersDiffer(b: seq<byte>, i: int)
    requires |b| == 8 && 0 <= i < 16
    ensures var color0, color1, indices := Color2(b[0..2]), Color2(b[2..4]), Uint4(b[4..8]);
      (Bc1ADecoder.DecodeBlock(b) != Bc1NoAlphaDecoder.DecodeBlock(b) <==>
         exists k :: 0 <= k < 16 && color0.data <= color1.data && ColorIndex(indices, k) == 3) &&
      (Bc1ADecoder.DecodeBlock(b).value[i] != Bc1NoAlphaDecoder.DecodeBlock(b).value[i] <==>
         color0.data <= color1.data && ColorIndex(indices, i) == 3)
  {
    var color0, color1, indices := Color2(b[0..2]), Color2(b[2..4]), Uint4(b[4..8]);
    forall k | 0 <= k < 16
      ensures Bc1Tile(b, true)[k] != Bc1Tile(b, false)[k] <==> color0.data <= color1.data && ColorIndex(indices, k) == 3
    {
      Bc1BlackTexels(color0, color1, indices, true, k);
      Bc1BlackTexels(color0, color1, indices, false, k);
    }
    if Bc1Tile(b, true) != Bc1Tile(b, false) {
      var k :| 0 <= k < 16 && Bc1Tile(b, true)[k] != Bc1Tile(b, false)[k];
    }
  }

  /** Bc4Decoder forwards its flag: luminance copies red into green and blue, otherwise they are 0; red and alpha agree. */
  lemma Bc4DecoderForwardsFlag(b: seq<byte>, i: int)
    requires |b| == 8 && 0 <= i < 16
    ensures var lum, plain := Bc4Decoder(true).DecodeBlock(b).value[i], Bc4Decoder(false).DecodeBlock(b).value[i];
      lum.ChannelTexel? && plain.ChannelTexel? && lum.red == plain.red && lum.alpha == plain.alpha == One &&
      lum.green == lum.blue == lum.red && plain.green == plain.blue == Zero
  {
  }
}
