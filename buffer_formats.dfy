/**
 * The pixel formats the encoder and decoder drivers dispatch on: the six
 * 8-bit RGBA/BGRA layouts an image may arrive in, the block-compressed
 * formats, and every other format as one case.
 */
module BufferFormats {

  datatype BufferFormat =
    | R8G8B8A8_UNorm | R8G8B8A8_UNorm_SRgb
    | B8G8R8A8_UNorm | B8G8R8A8_UNorm_SRgb
    | B8G8R8X8_UNorm | B8G8R8X8_UNorm_SRgb
    | BC1_UNorm | BC1_UNorm_SRgb
    | BC2_UNorm | BC2_UNorm_SRgb
    | BC3_UNorm | BC3_UNorm_SRgb
    | BC4_UNorm | BC4_SNorm
    | BC5_UNorm | BC5_SNorm
    | BC7_UNorm | BC7_UNorm_SRgb
      /** Any other format of the graphics library, by its enumeration value. */
    | OtherFormat(code: int)
  {
    /** A layout ImageTo4X4 reads: four 8-bit channels per pixel. */
    predicate IsRgba8()
    {
      this in {R8G8B8A8_UNorm, R8G8B8A8_UNorm_SRgb, B8G8R8A8_UNorm, B8G8R8A8_UNorm_SRgb, B8G8R8X8_UNorm, B8G8R8X8_UNorm_SRgb}
    }

    /** A format the block encoders and decoders handle. */
    predicate IsBlockCompressed()
    {
      this in {BC1_UNorm, BC1_UNorm_SRgb, BC2_UNorm, BC2_UNorm_SRgb, BC3_UNorm, BC3_UNorm_SRgb,
               BC4_UNorm, BC4_SNorm, BC5_UNorm, BC5_SNorm, BC7_UNorm, BC7_UNorm_SRgb}
    }

    /** The BC1 formats, where the caller chooses between one-bit alpha and opaque blocks. */
    predicate IsBc1()
    {
      this == BC1_UNorm || this == BC1_UNorm_SRgb
    }
  }
}
