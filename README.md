# BCn / BC7 texture codec core, modelled in Dafny

This project models the core of the BCnEncoder.NET texture codec, in the version bundled with Gorgon. Bit fields and block layouts are modelled bit-exactly, and so is integer arithmetic, with 32- and 64-bit wrap-around written out where the model keeps it; the image-level size products and single-precision index arithmetic that the model treats as exact are listed under "## Left out". Floating-point steps are modelled with exact rationals or kept symbolic, as "## Left out" lists. The codec compresses RGBA images into 4x4-texel blocks:

- BC1–BC5 (the S3TC and RGTC formats);
- BC7 (the BPTC format, whose layout follows chapter 19 of the Khronos Data Format Specification 1.3).

The model covers these parts:

- **Bit-field primitives** (`ByteHelper`). A 64-bit word is a sequence of 64 booleans, least significant bit first. Fields of any width are read and written inside one word or inside a 128-bit pair, including fields that straddle the two words.
- **The BC7 block** (`Bc7Layout`, `Bc7Tables`, `Bc7Color`, `Bc7Packing`, `Bc7Decoding`, `Bc7Blocks`). The model covers:
  - the mode tag and each mode's descriptors, and the partition and anchor tables;
  - the positions of endpoints, p-bits and per-texel indices;
  - endpoint finalisation (p-bit, MSB replication), integer interpolation and channel rotation;
  - block decoding, and the eight `PackTypeN` methods of the `Bc7Block` class, which update `lowBits`/`highBits` step by step.
- **BC7 encoder helpers** (`Bc7EncodingHelpers`, `Bc7Clusters`, `Bc7Partitions`). The model covers:
  - cluster counting and relabelling;
  - partition error, selection and ranking;
  - endpoint scale-down and expansion;
  - clamping and block rotation.
- **Colours** (`Colors`): the 5:6:5 packed colour with its getters and setters, and the saturating operators of the 32-bit and 24-bit colours.
- **BC1–BC5 blocks** (`EncodedBlocks`): index accessors, endpoint bytes and palette selection. Each block is a class whose setters update its words in place.
- **Encoder building blocks**:
  - the bounding-box endpoint selection (`RgbBoundingBox`);
  - the endpoint variation patterns (`ColorVariation`);
  - the closest-palette choosers (`ColorChooser`).
- **The connectivity pass of the superpixel clustering** (`LinearClustering`).
- **The decode and encode drivers** (`BlockDecoders`, `BcDecoders`, `BcEncoders`):
  - buffer-size validation;
  - the mapping between pixels and the block grid;
  - edge padding;
  - the choice of block decoder or encoder for each format.

Supporting modules:

- `Bits`: words as bit sequences, with their numeric value.
- `IntOps`: the C# integer operators on `int`, `uint`, `ulong` and `ushort`, including shift counts taken modulo the width and wrap-around.
- `Grids`: row-major indexing and the block-count ceiling.
- `Results`: the exceptions the source throws, as `Result`/`Option` values.
- `BufferFormats`: the format enumeration.
- `RawBlocks`: the 4x4 texel block.

Exceptions the source throws are modelled as `Failure` values:

| exception | thrown when |
|---|---|
| `InvalidDataException` | a buffer has the wrong size, or a BC7 block is reserved |
| `NotSupportedException` | a format is unsupported |
| `ArgumentException` | there are too few clusters |
| `IndexOutOfRangeException` | a span is too short, or an index is negative |
| `OverflowException` | an array dimension is negative |

## Model

| member | source | states |
|---|---|---|
| ByteHelper.ClampToByte | Gorgon.BCnEncoder.NET/Shared/ByteHelper.cs:5-18 | The result is 0 below 0, 255 above 255, and the value itself on 0..255. |
| ByteHelper.ClampToByteMonotone | Gorgon.BCnEncoder.NET/Shared/ByteHelper.cs:5-18 | Clamping preserves order. |
| ByteHelper.ClampToByteIdempotent | Gorgon.BCnEncoder.NET/Shared/ByteHelper.cs:5-18 | Clamping a clamped value changes nothing. |
| ByteHelper.MaskIsShiftMinusOne | Gorgon.BCnEncoder.NET/Shared/ByteHelper.cs:83 | The mask (the bits below bitCount mod 64) equals the unchecked `(1UL << bitCount) - 1`, for every int bitCount. |
| ByteHelper.ExtractBits | Gorgon.BCnEncoder.NET/Shared/ByteHelper.cs:79-86 | Bit i of Extract is bit index + i of the source when i < bitCount and index + i < 64, and 0 otherwise. |
| ByteHelper.StoreBits | Gorgon.BCnEncoder.NET/Shared/ByteHelper.cs:88-97 | Store takes the bits in [index, index + bitCount) from value, in order, and every other bit from dest. |
| ByteHelper.ExtractStore | Gorgon.BCnEncoder.NET/Shared/ByteHelper.cs:79-97 | For 0 < n < 64 and i + n <= 64, Extract(Store(d, i, n, v), i, n) == v & (2^n - 1). |
| ByteHelper.ExtractStoreDisjoint | Gorgon.BCnEncoder.NET/Shared/ByteHelper.cs:79-97 | A field that shares no bit with the stored one reads back as before the store. |
| ByteHelper.StoreExtract | Gorgon.BCnEncoder.NET/Shared/ByteHelper.cs:79-97 | Storing a field's own extracted value leaves the word unchanged. |
| ByteHelper.StoreStore | Gorgon.BCnEncoder.NET/Shared/ByteHelper.cs:88-97 | A second store to the same field overrides the first. |
| ByteHelper.StoreEmpty | Gorgon.BCnEncoder.NET/Shared/ByteHelper.cs:88-97 | A store of width 0 changes nothing. |
| ByteHelper.Extract1 | Gorgon.BCnEncoder.NET/Shared/ByteHelper.cs:23-27 | The literal mask 0x1 is the width-1 mask, so Extract1 is the generic 1-bit Extract cast to byte. |
| ByteHelper.Store1 | Gorgon.BCnEncoder.NET/Shared/ByteHelper.cs:29-35 | With the literal mask 0x1, Store1 is the generic 1-bit Store of the widened byte. |
| ByteHelper.Extract2 | Gorgon.BCnEncoder.NET/Shared/ByteHelper.cs:37-41 | The literal mask 0x3 is the width-2 mask, so Extract2 is the generic 2-bit Extract cast to byte. |
| ByteHelper.Store2 | Gorgon.BCnEncoder.NET/Shared/ByteHelper.cs:43-49 | With the literal mask 0x3, Store2 is the generic 2-bit Store of the widened byte. |
| ByteHelper.Extract4 | Gorgon.BCnEncoder.NET/Shared/ByteHelper.cs:51-55 | The literal mask 0xF is the width-4 mask, so Extract4 is the generic 4-bit Extract cast to byte. |
| ByteHelper.Store4 | Gorgon.BCnEncoder.NET/Shared/ByteHelper.cs:57-63 | With the literal mask 0xF, Store4 is the generic 4-bit Store of the widened byte. |
| ByteHelper.Extract6 | Gorgon.BCnEncoder.NET/Shared/ByteHelper.cs:65-69 | The literal mask 0x3F is the width-6 mask, so Extract6 is the generic 6-bit Extract cast to byte. |
| ByteHelper.Store6 | Gorgon.BCnEncoder.NET/Shared/ByteHelper.cs:71-77 | With the literal mask 0x3F, Store6 is the generic 6-bit Store of the widened byte. |
| ByteHelper.FixedFieldRoundTrip | Gorgon.BCnEncoder.NET/Shared/ByteHelper.cs:23-77 | After StoreN, ExtractN at the same index returns the value mod 2, 4, 16 or 64. |
| ByteHelper.ExtractFrom128Bits | Gorgon.BCnEncoder.NET/Shared/ByteHelper.cs:99-121 | In all three branches (low word, high word, straddling), bit i of the result is bit index + i of the 128-bit pair low + high for i < bitCount, and 0 above. |
| ByteHelper.StoreTo128LowBits | Gorgon.BCnEncoder.NET/Shared/ByteHelper.cs:125-128 | A field inside the low word changes only bits index..index + bitCount - 1 of low, and high stays. |
| ByteHelper.StoreTo128HighBits | Gorgon.BCnEncoder.NET/Shared/ByteHelper.cs:129-132 | A field inside the high word changes only its bits of high, and low stays. |
| ByteHelper.StoreTo128StraddleBits | Gorgon.BCnEncoder.NET/Shared/ByteHelper.cs:133-144 | A straddling field fills the top of low from the value's low bits and the bottom of high from its remaining bits. |
| ByteHelper.StoreTo128Bits | Gorgon.BCnEncoder.NET/Shared/ByteHelper.cs:123-145 | Bit k of the 128-bit result comes from value inside [index, index + bitCount) and from the old pair everywhere else. |
| ByteHelper.ExtractFrom128StoreTo128 | Gorgon.BCnEncoder.NET/Shared/ByteHelper.cs:99-145 | ExtractFrom128 after StoreTo128 at the same index and width returns value & mask, the straddling case included. |
| ByteHelper.ExtractFrom128StoreTo128Nat | Gorgon.BCnEncoder.NET/Shared/ByteHelper.cs:99-145 | The same round trip on numbers: the field reads back as v mod 2^bitCount. |
| ByteHelper.StoreTo128Frame | Gorgon.BCnEncoder.NET/Shared/ByteHelper.cs:123-145 | StoreTo128 leaves every field that shares no bit with [index, index + bitCount) unchanged. |
| Bc7Tables.Subsets2PartitionRange | Gorgon.BCnEncoder.NET/Shared/Bc7Block.cs:33-99 | Every entry of the two-subset partition table is 0 or 1, and texel 0 is in subset 0. |
| Bc7Tables.Subsets3PartitionRange | Gorgon.BCnEncoder.NET/Shared/Bc7Block.cs:100-166 | Every entry of the three-subset partition table is 0, 1 or 2, and texel 0 is in subset 0. |
| Bc7Tables.Subsets2AnchorInSubset | Gorgon.BCnEncoder.NET/Shared/Bc7Block.cs:167-177 | Every two-subset anchor is a texel after texel 0 that lies in subset 1. |
| Bc7Tables.Subsets3AnchorsInSubsets | Gorgon.BCnEncoder.NET/Shared/Bc7Block.cs:178-198 | The two three-subset anchors are distinct texels after texel 0, lying in subsets 1 and 2. |
| Bc7Layout.TypeFromNumber | Gorgon.BCnEncoder.NET/Shared/Bc7Block.cs:209 | The cast of 0..8 to the block type keeps the number. |
| Bc7Layout.TypeOfLowestSetBit | Gorgon.BCnEncoder.NET/Shared/Bc7Block.cs:200-215 | The Type is the lowest set bit among bits 0-7 of lowBits, and Type8Reserved exactly when none is set. |
| Bc7Layout.TypeOfTag | Gorgon.BCnEncoder.NET/Shared/Bc7Block.cs:200-215 | A low word with bit m set and bits below m clear is of mode m. |
| Bc7Layout.PartitionSetId | Gorgon.BCnEncoder.NET/Shared/Bc7Block.cs:230-238 | The partition number is in 0..63 (0..15 in mode 0) for the modes with subsets, and -1 otherwise. |
| Bc7Layout.RotationBits | Gorgon.BCnEncoder.NET/Shared/Bc7Block.cs:240-245 | The rotation is below 4, and 0 in the modes without rotation bits. |
| Bc7Layout.Type4IndexMode | Gorgon.BCnEncoder.NET/Shared/Bc7Block.cs:291 | The index mode is 0 or 1. |
| Bc7Layout.ColorIndexBitCount | Gorgon.BCnEncoder.NET/Shared/Bc7Block.cs:293-315 | Every valid mode uses 2 to 4 bits per colour index. |
| Bc7Layout.AlphaIndexBitCount | Gorgon.BCnEncoder.NET/Shared/Bc7Block.cs:317-334 | Modes with alpha use 2 to 4 bits per alpha index, and the other modes use 0. |
| Bc7Layout.ExtractSmall | Gorgon.BCnEncoder.NET/Shared/Bc7Block.cs:230-245 | An n-bit header field read with ExtractN is below 2^n. |
| Bc7Layout.GetPartitionIndex | Gorgon.BCnEncoder.NET/Shared/Bc7Block.cs:600-606 | The subset lies in 0..numSubsets-1, and texel 0 is in subset 0. ArgumentOutOfRangeException is thrown unless numSubsets is in 1..3. |
| Bc7Layout.GetIndexOffset | Gorgon.BCnEncoder.NET/Shared/Bc7Block.cs:609-637 | Succeeds exactly for index 0 or numSubsets in 1..3, and throws ArgumentOutOfRangeException otherwise. |
| Bc7Layout.GetIndexBegin | Gorgon.BCnEncoder.NET/Shared/Bc7Block.cs:657-668 | Defined for every mode but Type8Reserved, which throws. |
| Bc7Layout.IndexOffsetStep | Gorgon.BCnEncoder.NET/Shared/Bc7Block.cs:609-655 | GetIndexOffset(i + 1) == GetIndexOffset(i) + GetIndexBitCount(i). |
| Bc7Layout.IndexStreamLength | Gorgon.BCnEncoder.NET/Shared/Bc7Block.cs:609-655 | The 16 indices of a stream take 16 * bitCount - numSubsets bits, one bit fewer per anchor. |
| Bc7Layout.IndexInStream | Gorgon.BCnEncoder.NET/Shared/Bc7Block.cs:609-655 | Each texel's index lies inside its stream and is bitCount - 1 or bitCount bits wide. |
| Bc7Layout.EndpointOffsetsAsWritten | Gorgon.BCnEncoder.NET/Shared/Bc7Block.cs:344-487 | The generic endpoint positions are exactly the literal offsets ExtractRawEndpoints reads, mode by mode. |
| Bc7Layout.EndpointSection | Gorgon.BCnEncoder.NET/Shared/Bc7Block.cs:250-285 | Each precision is the stored width plus the p-bit. Modes have p-bits exactly when GetPBitCount > 0. The first index stream begins right after the p-bits. |
| Bc7Layout.ComponentInBlock | Gorgon.BCnEncoder.NET/Shared/Bc7Block.cs:344-487 | Every stored component lies inside the endpoint section, which ends by bit 128. |
| Bc7Layout.RawComponentFits | Gorgon.BCnEncoder.NET/Shared/Bc7Block.cs:344-487 | A component read back is below 2^width. |
| Bc7Layout.RawEndpointFits | Gorgon.BCnEncoder.NET/Shared/Bc7Block.cs:344-487 | Every raw endpoint ExtractRawEndpoints reads fits the mode's field widths. |
| Bc7Layout.ExtractRawEndpoints | Gorgon.BCnEncoder.NET/Shared/Bc7Block.cs:344-487 | Throws InvalidDataException exactly for Type8Reserved. Entries past GetRawEndPointCount, and the alpha of modes without alpha, keep the buffer's values. |
| Bc7Layout.ExtractPBitArray | Gorgon.BCnEncoder.NET/Shared/Bc7Block.cs:489-522 | Returns GetPBitCount p-bits. |
| Bc7Layout.PBitArrayBits | Gorgon.BCnEncoder.NET/Shared/Bc7Block.cs:489-530 | The p-bits are the GetPBitCount bits that follow the endpoints, in order, each as 0 or 1. |
| Bc7Layout.PBitsOfType0 | Gorgon.BCnEncoder.NET/Shared/Bc7Block.cs:493-500 | Mode 0's p-bits are the six Extract1 calls on bits 13-18 of highBits. |
| Bc7Layout.PBitsOfType1 | Gorgon.BCnEncoder.NET/Shared/Bc7Block.cs:501-504 | Mode 1's p-bits are the two Extract1 calls of the source. |
| Bc7Layout.PBitsOfType3Or7 | Gorgon.BCnEncoder.NET/Shared/Bc7Block.cs:505-520 | Modes 3 and 7 have four p-bits, read by the Extract1 calls of the source. |
| Bc7Layout.Extract1Bit | Gorgon.BCnEncoder.NET/Shared/ByteHelper.cs:23-27 | Extract1 returns one bit as 0 or 1. |
| Bc7Color.WeightsShape | Gorgon.BCnEncoder.NET/Shared/Bc7Block.cs:28-30 | Each weight table starts at 0, ends at 64, has 2^precision entries and lies within 0..64. |
| Bc7Color.BlendValue | Gorgon.BCnEncoder.NET/Shared/Bc7Block.cs:694-705 | ((64 - w) * e0 + w * e1 + 32) >> 6 lies between e0 and e1 for a weight in 0..64. |
| Bc7Color.InterpolateByte | Gorgon.BCnEncoder.NET/Shared/Bc7Block.cs:694-705 | The interpolated byte lies between the two endpoints, whatever the index. |
| Bc7Color.InterpolateByteEnds | Gorgon.BCnEncoder.NET/Shared/Bc7Block.cs:694-705 | Index 0 gives e0 and the top index gives e1. |
| Bc7Color.InterpolateColor | Gorgon.BCnEncoder.NET/Shared/Bc7Block.cs:691-725 | Every channel of the result lies between those of the two endpoints. |
| Bc7Color.InterpolateColorEnds | Gorgon.BCnEncoder.NET/Shared/Bc7Block.cs:691-725 | Index 0 gives the start endpoint and the top indices give the end endpoint. |
| Bc7Color.InterpolateColorNoAlpha | Gorgon.BCnEncoder.NET/Shared/Bc7Block.cs:691-725 | With no alpha index bits, the start endpoint's alpha is kept. |
| Bc7Color.SwapChannelsInvolution | Gorgon.BCnEncoder.NET/Shared/Bc7Block.cs:727-735 | Applying SwapChannels twice with the same rotation restores the colour. |
| Bc7Color.SwapChannelsMoves | Gorgon.BCnEncoder.NET/Shared/Bc7Block.cs:727-735 | Rotation k in 1..3 swaps alpha with channel k - 1; rotation 0 changes nothing. |
| Bc7Color.ExpandComponentValue | Gorgon.BCnEncoder.NET/Shared/Bc7Block.cs:573-585 | The shift-then-replicate expression computes Expanded for every raw value the precision holds. |
| Bc7Color.ExpandedProperties | Gorgon.BCnEncoder.NET/Shared/Bc7Block.cs:573-585 | The raw value sits in the top precision bits and its top bits repeat below. 0 maps to 0 and the largest raw value to 255. |
| Bc7Color.ShiftedEndpoints | Gorgon.BCnEncoder.NET/Shared/Bc7Block.cs:536-539 | The shift pass keeps the endpoint count; ShiftOrComponents states what it does to each component. |
| Bc7Color.OrPBits | Gorgon.BCnEncoder.NET/Shared/Bc7Block.cs:549-562 | The OR pass keeps the endpoint count; PBitPassAt states which p-bit each endpoint receives. |
| Bc7Color.PBitPass | Gorgon.BCnEncoder.NET/Shared/Bc7Block.cs:534-569 | The p-bit pass keeps the endpoint count; PBitPassAt gives its values. |
| Bc7Color.FinalizedEndpoints | Gorgon.BCnEncoder.NET/Shared/Bc7Block.cs:532-598 | The finalised endpoints have the same count as the raw ones; FinalizedEndpointValues gives their values. |
| Bc7Color.FinalizedComponent | Gorgon.BCnEncoder.NET/Shared/Bc7Block.cs:534-585 | A stored component with its p-bit appended fits the precision and widens to Expanded. |
| Bc7Color.AppendPBit | Gorgon.BCnEncoder.NET/Shared/Bc7Block.cs:536-562 | For a component below 128, `<< 1` doubles it and `|` p-bit then appends the p-bit. |
| Bc7Color.FinalizedEndpointValues | Gorgon.BCnEncoder.NET/Shared/Bc7Block.cs:532-598 | Each stored component, followed by its p-bit, is widened by Expanded at the mode's precision; alpha is 255 in modes 0-3. |
| Bc7Color.ShiftOrComponents | Gorgon.BCnEncoder.NET/Shared/Bc7Block.cs:536-562 | For components below 128, `<< 1` doubles each stored component and `\| p` then adds the p-bit. |
| Bc7Color.FinalizedAt | Gorgon.BCnEncoder.NET/Shared/Bc7Block.cs:570-597 | Each finalised endpoint widens the p-bit pass's components at the mode's precisions, with alpha 255 in modes without alpha. |
| Bc7Color.PBitPassAt | Gorgon.BCnEncoder.NET/Shared/Bc7Block.cs:534-569 | After the p-bit pass every stored component of endpoint i is its raw value with its p-bit appended (Type1: pBits[0] for endpoints 0-1, pBits[1] for 2-3; other modes one per endpoint), and unchanged without p-bits. |
| Bc7Color.FinalizedOpaque | Gorgon.BCnEncoder.NET/Shared/Bc7Block.cs:590-597 | In modes without stored alpha, every finalised endpoint is opaque, whatever alpha it held. |
| Bc7Packing.PutAllReadBack | Gorgon.BCnEncoder.NET/Shared/ByteHelper.cs:123-145 | When stored fields lie in the block and share no bit, each reads back as its value mod 2^width. |
| Bc7Packing.PutAllKeeps | Gorgon.BCnEncoder.NET/Shared/ByteHelper.cs:123-145 | A bit outside every stored field keeps its value. |
| Bc7Packing.HeaderLaid | Gorgon.BCnEncoder.NET/Shared/Bc7Block.cs:826-836 | The mode tag, partition, rotation and index-mode fields lie between the tag bit and the first endpoint, without overlap. |
| Bc7Packing.ComponentLaid | Gorgon.BCnEncoder.NET/Shared/Bc7Block.cs:848-855 | One pass of the inner endpoint loop lays one field per endpoint, back to back from the component's start, without overlap. |
| Bc7Packing.EndpointsLaid | Gorgon.BCnEncoder.NET/Shared/Bc7Block.cs:846-856 | All endpoint fields lie between the header and the p-bits, without overlap. |
| Bc7Packing.PBitLaid | Gorgon.BCnEncoder.NET/Shared/Bc7Block.cs:857-862 | The p-bit fields lie right after the endpoints, one bit apiece. |
| Bc7Packing.IndexLaid | Gorgon.BCnEncoder.NET/Shared/Bc7Block.cs:865-876 | The index fields of a stream lie inside that stream, without overlap. |
| Bc7Packing.PackRegions | Gorgon.BCnEncoder.NET/Shared/Bc7Block.cs:863 | The index streams start after the p-bits (the source asserts nextIdx == GetIndexBegin) and end by bit 128. In modes 4-5 the colour and alpha streams do not overlap. |
| Bc7Packing.LayoutLaid | Gorgon.BCnEncoder.NET/Shared/Bc7Block.cs:826-1238 | Every field a PackTypeN method stores lies between the mode tag and bit 128, and no two fields share a bit. |
| Bc7Packing.PackedField | Gorgon.BCnEncoder.NET/Shared/Bc7Block.cs:826-1238 | Every field of a packed block reads back as its value mod 2^width. |
| Bc7Packing.PackedType | Gorgon.BCnEncoder.NET/Shared/Bc7Block.cs:826-836 | After PackTypeN, Type == TypeN. |
| Bc7Packing.PackedPartition | Gorgon.BCnEncoder.NET/Shared/Bc7Block.cs:230-238 | PartitionSetId of a packed block reads back the packed partition number. |
| Bc7Packing.PackedRotation | Gorgon.BCnEncoder.NET/Shared/Bc7Block.cs:240-245 | RotationBits reads back the packed rotation mod 4 in modes 4 and 5, and 0 elsewhere. |
| Bc7Packing.PackedIndexMode | Gorgon.BCnEncoder.NET/Shared/Bc7Block.cs:291 | Type4IndexMode of a packed mode-4 block is the packed idxMode bit. |
| Bc7Packing.PackedDescriptors | Gorgon.BCnEncoder.NET/Shared/Bc7Block.cs:737-775 | The subset count, partition and rotation that Decode derives from a packed block are the packed ones. |
| Bc7Packing.PackedComponent | Gorgon.BCnEncoder.NET/Shared/Bc7Block.cs:344-487 | Component c of raw endpoint j reads back as the packed component mod 2^fieldwidth. |
| Bc7Packing.PackedEndpoint | Gorgon.BCnEncoder.NET/Shared/Bc7Block.cs:344-487 | ExtractRawEndpoints on a packed block returns the packed endpoints cut to their widths; modes 0-3 keep the buffer's alpha. |
| Bc7Packing.PackedPBit | Gorgon.BCnEncoder.NET/Shared/Bc7Block.cs:489-522 | ExtractPBitArray on a packed block returns the packed p-bits mod 2. |
| Bc7Packing.PackedColorIndex | Gorgon.BCnEncoder.NET/Shared/Bc7Block.cs:683-689 | The colour index Decode reads for texel i is the packed index, cut to its field width. |
| Bc7Packing.PackedAlphaIndex | Gorgon.BCnEncoder.NET/Shared/Bc7Block.cs:670-681 | The alpha index is the packed alpha index in modes 4-5, the colour index in modes 6-7, and 0 in modes 0-3. |
| Bc7Packing.PackedEndpoints | Gorgon.BCnEncoder.NET/Shared/Bc7Block.cs:532-598 | Decoding a packed block's endpoints finalises the packed endpoints (cut to their fields) with the packed p-bits. This is the endpoint half of the PackTypeN/Decode round trip. |
| Bc7Decoding.DecodePartitionValid | Gorgon.BCnEncoder.NET/Shared/Bc7Block.cs:743-752 | The subset count and partition number Decode uses always name a row of the tables. |
| Bc7Decoding.IndexStreamsAsWritten | Gorgon.BCnEncoder.NET/Shared/Bc7Block.cs:657-668 | The colour stream and, in modes 4-5, the alpha stream follow the p-bits back to back; the last ends at bit 128. |
| Bc7Decoding.DecodeStreamsInBlock | Gorgon.BCnEncoder.NET/Shared/Bc7Block.cs:657-689 | The streams Decode reads lie between the p-bits and bit 128. |
| Bc7Decoding.IndexPositionInBlock | Gorgon.BCnEncoder.NET/Shared/Bc7Block.cs:670-689 | Every index Decode reads lies inside the block and is bitCount - 1 or bitCount bits wide; texel 0's is one bit narrower. |
| Bc7Decoding.ReadIndexFits | Gorgon.BCnEncoder.NET/Shared/Bc7Block.cs:670-705 | An index read by Decode picks an entry of its weight table; texel 0's index lies in the lower half. |
| Bc7Decoding.DecodeIndicesFit | Gorgon.BCnEncoder.NET/Shared/Bc7Block.cs:776-790 | Both indices Decode reads for a texel pick entries of their weight tables. |
| Bc7Decoding.SubsetOf | Gorgon.BCnEncoder.NET/Shared/Bc7Block.cs:778 | Texel i's subset is below the subset count, and texel 0 is in subset 0. |
| Bc7Decoding.InterpolatedTexel | Gorgon.BCnEncoder.NET/Shared/Bc7Block.cs:776-790 | Each channel of texel i lies between the finalised endpoints of its subset. |
| Bc7Decoding.DecodeBlock | Gorgon.BCnEncoder.NET/Shared/Bc7Block.cs:737-806 | Decode throws InvalidDataException exactly for Type8Reserved, and otherwise yields 16 texels. |
| Bc7Decoding.DecodeBlockAt | Gorgon.BCnEncoder.NET/Shared/Bc7Block.cs:776-798 | Texel i is the interpolation between its subset's finalised endpoints, rotated back by SwapChannels. |
| Bc7Decoding.PBitsAreBits | Gorgon.BCnEncoder.NET/Shared/Bc7Block.cs:489-522 | Every p-bit is 0 or 1. |
| Bc7Decoding.DecodedEndpointIgnoresPool | Gorgon.BCnEncoder.NET/Shared/Bc7Block.cs:766-772 | Each finalised endpoint depends on the block alone. Alpha left over in the rented buffer is overwritten. |
| Bc7Decoding.DecodeIgnoresPool | Gorgon.BCnEncoder.NET/Shared/Bc7Block.cs:766-772 | Whatever the rented endpoint buffer held, Decode returns the same texels. |
| Bc7Decoding.DecodeTexelBetween | Gorgon.BCnEncoder.NET/Shared/Bc7Block.cs:776-798 | With the rotation undone, each texel lies channel by channel between its subset's finalised endpoints. |
| Bc7Decoding.DecodeOpaqueModes | Gorgon.BCnEncoder.NET/Shared/Bc7Block.cs:590-597 | Every texel of a mode 0-3 block is opaque. |
| Bc7Blocks.GetComponent3 | Gorgon.BCnEncoder.NET/Shared/Bc7Block.cs:810-816 | Returns g for 1, b for 2, and r for any other component id. |
| Bc7Blocks.GetComponent4 | Gorgon.BCnEncoder.NET/Shared/Bc7Block.cs:818-824 | Returns g, b or a for 1, 2 or 3, and r otherwise. |
| Bc7Blocks.MaskTest | Gorgon.BCnEncoder.NET/Shared/Bc7Block.cs:206-207 | `(lowBits & (ulong)(1 << i)) == mask` holds exactly when bit i of lowBits is set. |
| Bc7Blocks.FinalizedInSteps | Gorgon.BCnEncoder.NET/Shared/Bc7Block.cs:532-598 | The finalised endpoints are the p-bit pass, then the widening pass, then (without alpha) the opaque pass. |
| Bc7Blocks.Bc7Block.constructor | Gorgon.BCnEncoder.NET/Shared/Bc7Block.cs:23-26 | A new block holds the given words. |
| Bc7Blocks.Bc7Block.GetType | Gorgon.BCnEncoder.NET/Shared/Bc7Block.cs:200-215 | The loop over bits 0-7 returns the lowest set bit's mode, or Type8Reserved when none is set. |
| Bc7Blocks.Bc7Block.FinalizeEndpoints | Gorgon.BCnEncoder.NET/Shared/Bc7Block.cs:532-598 | The endpoint array after the in-place passes equals FinalizedEndpoints of the old array. |
| Bc7Blocks.Bc7Block.ShiftEndpoints | Gorgon.BCnEncoder.NET/Shared/Bc7Block.cs:536-539 | The loop leaves ShiftedEndpoints of the old array. |
| Bc7Blocks.Bc7Block.OrEndpointPBits | Gorgon.BCnEncoder.NET/Shared/Bc7Block.cs:549-562 | The loop leaves OrPBits of the old array. |
| Bc7Blocks.Bc7Block.ExpandEndpoints | Gorgon.BCnEncoder.NET/Shared/Bc7Block.cs:573-585 | The loop widens every component of every endpoint. |
| Bc7Blocks.Bc7Block.SetOpaque | Gorgon.BCnEncoder.NET/Shared/Bc7Block.cs:590-597 | The loop leaves every alpha 255 and the colours unchanged. |
| Bc7Blocks.Bc7Block.Decode | Gorgon.BCnEncoder.NET/Shared/Bc7Block.cs:737-806 | Decode returns DecodeBlock of the block's words, for whatever the rented buffer held. |
| Bc7Blocks.Bc7Block.DecodeTexels | Gorgon.BCnEncoder.NET/Shared/Bc7Block.cs:776-798 | The texel loop produces the 16 texels DecodeBlock specifies. |
| Bc7Blocks.Bc7Block.TexelColor | Gorgon.BCnEncoder.NET/Shared/Bc7Block.cs:778-796 | One pass of the texel loop: texel i's interpolated, rotated colour. |
| Bc7Blocks.Bc7Block.PreparedEndpoints | Gorgon.BCnEncoder.NET/Shared/Bc7Block.cs:766-772 | The rented buffer after ExtractRawEndpoints and FinalizeEndpoints is DecodedEndpoints. |
| Bc7Blocks.Bc7Block.StoreComponents3 | Gorgon.BCnEncoder.NET/Shared/Bc7Block.cs:850-854 | One pass of the inner endpoint loop appends ComponentFields to the stored fields. |
| Bc7Blocks.Bc7Block.StoreComponents4 | Gorgon.BCnEncoder.NET/Shared/Bc7Block.cs:1170-1176 | The same for (r, g, b, a) endpoints. |
| Bc7Blocks.Bc7Block.StoreAlphas | Gorgon.BCnEncoder.NET/Shared/Bc7Block.cs:1040-1046 | The alpha endpoint loop of modes 4-5 appends one field per alpha endpoint. |
| Bc7Blocks.Bc7Block.StorePBits | Gorgon.BCnEncoder.NET/Shared/Bc7Block.cs:857-862 | The p-bit loop appends PBitFields. |
| Bc7Blocks.Bc7Block.StoreIndices | Gorgon.BCnEncoder.NET/Shared/Bc7Block.cs:865-876 | The index loop appends IndexFields and keeps the Type and Type4IndexMode it reads each round. |
| Bc7Blocks.Bc7Block.StoreIndex | Gorgon.BCnEncoder.NET/Shared/Bc7Block.cs:867-875 | One round of the index loop appends index i's field. |
| Bc7Blocks.Bc7Block.StoreRgbEndpoints | Gorgon.BCnEncoder.NET/Shared/Bc7Block.cs:848-855 | The outer endpoint loop stores all reds, then all greens, then all blues. |
| Bc7Blocks.Bc7Block.StoreRgbaEndpoints | Gorgon.BCnEncoder.NET/Shared/Bc7Block.cs:1168-1177 | The outer endpoint loop of modes 6-7 makes four passes. |
| Bc7Blocks.Bc7Block.StorePackedIndices | Gorgon.BCnEncoder.NET/Shared/Bc7Block.cs:864-877 | The closing index loops complete PackedBlock of the mode's fields. |
| Bc7Blocks.Bc7Block.PackType0 | Gorgon.BCnEncoder.NET/Shared/Bc7Block.cs:826-877 | (lowBits, highBits) becomes PackedBlock of mode 0's layout. PackedType, PackedEndpoints and the other read-back lemmas then apply. |
| Bc7Blocks.Bc7Block.PackType1 | Gorgon.BCnEncoder.NET/Shared/Bc7Block.cs:879-921 | (lowBits, highBits) becomes PackedBlock of mode 1's layout: a 6-bit partition, two shared p-bits and 3-bit indices. |
| Bc7Blocks.Bc7Block.PackType2 | Gorgon.BCnEncoder.NET/Shared/Bc7Block.cs:923-960 | (lowBits, highBits) becomes PackedBlock of mode 2's layout. |
| Bc7Blocks.Bc7Block.PackType3 | Gorgon.BCnEncoder.NET/Shared/Bc7Block.cs:962-1006 | (lowBits, highBits) becomes PackedBlock of mode 3's layout. |
| Bc7Blocks.Bc7Block.PackType4 | Gorgon.BCnEncoder.NET/Shared/Bc7Block.cs:1008-1085 | Mode 4's layout with rotation and idxMode. idxMode 0 puts the colour indices in the 2-bit stream, idxMode 1 in the 3-bit stream. |
| Bc7Blocks.Bc7Block.PackType5 | Gorgon.BCnEncoder.NET/Shared/Bc7Block.cs:1087-1148 | Mode 5's layout with rotation, separate colour and alpha indices. |
| Bc7Blocks.Bc7Block.PackType6 | Gorgon.BCnEncoder.NET/Shared/Bc7Block.cs:1150-1193 | Mode 6's layout, whose p-bits straddle the two words. |
| Bc7Blocks.Bc7Block.PackType7 | Gorgon.BCnEncoder.NET/Shared/Bc7Block.cs:1195-1238 | Mode 7's layout. |
| Bc7EncodingHelpers.PrecisionTables | BCnEnc.Net/Encoder/Bc7/Bc7EncodingHelpers.cs:109-161 | The precision without p-bit is the precision with p-bit minus 1 in p-bit modes, and equal otherwise. The tables agree with the block's descriptors. |
| Bc7EncodingHelpers.IndexBitCountsAgree | BCnEnc.Net/Encoder/Bc7/Bc7EncodingHelpers.cs:163-200 | The encoder's index widths agree with the ones the decoder reads from a block. |
| Bc7EncodingHelpers.ExpandEndpoints | BCnEnc.Net/Encoder/Bc7/Bc7EncodingHelpers.cs:202-255 | For every valid mode, the encoder's in-place expansion (p-bit pass, with Type1's shared p-bits, then MSB replication and alpha 255 where alpha is not stored) leaves exactly the decoder's FinalizedEndpoints. |
| Bc7EncodingHelpers.ExpandEndpointAgrees | BCnEnc.Net/Encoder/Bc7/Bc7EncodingHelpers.cs:202-286 | ExpandEndpoint agrees element-wise with ExpandEndpoints, given the p-bit ExpandEndpoints uses. |
| Bc7EncodingHelpers.ExpandEndpointOpaque | BCnEnc.Net/Encoder/Bc7/Bc7EncodingHelpers.cs:278-283 | In modes 0-3 an expanded endpoint has alpha 255. |
| Bc7EncodingHelpers.PBitVote | BCnEnc.Net/Encoder/Bc7/Bc7EncodingHelpers.cs:690-706 | The p-bit ScaleDownEndpoint votes for is 0 or 1. |
| Bc7EncodingHelpers.ScaleDownFits | BCnEnc.Net/Encoder/Bc7/Bc7EncodingHelpers.cs:679-718 | Every returned component fits the no-p-bit precision, and alpha is 0 when ignoreAlpha. |
| Bc7EncodingHelpers.ScaleDownPBit | BCnEnc.Net/Encoder/Bc7/Bc7EncodingHelpers.cs:679-718 | pBit is 0 or 1, and 0 in modes without p-bits. |
| Bc7EncodingHelpers.ScaleDownRoundTrip | BCnEnc.Net/Encoder/Bc7/Bc7EncodingHelpers.cs:257-286 | Scaling down and expanding again keeps the top precision bits of every stored component. |
| Bc7EncodingHelpers.ComponentRoundTrip | BCnEnc.Net/Encoder/Bc7/Bc7EncodingHelpers.cs:257-286 | One component scaled down to its stored field (with its p-bit) and expanded again keeps its top precision bits. |
| Bc7EncodingHelpers.ClampEndpoint | BCnEnc.Net/Encoder/Bc7/Bc7EncodingHelpers.cs:752-773 | Caps r, g, b at colorMax and a at alphaMax, leaving in-range components unchanged. |
| Bc7EncodingHelpers.RotateBlockColors | BCnEnc.Net/Encoder/Bc7/Bc7EncodingHelpers.cs:1124-1153 | Rotation 0 returns the same block. Any other rotation returns a new block of rotated pixels. |
| Bc7EncodingHelpers.RotatedColorInvolution | BCnEnc.Net/Encoder/Bc7/Bc7EncodingHelpers.cs:1132-1150 | Rotating back with the same rotation 1..3 restores a pixel. |
| Bc7Clusters.ClusterIndices4X4.constructor | BCnEnc.Net/Encoder/Bc7/Bc7EncodingHelpers.cs:13 | A new block holds sixteen zero labels. |
| Bc7Clusters.ClusterIndices4X4.NumClusters | BCnEnc.Net/Encoder/Bc7/Bc7EncodingHelpers.cs:29-56 | NumClusters is the number of distinct labels among the 16 entries, which lies in 1..16. |
| Bc7Clusters.ClusterIndices4X4.Reduce | BCnEnc.Net/Encoder/Bc7/Bc7EncodingHelpers.cs:62-92 | The output labels lie in [0, numClusters), with out[0] == 0 and out[i] == out[j] iff in[i] == in[j]. A label's first occurrence gets the number of distinct labels before it, so labels are numbered in order of first appearance. |
| Bc7Clusters.AssignLabel | BCnEnc.Net/Encoder/Bc7/Bc7EncodingHelpers.cs:72-87 | One round of the scan: a label seen before gets its key's position and leaves the keys unchanged; a new label gets position next, the count of distinct labels so far, and is appended as a key. |
| Bc7Clusters.DistinctCount | BCnEnc.Net/Encoder/Bc7/Bc7EncodingHelpers.cs:29-56 | A sequence without repetitions holds as many labels as it has entries. |
| Bc7Clusters.KeysGrow | BCnEnc.Net/Encoder/Bc7/Bc7EncodingHelpers.cs:71-89 | One step of Reduce's scan keeps the key buffer within numClusters entries. |
| Bc7Partitions.Row | Gorgon.BCnEncoder.NET/Shared/Bc7Block.cs:33-166 | Row p of a partition table has 16 entries below the subset count. |
| Bc7Partitions.MismatchSplit | BCnEnc.Net/Encoder/Bc7/Bc7EncodingHelpers.cs:329-345 | Counting mismatches texel by texel equals counting them subset by subset. |
| Bc7Partitions.MostFrequentIs | BCnEnc.Net/Encoder/Bc7/Bc7EncodingHelpers.cs:305-327 | MostFrequent, the first pass's per-subset maximum, is the count of a subset's most frequent label. |
| Bc7Partitions.ErrorFromChosen | BCnEnc.Net/Encoder/Bc7/Bc7EncodingHelpers.cs:329-345 | With each subset's most frequent label chosen, the mismatch count is SubsetErrors. |
| Bc7Partitions.SubsetErrorsNonNegative | BCnEnc.Net/Encoder/Bc7/Bc7EncodingHelpers.cs:329-345 | The partition error is never negative. |
| Bc7Partitions.CalculatePartitionError | BCnEnc.Net/Encoder/Bc7/Bc7EncodingHelpers.cs:295-348 | The two counting passes compute PartitionError, which lies in 0..16. |
| Bc7Partitions.SelectBestPartition | BCnEnc.Net/Encoder/Bc7/Bc7EncodingHelpers.cs:288-373 | Returns the lowest-index partition with minimal error, and bestError in 0..16. |
| Bc7Partitions.RankedPermutation | BCnEnc.Net/Encoder/Bc7/Bc7EncodingHelpers.cs:436 | Ranking lists every partition exactly once. |
| Bc7Partitions.RankedOrder | BCnEnc.Net/Encoder/Bc7/Bc7EncodingHelpers.cs:436 | Ranking orders partitions by non-decreasing error, ties in index order (a stable OrderBy). |
| Bc7Partitions.PartitionErrors | BCnEnc.Net/Encoder/Bc7/Bc7EncodingHelpers.cs:377-436 | One error per partition: 64 entries, the keys OrderBy sorts by. |
| Bc7Partitions.ErrorKeys | BCnEnc.Net/Encoder/Bc7/Bc7EncodingHelpers.cs:436 | The keys OrderBy computes are PartitionErrors. |
| Bc7Partitions.RankPartitions | BCnEnc.Net/Encoder/Bc7/Bc7EncodingHelpers.cs:375-439 | Rank2/Rank3SubsetPartitions return a permutation of 0..63 ordered by non-decreasing error, ties kept in index order. |
| Colors.Widen5 | BCnEnc.Net/Shared/Colors.cs:24-25 | MSB replication of a 5-bit value: the value in the top 5 bits, its top 3 bits below; 0 maps to 0 and 31 to 255. |
| Colors.Widen6 | BCnEnc.Net/Shared/Colors.cs:36-37 | MSB replication of a 6-bit value: 0 maps to 0 and 63 to 255. |
| Colors.ClampTo | BCnEnc.Net/Shared/Colors.cs:63-71 | The result is in 0..max, and equals the value when the value is already in range. |
| Colors.ColorRgb565.Equals | BCnEnc.Net/Shared/Colors.cs:8 | Two 565 colours are Equal exactly when their data words are equal. |
| Colors.RawFields | BCnEnc.Net/Shared/Colors.cs:58-116 | RawR, RawG and RawB read bits 11-15, 5-10 and 0-4 of data. |
| Colors.Replicate5 | BCnEnc.Net/Shared/Colors.cs:25 | `(v << 3) \| (v >> 2)` on a 5-bit value is Widen5. |
| Colors.Replicate6 | BCnEnc.Net/Shared/Colors.cs:37 | `(v << 2) \| (v >> 4)` on a 6-bit value is Widen6. |
| Colors.GettersWiden | BCnEnc.Net/Shared/Colors.cs:22-56 | The R, G and B getters widen their field by MSB replication. |
| Colors.SettersKeepOtherFields | BCnEnc.Net/Shared/Colors.cs:27-55 | The R/G/B setters store value >> 3 (G: >> 2), leave the other two fields unchanged, and read back with the same top bits. |
| Colors.RawSettersClamp | BCnEnc.Net/Shared/Colors.cs:58-116 | RawR/RawG/RawB setters clamp to 0..31/0..63/0..31, the getter returns the clamped value, and the other fields stay. |
| Colors.SettersRoundTrip | BCnEnc.Net/Shared/Colors.cs:22-116 | Setting any channel to what its getter returns leaves the colour unchanged. |
| Colors.FromRgbFields | BCnEnc.Net/Shared/Colors.cs:118-124 | new ColorRgb565(r, g, b) holds r >> 3, g >> 2 and b >> 3. |
| Colors.FromRgbIsSetters | BCnEnc.Net/Shared/Colors.cs:118-124 | The constructor's word is what its three setter calls leave on data = 0. |
| Colors.RawSettersOnZero | BCnEnc.Net/Shared/Colors.cs:58-116 | A fresh colour followed by the three raw setters packs the three clamped values. |
| Colors.PackedOwnFields | BCnEnc.Net/Shared/Colors.cs:14-20 | The three fields cover all 16 bits: repacking a colour's own fields gives it back. |
| Colors.ShiftLeftSaturates | BCnEnc.Net/Shared/Colors.cs:151-156 | For shift counts 0..23, `<<` multiplies each component by 2^right and saturates at 255. |
| Colors.ShiftLeftOverflows | BCnEnc.Net/Shared/Colors.cs:151-156 | From 24 on the int shift overflows: 128 << 24 is negative, so the component clamps to 0. |
| Colors.BitOrSaturates | BCnEnc.Net/Shared/Colors.cs:161-166 | `\|` with an int of 256 or more saturates every component at 255. |
| Colors.BitOrByte | BCnEnc.Net/Shared/Colors.cs:161-166 | `\|` with an int in 0..255 is the bitwise or of each component. |
| Colors.BitOrPBit | BCnEnc.Net/Shared/Colors.cs:161-166 | `\|` with a p-bit on even components adds it. |
| Colors.ColorRgb24.Plus | BCnEnc.Net/Shared/Colors.cs:195-198 | `+` adds channel-wise and saturates each channel at 255. |
| Colors.PlusCommutes | BCnEnc.Net/Shared/Colors.cs:195-198 | `+` is commutative and never darkens either operand. |
| EncodedBlocks.ColorIndex | Gorgon.BCnEncoder.NET/Shared/EncodedBlocks.cs:16 | The 2-bit index of texel i is in 0..3. |
| EncodedBlocks.ColorIndexIsGetter | Gorgon.BCnEncoder.NET/Shared/EncodedBlocks.cs:16 | ColorIndex equals `(int)(colorIndices >> (index * 2)) & 0b11`. |
| EncodedBlocks.WithColorIndex | Gorgon.BCnEncoder.NET/Shared/EncodedBlocks.cs:17-22 | The indexer's setter changes no bit outside texel index's 2-bit field (index taken mod 16). |
| EncodedBlocks.ColorIndexSet | Gorgon.BCnEncoder.NET/Shared/EncodedBlocks.cs:14-23 | The indexer's get after set returns value & 3. |
| EncodedBlocks.ColorIndexSetOther | Gorgon.BCnEncoder.NET/Shared/EncodedBlocks.cs:14-23 | Setting one index leaves the other 15 unchanged. |
| EncodedBlocks.ColorIndexWraps | Gorgon.BCnEncoder.NET/Shared/EncodedBlocks.cs:16 | The shift count wraps modulo 32, so texel i reads the field of texel i mod 16. |
| EncodedBlocks.EndpointsAreGetters | Gorgon.BCnEncoder.NET/Shared/EncodedBlocks.cs:147-165 | The endpoint getters are the source's mask-and-shift expressions, bytes 0 and 1 of the word. |
| EncodedBlocks.WithEndpoint0 | Gorgon.BCnEncoder.NET/Shared/EncodedBlocks.cs:150-154 | The setter's mask-and-or expression is the generic 8-bit Store at bit 0. |
| EncodedBlocks.WithEndpoint1 | Gorgon.BCnEncoder.NET/Shared/EncodedBlocks.cs:160-164 | The setter's mask-and-or expression is the generic 8-bit Store at bit 8. |
| EncodedBlocks.Endpoint0Set | Gorgon.BCnEncoder.NET/Shared/EncodedBlocks.cs:147-155 | Alpha0/Red0/Green0 set stores the byte and changes no bit outside bits 0-7. |
| EncodedBlocks.Endpoint1Set | Gorgon.BCnEncoder.NET/Shared/EncodedBlocks.cs:157-165 | Alpha1/Red1/Green1 set stores the byte and changes no bit outside bits 8-15. |
| EncodedBlocks.LevelIndex | Gorgon.BCnEncoder.NET/Shared/EncodedBlocks.cs:167-173 | A 3-bit index lies in 0..7. |
| EncodedBlocks.LevelIndexIsGetter | Gorgon.BCnEncoder.NET/Shared/EncodedBlocks.cs:167-173 | LevelIndex equals the getter's `(byte)((block & mask) >> shift)`. |
| EncodedBlocks.WithLevelIndex | Gorgon.BCnEncoder.NET/Shared/EncodedBlocks.cs:175-181 | The setter's mask-and-or expression is the generic 3-bit Store at bit 16 + 3 * pixelIndex. |
| EncodedBlocks.LevelIndexBits | Gorgon.BCnEncoder.NET/Shared/EncodedBlocks.cs:254-268 | The 3-bit index of pixel i occupies bits 16 + 3i .. 18 + 3i, inside the word for i < 16. |
| EncodedBlocks.LevelIndexSet | Gorgon.BCnEncoder.NET/Shared/EncodedBlocks.cs:167-181 | Set then get returns idx & 7. |
| EncodedBlocks.LevelIndexSetOther | Gorgon.BCnEncoder.NET/Shared/EncodedBlocks.cs:167-181 | Setting one 3-bit index leaves both endpoints and every other index unchanged. |
| EncodedBlocks.EndpointSetIndices | Gorgon.BCnEncoder.NET/Shared/EncodedBlocks.cs:147-181 | Setting either endpoint leaves every 3-bit index unchanged. |
| EncodedBlocks.ColorPalette | Gorgon.BCnEncoder.NET/Shared/EncodedBlocks.cs:37-48 | Four colours: the two widened endpoints first. With HasAlphaOrBlack the last is opaque black; the Black constant is never a palette entry. |
| EncodedBlocks.LevelPalette | Gorgon.BCnEncoder.NET/Shared/EncodedBlocks.cs:196-217 | Eight levels, whose values LevelPaletteValues states. |
| EncodedBlocks.LevelPaletteValues | Gorgon.BCnEncoder.NET/Shared/EncodedBlocks.cs:196-217 | With a0 > a1 the levels step from a0 down to a1 in sevenths; otherwise in fifths, with 0 and 255 last. |
| EncodedBlocks.EightLevelsDistinct | Gorgon.BCnEncoder.NET/Shared/EncodedBlocks.cs:200-209 | With a0 > a1 the eight levels are distinct values between a1 and a0. |
| EncodedBlocks.Bc1Texels | Gorgon.BCnEncoder.NET/Shared/EncodedBlocks.cs:27-65 | Sixteen texels, each an entry of the block's palette, or the Black constant when alpha is used. |
| EncodedBlocks.Bc1BlackTexels | Gorgon.BCnEncoder.NET/Shared/EncodedBlocks.cs:35-62 | A BC1 texel is the Black constant iff useAlpha, color0.data <= color1.data, and its index is 3. |
| EncodedBlocks.Bc3Texels | Gorgon.BCnEncoder.NET/Shared/EncodedBlocks.cs:183-227 | Sixteen texels; texel i takes the entry of the four-colour palette (never black) that its 2-bit index selects, and the alpha level that its 3-bit index selects. |
| EncodedBlocks.Bc4Texels | Gorgon.BCnEncoder.NET/Shared/EncodedBlocks.cs:270-308 | Sixteen opaque texels; texel i's red is the level of the red word that its 3-bit index selects. As luminance, green and blue copy it; otherwise they are 0. |
| EncodedBlocks.Bc5Texels | Gorgon.BCnEncoder.NET/Shared/EncodedBlocks.cs:388-420 | Sixteen opaque texels; texel i's red and green are the levels their own 3-bit indices select, with blue 0. |
| EncodedBlocks.Bc1Block.constructor | Gorgon.BCnEncoder.NET/Shared/EncodedBlocks.cs:8-12 | A new block holds the given fields. |
| EncodedBlocks.Bc1Block.Index | Gorgon.BCnEncoder.NET/Shared/EncodedBlocks.cs:16 | The indexer's getter returns 0..3. |
| EncodedBlocks.Bc1Block.SetIndex | Gorgon.BCnEncoder.NET/Shared/EncodedBlocks.cs:17-22 | Texel index takes value & 3, and every other texel keeps its index. |
| EncodedBlocks.Bc1Block.Decode | Gorgon.BCnEncoder.NET/Shared/EncodedBlocks.cs:27-65 | The loop's 16 pixels are Bc1Texels of the block's fields, so each is a palette entry or, under useAlpha, Black. |
| EncodedBlocks.Bc2Block.constructor | Gorgon.BCnEncoder.NET/Shared/EncodedBlocks.cs:69-74 | A new block holds the given fields. |
| EncodedBlocks.Bc2Block.Index | Gorgon.BCnEncoder.NET/Shared/EncodedBlocks.cs:78 | The indexer's getter returns 0..3. |
| EncodedBlocks.Bc2Block.SetIndex | Gorgon.BCnEncoder.NET/Shared/EncodedBlocks.cs:79-84 | Texel index takes value & 3, and every other texel keeps its index. |
| EncodedBlocks.Bc3Block.constructor | Gorgon.BCnEncoder.NET/Shared/EncodedBlocks.cs:129-134 | A new block holds the given fields. |
| EncodedBlocks.Bc3Block.Index | Gorgon.BCnEncoder.NET/Shared/EncodedBlocks.cs:138 | The indexer's getter returns 0..3. |
| EncodedBlocks.Bc3Block.SetIndex | Gorgon.BCnEncoder.NET/Shared/EncodedBlocks.cs:139-144 | Texel index takes value & 3, and every other texel keeps its index. |
| EncodedBlocks.Bc3Block.SetAlpha0 | Gorgon.BCnEncoder.NET/Shared/EncodedBlocks.cs:147-155 | Alpha0 becomes value; Alpha1 and all indices keep their bits. |
| EncodedBlocks.Bc3Block.SetAlpha1 | Gorgon.BCnEncoder.NET/Shared/EncodedBlocks.cs:157-165 | Alpha1 becomes value; Alpha0 and all indices keep their bits. |
| EncodedBlocks.Bc3Block.GetAlphaIndex | Gorgon.BCnEncoder.NET/Shared/EncodedBlocks.cs:167-173 | The 3-bit index is in 0..7. |
| EncodedBlocks.Bc3Block.SetAlphaIndex | Gorgon.BCnEncoder.NET/Shared/EncodedBlocks.cs:175-181 | Pixel i takes alphaIndex & 7; the endpoints and the other pixels keep theirs. |
| EncodedBlocks.Bc3Block.Decode | Gorgon.BCnEncoder.NET/Shared/EncodedBlocks.cs:183-227 | The loop fills the 16 pixels with Bc3Texels. |
| EncodedBlocks.Bc4Block.constructor | Gorgon.BCnEncoder.NET/Shared/EncodedBlocks.cs:230-232 | A new block holds the given word. |
| EncodedBlocks.Bc4Block.SetRed0 | Gorgon.BCnEncoder.NET/Shared/EncodedBlocks.cs:234-242 | Red0 becomes value; Red1 and all indices keep their bits. |
| EncodedBlocks.Bc4Block.SetRed1 | Gorgon.BCnEncoder.NET/Shared/EncodedBlocks.cs:244-252 | Red1 becomes value; Red0 and all indices keep their bits. |
| EncodedBlocks.Bc4Block.GetRedIndex | Gorgon.BCnEncoder.NET/Shared/EncodedBlocks.cs:254-260 | The 3-bit index is in 0..7. |
| EncodedBlocks.Bc4Block.SetRedIndex | Gorgon.BCnEncoder.NET/Shared/EncodedBlocks.cs:262-268 | Pixel i takes redIndex & 7; the endpoints and the other pixels keep theirs. |
| EncodedBlocks.Bc4Block.Decode | Gorgon.BCnEncoder.NET/Shared/EncodedBlocks.cs:270-308 | The loop fills the 16 pixels with Bc4Texels for the redAsLuminance flag. |
| EncodedBlocks.Bc5Block.constructor | Gorgon.BCnEncoder.NET/Shared/EncodedBlocks.cs:311-314 | A new block holds the given words. |
| EncodedBlocks.Bc5Block.SetRed0 | Gorgon.BCnEncoder.NET/Shared/EncodedBlocks.cs:316-324 | Red0 becomes value; Red1, the red indices and the green word keep their bits. |
| EncodedBlocks.Bc5Block.SetRed1 | Gorgon.BCnEncoder.NET/Shared/EncodedBlocks.cs:326-334 | Red1 becomes value; Red0, the red indices and the green word keep their bits. |
| EncodedBlocks.Bc5Block.SetGreen0 | Gorgon.BCnEncoder.NET/Shared/EncodedBlocks.cs:336-344 | Green0 becomes value; Green1, the green indices and the red word keep their bits. |
| EncodedBlocks.Bc5Block.SetGreen1 | Gorgon.BCnEncoder.NET/Shared/EncodedBlocks.cs:346-354 | Green1 becomes value; Green0, the green indices and the red word keep their bits. |
| EncodedBlocks.Bc5Block.GetRedIndex | Gorgon.BCnEncoder.NET/Shared/EncodedBlocks.cs:356-362 | The 3-bit index is in 0..7. |
| EncodedBlocks.Bc5Block.SetRedIndex | Gorgon.BCnEncoder.NET/Shared/EncodedBlocks.cs:364-370 | Pixel i takes redIndex & 7; everything else keeps its bits. |
| EncodedBlocks.Bc5Block.GetGreenIndex | Gorgon.BCnEncoder.NET/Shared/EncodedBlocks.cs:372-378 | The 3-bit index is in 0..7. |
| EncodedBlocks.Bc5Block.SetGreenIndex | Gorgon.BCnEncoder.NET/Shared/EncodedBlocks.cs:380-386 | Pixel i takes greenIndex & 7; everything else keeps its bits. |
| EncodedBlocks.Bc5Block.Decode | Gorgon.BCnEncoder.NET/Shared/EncodedBlocks.cs:388-420 | The loop fills the 16 pixels with Bc5Texels. |
| RgbBoundingBox.Counted | BCnEnc.Net/Shared/RgbBoundingBox.cs:109-116 | A pixel is counted exactly when its alpha is at least the cutoff; no more pixels are counted than the tile holds. |
| RgbBoundingBox.ChannelMinIsLeast | BCnEnc.Net/Shared/RgbBoundingBox.cs:27-60 | Before the inset, minR..minB are in 0..255, at most every counted pixel's channel, and 255 or some pixel's channel. |
| RgbBoundingBox.ChannelMaxIsGreatest | BCnEnc.Net/Shared/RgbBoundingBox.cs:27-60 | Before the inset, maxR..maxB are in 0..255, at least every counted pixel's channel, and 0 or some pixel's channel. |
| RgbBoundingBox.CutoffIgnoresPixels | BCnEnc.Net/Shared/RgbBoundingBox.cs:111-116 | Scanning with a cutoff is scanning only the pixels with A >= alphaCutoff. |
| RgbBoundingBox.InsetWithinBox | BCnEnc.Net/Shared/RgbBoundingBox.cs:62-71 | With lo <= hi, the inset minimum stays lo and the inset maximum drops by at most 1. Both stay within [lo, hi]. |
| RgbBoundingBox.InsetInByteRange | BCnEnc.Net/Shared/RgbBoundingBox.cs:62-81 | After the clamps, the bounds lie in 0..255, even for an empty scan. |
| RgbBoundingBox.Round5IsMaskExpression | BCnEnc.Net/Shared/RgbBoundingBox.cs:84-90 | `(v & 0xF8) \| (v >> 5)` on a byte keeps its top five bits and stays a byte. |
| RgbBoundingBox.Round6IsMaskExpression | BCnEnc.Net/Shared/RgbBoundingBox.cs:85-91 | `(v & 0xFC) \| (v >> 6)` on a byte keeps its top six bits and stays a byte. |
| RgbBoundingBox.Rounded565Fields | BCnEnc.Net/Shared/RgbBoundingBox.cs:83-93 | "Optimal rounding" is invisible in the 565 word: the fields hold the pre-rounding value >> 3 (G: >> 2). |
| RgbBoundingBox.EndpointFields | BCnEnc.Net/Shared/RgbBoundingBox.cs:62-93 | The endpoints' raw fields are the inset, clamped bounds >> 3 (G: >> 2). |
| RgbBoundingBox.CutoffEndpoints | BCnEnc.Net/Shared/RgbBoundingBox.cs:96-178 | Create565AlphaCutoff's endpoints are Create565's endpoints of the pixels with A >= cutoff. |
| RgbBoundingBox.UniformTile | BCnEnc.Net/Shared/RgbBoundingBox.cs:27-93 | A tile whose counted pixels share one colour yields min == max. |
| RgbBoundingBox.AlphaBoundsInRange | BCnEnc.Net/Shared/RgbBoundingBox.cs:243-279 | minAlpha and maxAlpha are the inset bounds (shift 5) of the alpha channel; for a non-empty tile they lie inside the observed alpha range. |
| RgbBoundingBox.Create565 | BCnEnc.Net/Shared/RgbBoundingBox.cs:14-94 | The scan and the statements after it return Endpoints565 of all pixels. |
| RgbBoundingBox.Create565AlphaCutoff | BCnEnc.Net/Shared/RgbBoundingBox.cs:96-178 | The scan returns Endpoints565 of the pixels with A >= alphaCutoff. |
| RgbBoundingBox.Create565a | BCnEnc.Net/Shared/RgbBoundingBox.cs:181-279 | Returns Create565's endpoints and AlphaBounds of all pixels. |
| RgbBoundingBox.Finish565 | BCnEnc.Net/Shared/RgbBoundingBox.cs:62-93 | The inset, clamps, rounding and construction after the scan give the endpoints of the scanned bounds. |
| RgbBoundingBox.FinishAlpha | BCnEnc.Net/Shared/RgbBoundingBox.cs:240-277 | The alpha inset, clamps and byte casts give AlphaBounds. |
| ColorVariation.CSharpRem | BCnEnc.Net/Encoder/ColorVariationGenerator.cs:19 | C#'s `%` takes the sign of the dividend, with magnitude below the divisor. |
| ColorVariation.CSharpRemZero | BCnEnc.Net/Encoder/ColorVariationGenerator.cs:19 | The C# remainder is 0 exactly when the Euclidean one is. |
| ColorVariation.MovedFields | BCnEnc.Net/Encoder/ColorVariationGenerator.cs:23-29 | Each raw field becomes the old field plus its offset, clamped to 0..31/0..63/0..31. With offsets in -1..1 it moves by at most 1; offset 0 keeps the colour. |
| ColorVariation.VariateFails | BCnEnc.Net/Encoder/ColorVariationGenerator.cs:17-31 | Variate565 throws IndexOutOfRangeException exactly for negative i that are not multiples of 24. |
| ColorVariation.VariateMoves | BCnEnc.Net/Encoder/ColorVariationGenerator.cs:17-31 | Each raw component moves by at most 1 and stays in range. Patterns 8-15 keep ep1, and patterns 16-23 keep ep0. |
| ColorVariation.VariatePeriodic | BCnEnc.Net/Encoder/ColorVariationGenerator.cs:15-19 | Variate565 is periodic in i with period VarPatternCount = 24. |
| ColorVariation.PatternEntries | BCnEnc.Net/Encoder/ColorVariationGenerator.cs:9-14 | Every pattern entry is -1, 0 or 1, and every table has 24 entries. |
| ColorVariation.PatternGroups | BCnEnc.Net/Encoder/ColorVariationGenerator.cs:9-14 | Patterns 0-7 move ep0 and ep1 in opposite directions, 8-15 move only ep0, and 16-23 move only ep1. |
| ColorChooser.LowestClosestUnique | Gorgon.BCnEncoder.NET/Encoder/ColorChooser.cs:85-107 | "The lowest index with minimal distance" pins down one index. |
| ColorChooser.LowestClosestStep | Gorgon.BCnEncoder.NET/Encoder/ColorChooser.cs:85-107 | One step of the scan keeps the lowest closest index: a strictly closer entry replaces it, and a skipped or no-closer entry leaves it. |
| ColorChooser.ChooseClosestColor24 | Gorgon.BCnEncoder.NET/Encoder/ColorChooser.cs:85-107 | Returns the lowest index with minimal L1 distance. An empty span throws. |
| ColorChooser.ChooseClosestColor32 | Gorgon.BCnEncoder.NET/Encoder/ColorChooser.cs:110-134 | The same for RGBA32, with the alpha difference added. |
| ColorChooser.ChooseClosestColorAlphaCutOff | Gorgon.BCnEncoder.NET/Encoder/ColorChooser.cs:137-170 | Returns 3 iff A <= cutoff; otherwise never 3, and the lowest closest among the other entries. |
| ColorChooser.Pick4AsWritten | Gorgon.BCnEncoder.NET/Encoder/ColorChooser.cs:28-39 | The bit-formula index, with the strict comparisons as written, is in 0..3. |
| ColorChooser.Pick4AsWrittenMissesTie | Gorgon.BCnEncoder.NET/Encoder/ColorChooser.cs:28-39 | On distances (4, 2, 2, 2) the formula as written returns entry 0, which is not nearest. |
| ColorChooser.Pick4 | Gorgon.BCnEncoder.NET/Encoder/ColorChooser.cs:28-39 | The corrected index, with non-strict comparisons against d[3], is in 0..3. |
| ColorChooser.Pick4Nearest | Gorgon.BCnEncoder.NET/Encoder/ColorChooser.cs:28-39 | For distances in a valley along the palette order 0, 2, 3, 1, Pick4 returns an entry at the lowest distance. |
| ColorChooser.Pick4AgreesWithoutTies | Gorgon.BCnEncoder.NET/Encoder/ColorChooser.cs:28-39 | Without ties against d[3], Pick4 and the formula as written agree. |
| ColorChooser.Distances4 | Gorgon.BCnEncoder.NET/Encoder/ColorChooser.cs:11-26 | The four weighted distances of colors[0..3], read only when the span holds four colours. |
| ColorChooser.ChooseClosestColor4 | Gorgon.BCnEncoder.NET/Encoder/ColorChooser.cs:9-40 | As written, with the strict comparisons: the index is in 0..3 and the error is its weighted distance; a span shorter than 4 throws. |
| ColorChooser.ChooseClosestColor4MissesTie | Gorgon.BCnEncoder.NET/Encoder/ColorChooser.cs:9-40 | On the palette (0,6,0), (6,0,0), (2,4,0), (4,2,0) with pixel (6,4,0) and unit weights, the chooser returns entry 0 with error 8, while the lowest distance is 4, which the corrected chooser returns. |
| ColorChooser.ChooseClosestColor4Corrected | Gorgon.BCnEncoder.NET/Encoder/ColorChooser.cs:9-40 | The chooser with the non-strict comparisons against d[3]: the index is in 0..3 and the error is its weighted distance; a span shorter than 4 throws. |
| ColorChooser.ChooseClosestColor4CorrectedNearest | Gorgon.BCnEncoder.NET/Encoder/ColorChooser.cs:9-40 | For distances in a valley along the palette order 0, 2, 3, 1, the corrected chooser's error is the lowest distance to the four entries. |
| ColorChooser.ChooseClosestColor4AgreesWithoutTies | Gorgon.BCnEncoder.NET/Encoder/ColorChooser.cs:28-38 | Without ties of d[0] or d[2] with d[3], the chooser as written and the corrected one return the same result. |
| ColorChooser.PickAlpha | Gorgon.BCnEncoder.NET/Encoder/ColorChooser.cs:67-81 | The alpha-cutoff bit formula returns 0..3. |
| ColorChooser.PickAlphaNearest | Gorgon.BCnEncoder.NET/Encoder/ColorChooser.cs:67-81 | For distances in a valley along 0, 2, 3, 1, PickAlpha returns an entry at the lowest distance. |
| ColorChooser.PickAlphaThreeColors | Gorgon.BCnEncoder.NET/Encoder/ColorChooser.cs:53-81 | With d[3] = 999, entry 3 is never chosen while the real distances stay below it. |
| ColorChooser.ChooseClosestColor4AlphaCutoff | Gorgon.BCnEncoder.NET/Encoder/ColorChooser.cs:44-82 | Returns 3 with error 0 when hasAlpha and A < cutoff, and otherwise an index in 0..3. Too short a span throws. |
| ColorChooser.AlphaDistances | Gorgon.BCnEncoder.NET/Encoder/ColorChooser.cs:53-66 | The weighted distances of colors[0..2], and of colors[3] unless hasAlpha, where the fourth is 999. |
| ColorChooser.ChooseClosestColor4AlphaCutoffNearest | Gorgon.BCnEncoder.NET/Encoder/ColorChooser.cs:44-82 | For a pixel not cut off, the chooser succeeds. Without hasAlpha, and with distances in a valley, its error is the lowest distance. With hasAlpha, entry 3 is never chosen while the real distances are below 999, and with those in a valley its error is the lowest of them. |
| LinearClustering.CheckClusterCount | Gorgon.BCnEncoder.NET/Shared/LinearClustering.cs:106-109 | ClusterPixels throws ArgumentException exactly when clusters < 2. |
| LinearClustering.NeighborsAdjacent | Gorgon.BCnEncoder.NET/Shared/LinearClustering.cs:324-325 | The neighbour tables name exactly the four 4-neighbours. |
| LinearClustering.GrowCluster | Gorgon.BCnEncoder.NET/Shared/LinearClustering.cs:375-392 | The flood fill adds only unlabelled in-grid 4-neighbours with the seed's old label. It closes the cluster: no such neighbour remains. |
| LinearClustering.VisitNeighbor | Gorgon.BCnEncoder.NET/Shared/LinearClustering.cs:379-390 | One neighbour joins exactly when it is in the grid, unvisited and of the seed's old label. |
| LinearClustering.JoinCluster | Gorgon.BCnEncoder.NET/Shared/LinearClustering.cs:386-388 | The joining neighbour is appended to clusterX/clusterY and labelled with the seed's label. |
| LinearClustering.FirstLabelled | Gorgon.BCnEncoder.NET/Shared/LinearClustering.cs:359-372 | The merge target is the previous adjacentLabel when no in-grid neighbour is labelled; otherwise it is that fallback or the label of a labelled neighbour. |
| LinearClustering.FirstLabelledIsFirst | Gorgon.BCnEncoder.NET/Shared/LinearClustering.cs:359-372 | When some neighbour is labelled, the break makes the merge target the label of the first labelled neighbour in table order. |
| LinearClustering.FirstLabelledInRange | Gorgon.BCnEncoder.NET/Shared/LinearClustering.cs:359-372 | The merge target stays in [0, clusters). |
| LinearClustering.FindAdjacentLabel | Gorgon.BCnEncoder.NET/Shared/LinearClustering.cs:359-372 | The neighbour loop with its break computes FirstLabelled. |
| LinearClustering.SettleCluster | Gorgon.BCnEncoder.NET/Shared/LinearClustering.cs:396-406 | A cluster is relabelled to adjacentLabel iff it is smaller than sSquared/4 or its label is already used. Otherwise its label is marked used. |
| LinearClustering.VisitPixel | Gorgon.BCnEncoder.NET/Shared/LinearClustering.cs:348-410 | An unvisited pixel seeds, grows and settles a cluster. Every visited pixel keeps a label in [0, clusters). |
| LinearClustering.SeedCluster | Gorgon.BCnEncoder.NET/Shared/LinearClustering.cs:351-372 | The seed takes its old label, nothing else changes, and the merge target is FirstLabelled of the map before seeding, a label in [0, clusters). |
| LinearClustering.GrowAndSettle | Gorgon.BCnEncoder.NET/Shared/LinearClustering.cs:375-409 | A seeded cluster is grown, then kept or merged; labels stay in [0, clusters). |
| LinearClustering.Unvisited | Gorgon.BCnEncoder.NET/Shared/LinearClustering.cs:339-342 | Every entry of newLabels starts at -1. |
| LinearClustering.ScanRow | Gorgon.BCnEncoder.NET/Shared/LinearClustering.cs:346-411 | After row y, every pixel of rows 0..y holds a label in [0, clusters). |
| LinearClustering.EnforceConnectivity | Gorgon.BCnEncoder.NET/Shared/LinearClustering.cs:322-411 | On success, a fresh array of the input length with every label in [0, clusters). IndexOutOfRangeException on usedLabels is thrown only when some input label is >= clusters. |
| Grids.BlocksAcross | BCnEnc.Net/Decoder/Bc7Decoder.cs:13-14 | The block count is the ceiling of pixels / 4, so (w + 3) div 4 for w >= 0. |
| Grids.IndexDistinct | BCnEnc.Net/Decoder/BcDecoder.cs:69 | Different pixels of a row-major grid have different indices `x + y * width`. |
| Grids.QuarterInGrid | BCnEnc.Net/Decoder/BcDecoder.cs:64-71 | Pixel (x, y) lies in block (x / 4, y / 4), at texel (x % 4, y % 4). |
| RawBlocks.RawBlock4X4Rgba32.constructor | BCnEnc.Net/Shared/RawBlocks.cs:9 | A new block has sixteen default colours. |
| RawBlocks.RawBlock4X4Rgba32.Set | BCnEnc.Net/Shared/RawBlocks.cs:13-17 | Texel (x, y) becomes c, and the other fifteen stay. |
| BlockDecoders.BytesToWord | BCnEnc.Net/Decoder/BcBlockDecoder.cs:26 | Little-endian bytes make a word of 8 bits per byte. |
| BlockDecoders.WordBits | BCnEnc.Net/Decoder/BcBlockDecoder.cs:26 | Bit 8k + j of the word is bit j of byte k. |
| BlockDecoders.Bc2Alpha | Gorgon.BCnEncoder.NET/Shared/EncodedBlocks.cs:89-91 | The unscaled 4-bit alpha of texel i is below 16. |
| BlockDecoders.Bc2Texels | Gorgon.BCnEncoder.NET/Shared/EncodedBlocks.cs:104-126 | Sixteen texels; texel i takes the entry of the no-black palette that its 2-bit index selects, and the 4-bit alpha nibble i. |
| BlockDecoders.Bc7Texels | BCnEnc.Net/Decoder/Bc7Decoder.cs:29-30 | A Bc7 block fails with InvalidDataException exactly for Type8Reserved, and otherwise yields its 16 texels. |
| BlockDecoders.Bc7TexelColor | BCnEnc.Net/Decoder/Bc7Decoder.cs:29-30 | Texel i's colour is Bc7Block.Decode's texel i, for any rented buffer. |
| BlockDecoders.Bc7TileFails | BCnEnc.Net/Decoder/Bc7Decoder.cs:29-30 | A Bc7 block fails exactly when its first byte is 0 (no mode tag). |
| BlockDecoders.BlockDecoder.DecodeBlock | BCnEnc.Net/Decoder/BcBlockDecoder.cs:34 | Only the BC7 decoder can fail (with InvalidDataException); every decoded block has 16 texels. |
| BlockDecoders.BlockDecoder.DecodedAt | BCnEnc.Net/Decoder/BcBlockDecoder.cs:32-34 | The block read for cell (x, y) decodes to 16 texels; only the BC7 decoder can fail, with InvalidDataException. |
| BlockDecoders.BlockDecoder.Decode | BCnEnc.Net/Decoder/BcBlockDecoder.cs:16-39 | InvalidDataException unless data.Length = ceil(w/4) * ceil(h/4) * blockSize; otherwise a ceil(w/4) x ceil(h/4) grid whose cell [x, y] decodes block x + y * blockWidth. BC7 blocks propagate Decode's exception. |
| BlockDecoders.FillColumn | BCnEnc.Net/Decoder/Bc7Decoder.cs:27-31 | The inner loop fills column x, leaving every other column unchanged, or reports a failing cell. |
| BlockDecoders.BlockInData | BCnEnc.Net/Decoder/BcBlockDecoder.cs:32 | Block x + y * blockWidth lies inside a buffer of the checked size. |
| BlockDecoders.Bc1DecodersDiffer | BCnEnc.Net/Decoder/BcBlockDecoder.cs:34 | Bc1ADecoder (useAlpha = true) and Bc1NoAlphaDecoder (false) differ at a texel iff color0 <= color1 and its index is 3. |
| BlockDecoders.Bc4DecoderForwardsFlag | BCnEnc.Net/Decoder/BcBlockDecoder.cs:126-154 | Bc4Decoder forwards redAsLuminance to every block: luminance copies red into green and blue, and plain red leaves them 0. |
| BcDecoders.GetDecoder | BCnEnc.Net/Decoder/BcDecoder.cs:25-53 | Null exactly for formats without a block decoder. blockSize is 8 for BC1/BC4 and 16 otherwise. Bc1A is chosen iff expectAlpha. Bc4 takes LuminanceAsRed. |
| BcDecoders.GetDecoderFlags | BCnEnc.Net/Decoder/BcDecoder.cs:25-53 | expectAlpha matters only for BC1, and LuminanceAsRed only for BC4. |
| BcDecoders.ImageFromRawBlocks | BCnEnc.Net/Decoder/BcDecoder.cs:55-76 | The output holds pixelWidth * pixelHeight pixels; pixel (x, y) is blocks[x/4, y/4][x%4, y%4]. |
| BcDecoders.FillRow | BCnEnc.Net/Decoder/BcDecoder.cs:62-72 | One row of the output is filled, and earlier rows stay. |
| BcDecoders.DecodedPixel | BCnEnc.Net/Decoder/BcDecoder.cs:87-89 | A pixel fails exactly when its block fails to decode. |
| BcDecoders.BcDecoder.constructor | BCnEnc.Net/Decoder/BcDecoder.cs:19-23 | LuminanceAsRed defaults to false. |
| BcDecoders.BcDecoder.Decode | BCnEnc.Net/Decoder/BcDecoder.cs:81-90 | NotSupportedException for formats without a decoder, and InvalidDataException for a wrong size. Otherwise an image rounded up to multiples of 4, each pixel from its decoded block. |
| BcEncoders.GetEncoder | BCnEnc.Net/Encoder/BcEncoder.cs:104-132 | Null exactly for non-BC formats. The alpha BC1 encoder is chosen iff includeAlpha. Bc4 takes LuminanceAsRed. |
| BcEncoders.EveryTexelIsAPixel | BCnEnc.Net/Encoder/BcEncoder.cs:55-63 | Texel (i, j) of block k is pixel (4 * (k % bw) + i, 4 * (k / bw) + j), so every texel is some pixel's place. |
| BcEncoders.PlacePixel | BCnEnc.Net/Encoder/BcEncoder.cs:38-63 | Pixel (x, y) lands in block x/4 + (y/4) * blocksWidth at position (x%4, y%4); nothing else changes. |
| BcEncoders.PlaceRow | BCnEnc.Net/Encoder/BcEncoder.cs:36-64 | One row of pixels is placed, and nothing else changes. |
| BcEncoders.PlacePixels | BCnEnc.Net/Encoder/BcEncoder.cs:34-65 | Every image pixel is placed, and padding texels keep their old colour. |
| BcEncoders.LastBlock | BCnEnc.Net/Encoder/BcEncoder.cs:68-101 | The edge position of a padded coordinate lies in the last block, at the last real row or column. |
| BcEncoders.PadBlockRows | BCnEnc.Net/Encoder/BcEncoder.cs:74-80 | Rows yPaddingStart..3 of one block copy the row above, so they all equal row yPaddingStart - 1. |
| BcEncoders.PadBottomBlock | BCnEnc.Net/Encoder/BcEncoder.cs:73-81 | The padded rows of one bottom block replicate its last real row. |
| BcEncoders.PadBottomRow | BCnEnc.Net/Encoder/BcEncoder.cs:71-82 | Every bottom block is padded, and other blocks stay. |
| BcEncoders.PadHeight | BCnEnc.Net/Encoder/BcEncoder.cs:68-83 | When height % 4 != 0, padded rows of bottom blocks replicate the last real row. |
| BcEncoders.PadBlockColumns | BCnEnc.Net/Encoder/BcEncoder.cs:92-98 | Columns xPaddingStart..3 of one block copy the column to their left. |
| BcEncoders.PadRightBlock | BCnEnc.Net/Encoder/BcEncoder.cs:91-99 | The padded columns of one right block replicate its last real column. |
| BcEncoders.PadRightColumn | BCnEnc.Net/Encoder/BcEncoder.cs:89-100 | Every right block is padded, and other blocks stay. |
| BcEncoders.PadWidth | BCnEnc.Net/Encoder/BcEncoder.cs:86-101 | When width % 4 != 0, padded columns of right blocks replicate the last real column. |
| BcEncoders.ImageTo4X4 | BCnEnc.Net/Encoder/BcEncoder.cs:27-102 | Rejects the other source formats with NotSupportedException. Otherwise every texel is the source pixel at its position clamped to the image's last row and column. |
| BcEncoders.BcEncoder.constructor | BCnEnc.Net/Encoder/BcEncoder.cs:21-25 | LuminanceAsRed defaults to false. |
| BcEncoders.BcEncoder.EncodeToRawBytes | BCnEnc.Net/Encoder/BcEncoder.cs:137-176 | NotSupportedException for unsupported formats, before any block is built. Otherwise the encoder GetEncoder picks and ceil(w/4) * ceil(h/4) edge-padded blocks are handed to it. |

## Left out

- Floating point. The code below computes in float or double, and the model keeps its integer structure only:
  - the BC1-BC3 colour palettes (thirds and halves in double) are kept symbolic (`PaletteColor`);
  - the BC3/BC4/BC5 level palettes are kept as exact rationals (`Level`), not as the `(byte)` casts of doubles;
  - the BC2 alpha scaling `/ 15.0` and the `GorgonColor` conversions of decoded texels are left out;
  - the YCbCr chooser overloads of ColorChooser and ColorVariationGenerator.GenerateVariations* are left out.
- ColorChooser.ChooseClosestColor4, ColorChooser.ChooseClosestColor4AlphaCutoff, ColorChooser.Distances4 and ColorChooser.AlphaDistances: the weighted distances and the `out float error` are single-precision sums in the source. They are modelled as exact reals. Float rounding can decide a tie or a comparison of the bit formulas differently, and the model does not capture that.
- EncodedBlocks.Bc2Block: `GetAlpha`/`SetAlpha` scale the 4-bit alpha by 15.0 in float, so they are not modelled. Only the unscaled nibble is, by `Bc2Alpha` in the BC2 decoder.
- GorgonColor: `GorgonColor.FromABGR` and `new GorgonColor(int)` are function parameters of the encoder. `ToABGR` and `GetIntegerComponents` are not modelled. Pixels reach the bounding box and the choosers as integer components, and the decoder writes texels, not packed ints. GorgonColors is not part of this model.
- BcEncoders.BcEncoder.EncodeToRawBytes: the block encoders' `Encode` call (PCA, perceptual error, Parallel.For) is not modelled. The method returns the chosen encoder and the padded block array it would be handed.
- The ArrayPool: the encoder's rented block array is allocated with exactly blockCount entries. The BC7 endpoint buffer's previous contents are a parameter `pool`; `DecodeIgnoresPool` proves the texels do not depend on it. The pooled p-bit and label buffers are plain sequences and arrays.
- LINQ: `Enumerable.Range(...).OrderBy(...)` is modelled by a stable ranking (`Ranked`) rather than by the library sort.
- BcEncoders.PlacePixel, BcEncoders.ImageTo4X4, BcDecoders.FillRow and BcDecoders.ImageFromRawBlocks: the block index of a pixel is the exact `x / 4` and `y / 4`. The source computes it in single precision, as `(int)Math.Floor(x / 4.0f)` in BcEncoder.cs and `(int)(x / 4.0f).FastFloor()` in BcDecoder.cs, which rounds differently for coordinates at or above 2^24 (x = 16777219 gives block 4194305, where the model gives 4194304). The output buffer of ImageFromRawBlocks is also unbounded: the source's `pixelWidth * 4 * pixelHeight` is a 32-bit `int` product that wraps from 2^29 pixels upward (16384 x 32768 gives 2^31, a negative size), which the model does not capture.
- BcDecoders.BcDecoder.Decode and BcEncoders.BcEncoder.EncodeToRawBytes: single-precision `FastCeiling` is modelled as the exact ceiling `BlocksAcross`. It differs only for dimensions above 2^24.
- BlockDecoders.BlockDecoder.Decode: the size check `blockWidth * blockHeight * blockSize` is a 32-bit `int` product in the source, which wraps once it exceeds 2^31 - 1 bytes. The BC1-BC5 decoders also compute the block counts with the single-precision `Math.Ceiling(pixelWidth / 4.0f)`. The model uses the unbounded product and the exact ceiling. For example, BC1 with width = height = 131072 gives 2^33, which wraps to 0, so the source accepts empty data where the model throws InvalidDataException. It also does not capture float rounding of dimensions above 2^24.
- BcEncoders.ImageTo4X4 and BcEncoders.BcEncoder.EncodeToRawBytes require non-negative dimensions and an image of at least width * height pixels. The source would read out of bounds through an unchecked pointer.
- LinearClustering.EnforceConnectivity requires non-negative input labels. A negative label indexes `usedLabels` out of bounds in the source.
- LinearClustering.EnforceConnectivity: the contract states the label range and when the method throws, not which label each pixel ends with. The effect on each cluster is stated by GrowCluster and SettleCluster.
- LinearClustering.ClusterPixels: only the argument guard is modelled. The centre and distance iterations are float code.
- Parallel.For in the block encoders, the duplicated block decoder file of the Gorgon tree, and the BC7 mode encoders are not part of this model.
- The BC1-BC5 block decoders are written once as `BlockDecoders.BlockDecoder` over their block size and tile function. The six source classes differ only in those.

## Findings

| source | as written | input that shows it | evidently intended | confidence | as-written member | corrected member |
|---|---|---|---|---|---|---|
| Gorgon.BCnEncoder.NET/Encoder/ColorChooser.cs:28-39 | The comparisons of entries 0 and 2 against entry 3 are strict (`>`), so a tie with d[3] never selects 3. | The palette (0,6,0), (6,0,0), (2,4,0), (4,2,0), the pixel (6,4,0) and unit weights give d = (8, 4, 4, 4), a valley along the palette order 0, 2, 3, 1. The chooser returns index 0 with error 8, not the minimum 4. | Non-strict comparisons (`>=`) against d[3], so that a nearest entry is always returned. | not executed | ColorChooser.ChooseClosestColor4MissesTie | ColorChooser.ChooseClosestColor4CorrectedNearest |
