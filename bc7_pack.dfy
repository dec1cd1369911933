/**
 * What the PackType0-7 methods of Gorgon.BCnEncoder.NET/Shared/Bc7Block.cs
 * write into a block.
 *
 * Each of them starts from a block holding only its mode tag and then
 * stores a run of fields with ByteHelper.StoreTo128: the header (partition
 * number, rotation, index mode), the endpoint components in
 * component-major order, the p-bits and the index streams.  A Field is one
 * such store; PutAll is the block after a list of them.  The lemmas here
 * show that the fields of each mode are disjoint and lie above the tag, so
 * that every field reads back, through the decoder's own readers, as the
 * low bits of the value stored in it.
 */
module Bc7Packing {
  import opened Bits
  import opened ByteHelper
  import IntOps
  import opened Colors
  import opened Bc7Tables
  import opened Bc7Layout
  import opened Bc7Color
  import opened Bc7Decoding

  /** A block as its two words (lowBits, highBits). */
  type Block = (Ulong, Ulong)

  /** One StoreTo128 call: width bits at offset, holding the low bits of value. */
  datatype Field = Field(offset: int, width: int, value: nat)

  /** The block after StoreTo128(low, high, f.offset, f.width, f.value). */
  function Put(b: Block, f: Field): Block
  {
    StoreTo128(b.0, b.1, f.offset, f.width, FromNat(f.value, 64))
  }

  /** The block after storing the fields in order, first to last. */
  function PutAll(b: Block, fields: seq<Field>): Block
    decreases |fields|
  {
    if |fields| == 0 then b else Put(PutAll(b, fields[..|fields| - 1]), fields[|fields| - 1])
  }

  /** Bit k of a block: element k of low + high. */
  function BlockBit(b: Block, k: int): bool
    requires 0 <= k < 128
  {
    (b.0 + b.1)[k]
  }

  predicate FieldWithin(f: Field, from: int, to: int)
  {
    from <= f.offset && 0 <= f.width < 64 && f.offset + f.width <= to
  }

  /** Every field lies in bits from..to-1 and is narrower than a word. */
  predicate Within(fields: seq<Field>, from: int, to: int)
  {
    forall m :: 0 <= m < |fields| ==> FieldWithin(fields[m], from, to)
  }

  predicate Disjoint(f: Field, g: Field)
  {
    f.offset + f.width <= g.offset || g.offset + g.width <= f.offset
  }

  /** No two fields of the list share a bit. */
  predicate Apart(fields: seq<Field>)
  {
    forall a, b :: 0 <= a < b < |fields| ==> Disjoint(fields[a], fields[b])
  }

  /** No field of xs shares a bit with a field of ys. */
  predicate Separate(xs: seq<Field>, ys: seq<Field>)
  {
    forall a, b :: 0 <= a < |xs| && 0 <= b < |ys| ==> Disjoint(xs[a], ys[b])
  }

  // ---------------------------------------------------------------------
  // Storing a list of fields.
  // ---------------------------------------------------------------------

  /** One more store extends the list by one field. */
  lemma PutAllStep(b: Block, fields: seq<Field>, n: int)
    requires 0 <= n < |fields|
    ensures PutAll(b, fields[..n + 1]) == Put(PutAll(b, fields[..n]), fields[n])
  {
    assert fields[..n + 1][..n] == fields[..n];
  }

  /** Storing xs and then ys is storing xs + ys. */
  lemma {:induction false} PutAllAppend(b: Block, xs: seq<Field>, ys: seq<Field>)
    ensures PutAll(b, xs + ys) == PutAll(PutAll(b, xs), ys)
    decreases |ys|
  {
    if |ys| == 0 {
      assert xs + ys == xs;
    } else {
      var n := |ys| - 1;
      assert (xs + ys)[..|xs + ys| - 1] == xs + ys[..n];
      PutAllAppend(b, xs, ys[..n]);
    }
  }

  /** A bit below every field keeps its value. */
  lemma {:induction false} PutAllKeeps(b: Block, fields: seq<Field>, from: int, k: int)
    requires 0 <= k < from <= 128 && Within(fields, from, 128)
    ensures BlockBit(PutAll(b, fields), k) == BlockBit(b, k)
    decreases |fields|
  {
    if |fields| > 0 {
      var n := |fields| - 1;
      var g := fields[n];
      var p := PutAll(b, fields[..n]);
      assert FieldWithin(g, from, 128);
      PutAllKeeps(b, fields[..n], from, k);
      StoreTo128Bits(p.0, p.1, g.offset, g.width, FromNat(g.value, 64));
    }
  }

  /**
   * Read-back: when the fields lie in the block and share no bit, each of
   * them holds its value modulo 2^width once all are stored.
   */
  lemma {:induction false} PutAllReadBack(b: Block, fields: seq<Field>, m: int)
    requires Within(fields, 0, 128) && Apart(fields) && 0 <= m < |fields|
    ensures var r := PutAll(b, fields);
      ToNat(ExtractFrom128(r.0, r.1, fields[m].offset, fields[m].width)) == fields[m].value % Pow2(fields[m].width)
    decreases |fields|
  {
    var n := |fields| - 1;
    var f := fields[m];
    var g := fields[n];
    var p := PutAll(b, fields[..n]);
    assert FieldWithin(g, 0, 128);
    if m == n {
      ExtractFrom128StoreTo128Nat(p.0, p.1, g.offset, g.width, g.value);
    } else {
      assert fields[..n][m] == f;
      assert FieldWithin(f, 0, 128) && Disjoint(f, g);
      PutAllReadBack(b, fields[..n], m);
      StoreTo128Frame(p.0, p.1, g.offset, g.width, FromNat(g.value, 64), f.offset, f.width);
    }
  }

  /** PutAllReadBack for a field named by value rather than by position. */
  lemma ReadBack(b: Block, fields: seq<Field>, f: Field)
    requires Within(fields, 0, 128) && Apart(fields) && f in fields
    ensures var r := PutAll(b, fields);
      ToNat(ExtractFrom128(r.0, r.1, f.offset, f.width)) == f.value % Pow2(f.width)
  {
    var m :| 0 <= m < |fields| && fields[m] == f;
    PutAllReadBack(b, fields, m);
  }

  // ---------------------------------------------------------------------
  // Disjointness of concatenated runs.
  // ---------------------------------------------------------------------

  lemma WithinWiden(xs: seq<Field>, from: int, to: int, from2: int, to2: int)
    requires Within(xs, from, to) && from2 <= from && to <= to2
    ensures Within(xs, from2, to2)
  {
    assert forall m :: 0 <= m < |xs| ==> FieldWithin(xs[m], from, to);
  }

  lemma WithinAppend(xs: seq<Field>, ys: seq<Field>, from: int, to: int)
    requires Within(xs, from, to) && Within(ys, from, to)
    ensures Within(xs + ys, from, to)
  {
    forall m | 0 <= m < |xs + ys|
      ensures FieldWithin((xs + ys)[m], from, to)
    {
      if m < |xs| {
        assert (xs + ys)[m] == xs[m];
      } else {
        assert (xs + ys)[m] == ys[m - |xs|];
      }
    }
  }

  /** Runs in non-overlapping ranges of bits share no bit. */
  lemma SeparateRanges(xs: seq<Field>, ys: seq<Field>, a: int, b: int, c: int, d: int)
    requires Within(xs, a, b) && Within(ys, c, d) && (b <= c || d <= a)
    ensures Separate(xs, ys)
  {
    forall i, j | 0 <= i < |xs| && 0 <= j < |ys|
      ensures Disjoint(xs[i], ys[j])
    {
      assert FieldWithin(xs[i], a, b) && FieldWithin(ys[j], c, d);
    }
  }

  lemma SeparateAppend(xs: seq<Field>, ys: seq<Field>, zs: seq<Field>)
    requires Separate(xs, zs) && Separate(ys, zs)
    ensures Separate(xs + ys, zs)
  {
    forall i, j | 0 <= i < |xs + ys| && 0 <= j < |zs|
      ensures Disjoint((xs + ys)[i], zs[j])
    {
      if i < |xs| {
        assert (xs + ys)[i] == xs[i];
      } else {
        assert (xs + ys)[i] == ys[i - |xs|];
      }
    }
  }

  lemma ApartAppend(xs: seq<Field>, ys: seq<Field>)
    requires Apart(xs) && Apart(ys) && Separate(xs, ys)
    ensures Apart(xs + ys)
  {
    forall i, j | 0 <= i < j < |xs + ys|
      ensures Disjoint((xs + ys)[i], (xs + ys)[j])
    {
      if j < |xs| {
        assert (xs + ys)[i] == xs[i] && (xs + ys)[j] == xs[j];
      } else if i < |xs| {
        assert (xs + ys)[i] == xs[i] && (xs + ys)[j] == ys[j - |xs|];
      } else {
        assert (xs + ys)[i] == ys[i - |xs|] && (xs + ys)[j] == ys[j - |xs|];
      }
    }
  }

  /** Two runs in non-overlapping ranges, each apart, are apart together and lie in the hull. */
  lemma Join(xs: seq<Field>, ys: seq<Field>, a: int, b: int, c: int, d: int, from: int, to: int)
    requires Within(xs, a, b) && Within(ys, c, d) && (b <= c || d <= a)
    requires Apart(xs) && Apart(ys)
    requires from <= a && from <= c && b <= to && d <= to
    ensures Apart(xs + ys) && Within(xs + ys, from, to)
  {
    SeparateRanges(xs, ys, a, b, c, d);
    ApartAppend(xs, ys);
    WithinWiden(xs, a, b, from, to);
    WithinWiden(ys, c, d, from, to);
    WithinAppend(xs, ys, from, to);
  }

  lemma MulStep(w: nat, a: nat, b: int)
    requires a < b
    ensures 0 <= w * a && w * a + w <= w * b
  {
    var d := b - a - 1;
    assert w * b == w * a + w + w * d;
  }

  /** n fields of width w back to back from start are apart and fill start..start + w * n. */
  lemma RunLaid(fs: seq<Field>, start: int, w: nat, end: int)
    requires w < 64 && end == start + w * |fs|
    requires forall j :: 0 <= j < |fs| ==> fs[j].offset == start + w * j && fs[j].width == w
    ensures Within(fs, start, end) && Apart(fs)
  {
    forall j | 0 <= j < |fs|
      ensures FieldWithin(fs[j], start, end)
    {
      MulStep(w, j, |fs|);
    }
    forall a, b | 0 <= a < b < |fs|
      ensures Disjoint(fs[a], fs[b])
    {
      MulStep(w, a, b);
    }
  }

  // ---------------------------------------------------------------------
  // The fields each PackType method stores.
  // ---------------------------------------------------------------------

  /** GetComponent: component c of an endpoint, 0 r, 1 g, 2 b, 3 a; any other c reads r. */
  function Channel(e: ColorRgba32, c: int): byte
  {
    match c
    case 1 => e.g
    case 2 => e.b
    case 3 => e.a
    case _ => e.r
  }

  /** The block before the first store: lowBits holds only the mode tag 1 << mode, highBits is 0. */
  function InitialBlock(t: Bc7BlockType): Block
  {
    (FromNat(Pow2(t.Number()), 64), FromNat(0, 64))
  }

  /**
   * The header stores made on lowBits: the partition number in the modes
   * with subsets, (byte)rotation in modes 4 and 5, idxMode in mode 4.
   */
  function HeaderFields(t: Bc7BlockType, partition: nat, rotation: int, idxMode: nat): seq<Field>
  {
    match t
    case Type0 => [Field(1, 4, partition)]
    case Type1 => [Field(2, 6, partition)]
    case Type2 => [Field(3, 6, partition)]
    case Type3 => [Field(4, 6, partition)]
    case Type4 => [Field(5, 2, IntOps.ToByte(rotation)), Field(7, 1, idxMode)]
    case Type5 => [Field(6, 2, IntOps.ToByte(rotation))]
    case Type6 => []
    case Type7 => [Field(8, 6, partition)]
    case Type8Reserved => []
  }

  /** Components stored per endpoint: r, g and b, and a in modes 4-7. */
  function ComponentCount(t: Bc7BlockType): nat
  {
    if t.HasAlpha() then 4 else 3
  }

  /** One pass of the inner endpoint loop: component c of every endpoint, in endpoint order. */
  function ComponentFields(t: Bc7BlockType, eps: seq<ColorRgba32>, c: int): (r: seq<Field>)
    ensures |r| == |eps|
  {
    seq(|eps|, j requires 0 <= j < |eps| => Field(ComponentOffset(t, c, j), ComponentBits(t, c), Channel(eps[j], c)))
  }

  /** The endpoint loops up to component count: all reds, then all greens, and so on. */
  function EndpointFields(t: Bc7BlockType, eps: seq<ColorRgba32>, count: nat): seq<Field>
    decreases count
  {
    if count == 0 then [] else EndpointFields(t, eps, count - 1) + ComponentFields(t, eps, count - 1)
  }

  /** The p-bit loop: one bit each, right after the endpoints. */
  function PBitFields(t: Bc7BlockType, pBits: seq<byte>): (r: seq<Field>)
    ensures |r| == |pBits|
  {
    seq(|pBits|, i requires 0 <= i < |pBits| => Field(PBitBegin(t) + i, 1, pBits[i]))
  }

  /** An index loop: texel i at GetIndexBegin + GetIndexOffset, GetIndexBitCount bits wide. */
  function IndexFields(t: Bc7BlockType, partition: int, bitCount: int, isAlpha: bool, indices: seq<byte>): (r: seq<Field>)
    requires t != Type8Reserved && ValidPartition(t.NumSubsets(), partition) && |indices| >= 16
    ensures |r| == 16
  {
    seq(16, i requires 0 <= i < 16 =>
      Field(IndexBegin(t, bitCount, isAlpha) + GetIndexOffset(t.NumSubsets(), partition, bitCount, i).value,
            GetIndexBitCount(t.NumSubsets(), partition, bitCount, i), indices[i]))
  }

  /** ColorIndexBitCount of the block being packed: mode 4 takes 3 bits when idxMode is 1. */
  function PackedColorBits(t: Bc7BlockType, idxMode: int): int
  {
    match t
    case Type4 => if idxMode == 1 then 3 else 2
    case Type0 | Type1 => 3
    case Type6 => 4
    case _ => 2
  }

  /** AlphaIndexBitCount of a mode 4 or 5 block being packed. */
  function PackedAlphaBits(t: Bc7BlockType, idxMode: int): int
  {
    if t == Type4 && idxMode == 0 then 3 else 2
  }

  /** What the Debug.Asserts and the table lookups of the PackType methods ask of their arguments. */
  predicate PackArgs(t: Bc7BlockType, partition: int, idxMode: int, eps: seq<ColorRgba32>, pBits: seq<byte>,
                     colorIndices: seq<byte>, alphaIndices: seq<byte>)
  {
    t != Type8Reserved && ValidPartition(t.NumSubsets(), partition) && (t == Type0 ==> partition < 16) &&
    0 <= idxMode < 2 && |eps| == t.GetRawEndPointCount() && |pBits| == t.GetPBitCount() &&
    |colorIndices| >= 16 && (t.HasRotationBits() ==> |alphaIndices| >= 16)
  }

  /** The separate alpha index stream of modes 4 and 5. */
  function AlphaIndexFields(t: Bc7BlockType, partition: int, idxMode: int, alphaIndices: seq<byte>): seq<Field>
    requires t != Type8Reserved && ValidPartition(t.NumSubsets(), partition)
    requires t.HasRotationBits() ==> |alphaIndices| >= 16
  {
    if t.HasRotationBits() then IndexFields(t, partition, PackedAlphaBits(t, idxMode), true, alphaIndices) else []
  }

  /** Every store a PackType method makes, in the order it makes them. */
  function Layout(t: Bc7BlockType, partition: int, rotation: int, idxMode: int, eps: seq<ColorRgba32>,
                  pBits: seq<byte>, colorIndices: seq<byte>, alphaIndices: seq<byte>): seq<Field>
    requires PackArgs(t, partition, idxMode, eps, pBits, colorIndices, alphaIndices)
  {
    HeaderFields(t, partition, rotation, idxMode) + EndpointFields(t, eps, ComponentCount(t)) + PBitFields(t, pBits) +
    IndexFields(t, partition, PackedColorBits(t, idxMode), false, colorIndices) +
    AlphaIndexFields(t, partition, idxMode, alphaIndices)
  }

  /** The block a PackType method leaves behind. */
  function PackedBlock(t: Bc7BlockType, partition: int, rotation: int, idxMode: int, eps: seq<ColorRgba32>,
                       pBits: seq<byte>, colorIndices: seq<byte>, alphaIndices: seq<byte>): Block
    requires PackArgs(t, partition, idxMode, eps, pBits, colorIndices, alphaIndices)
  {
    PutAll(InitialBlock(t), Layout(t, partition, rotation, idxMode, eps, pBits, colorIndices, alphaIndices))
  }

  // ---------------------------------------------------------------------
  // The fields of every mode lie above its tag and share no bit.
  // ---------------------------------------------------------------------

  /** First bit of the run of component c: the runs of r, g, b and a follow each other from EndpointBegin. */
  function ComponentStart(t: Bc7BlockType, c: int): int
  {
    var n := t.GetRawEndPointCount();
    if c <= 3 then EndpointBegin(t) + ColorFieldBits(t) * n * c
    else EndpointBegin(t) + n * (3 * ColorFieldBits(t) + AlphaFieldBits(t))
  }

  lemma ComponentRun(t: Bc7BlockType, c: int)
    requires t != Type8Reserved && 0 <= c < ComponentCount(t)
    ensures 0 <= ComponentBits(t, c) < 64
    ensures ComponentStart(t, c + 1) == ComponentStart(t, c) + ComponentBits(t, c) * t.GetRawEndPointCount()
    ensures forall j :: ComponentOffset(t, c, j) == ComponentStart(t, c) + ComponentBits(t, c) * j
  {
    match t
    case Type0 => case Type1 => case Type2 => case Type3 =>
    case Type4 => case Type5 => case Type6 => case Type7 =>
  }

  /** Component c of endpoint j + 1 follows component c of endpoint j; the run of c ends where that of c + 1 begins. */
  lemma ComponentStep(t: Bc7BlockType, c: int, j: int)
    requires t != Type8Reserved && 0 <= c < ComponentCount(t)
    ensures 0 <= ComponentBits(t, c) < 64
    ensures ComponentOffset(t, c, j + 1) == ComponentOffset(t, c, j) + ComponentBits(t, c)
    ensures ComponentOffset(t, c, 0) == ComponentStart(t, c)
    ensures ComponentOffset(t, c, t.GetRawEndPointCount()) == ComponentStart(t, c + 1)
  {
    match t
    case Type0 => case Type1 => case Type2 => case Type3 =>
    case Type4 => case Type5 => case Type6 => case Type7 =>
  }

  lemma ComponentLaid(t: Bc7BlockType, eps: seq<ColorRgba32>, c: int)
    requires t != Type8Reserved && 0 <= c < ComponentCount(t) && |eps| == t.GetRawEndPointCount()
    ensures Within(ComponentFields(t, eps, c), ComponentStart(t, c), ComponentStart(t, c + 1))
    ensures Apart(ComponentFields(t, eps, c))
  {
    ComponentRun(t, c);
    RunLaid(ComponentFields(t, eps, c), ComponentStart(t, c), ComponentBits(t, c), ComponentStart(t, c + 1));
  }

  lemma {:induction false} EndpointLaid(t: Bc7BlockType, eps: seq<ColorRgba32>, count: nat)
    requires t != Type8Reserved && count <= ComponentCount(t) && |eps| == t.GetRawEndPointCount()
    ensures EndpointBegin(t) <= ComponentStart(t, count)
    ensures Within(EndpointFields(t, eps, count), EndpointBegin(t), ComponentStart(t, count))
    ensures Apart(EndpointFields(t, eps, count))
  {
    if count > 0 {
      var c := count - 1;
      var run := ComponentFields(t, eps, c);
      EndpointLaid(t, eps, c);
      ComponentLaid(t, eps, c);
      assert FieldWithin(run[0], ComponentStart(t, c), ComponentStart(t, count));
      Join(EndpointFields(t, eps, c), run, EndpointBegin(t), ComponentStart(t, c),
           ComponentStart(t, c), ComponentStart(t, count), EndpointBegin(t), ComponentStart(t, count));
    }
  }

  lemma EndpointsLaid(t: Bc7BlockType, eps: seq<ColorRgba32>)
    requires t != Type8Reserved && |eps| == t.GetRawEndPointCount()
    ensures Within(EndpointFields(t, eps, ComponentCount(t)), EndpointBegin(t), PBitBegin(t))
    ensures Apart(EndpointFields(t, eps, ComponentCount(t)))
  {
    EndpointLaid(t, eps, ComponentCount(t));
    assert ComponentStart(t, ComponentCount(t)) == PBitBegin(t) by {
      match t
      case Type0 => case Type1 => case Type2 => case Type3 =>
      case Type4 => case Type5 => case Type6 => case Type7 =>
    }
  }

  lemma HeaderLaid(t: Bc7BlockType, partition: nat, rotation: int, idxMode: nat)
    requires t != Type8Reserved && partition < 64 && idxMode < 2
    ensures t.Number() + 1 <= EndpointBegin(t)
    ensures Within(HeaderFields(t, partition, rotation, idxMode), t.Number() + 1, EndpointBegin(t))
    ensures Apart(HeaderFields(t, partition, rotation, idxMode))
  {
  }

  lemma PBitLaid(t: Bc7BlockType, pBits: seq<byte>)
    ensures Within(PBitFields(t, pBits), PBitBegin(t), PBitBegin(t) + |pBits|)
    ensures Apart(PBitFields(t, pBits))
  {
    RunLaid(PBitFields(t, pBits), PBitBegin(t), 1, PBitBegin(t) + |pBits|);
  }

  /** Index fields follow each other: the later texel starts at or after the end of the earlier one. */
  lemma {:induction false} IndexOffsetMono(numSubsets: int, partition: int, bitCount: int, a: int, b: int)
    requires ValidPartition(numSubsets, partition) && bitCount >= 1 && 0 <= a < b < 16
    ensures GetIndexOffset(numSubsets, partition, bitCount, a).value + GetIndexBitCount(numSubsets, partition, bitCount, a) <=
      GetIndexOffset(numSubsets, partition, bitCount, b).value
    decreases b - a
  {
    IndexOffsetStep(numSubsets, partition, bitCount, b - 1);
    if a < b - 1 {
      IndexOffsetMono(numSubsets, partition, bitCount, a, b - 1);
      IndexInStream(numSubsets, partition, bitCount, b - 1);
    }
  }

  lemma IndexLaid(t: Bc7BlockType, partition: int, bitCount: int, isAlpha: bool, indices: seq<byte>)
    requires t != Type8Reserved && ValidPartition(t.NumSubsets(), partition) && |indices| >= 16
    requires 1 <= bitCount <= 4
    ensures Within(IndexFields(t, partition, bitCount, isAlpha, indices), IndexBegin(t, bitCount, isAlpha), StreamEnd(t, bitCount, isAlpha))
    ensures Apart(IndexFields(t, partition, bitCount, isAlpha, indices))
  {
    var fs := IndexFields(t, partition, bitCount, isAlpha, indices);
    assert SubsetCount(t) == t.NumSubsets();
    forall i | 0 <= i < 16
      ensures FieldWithin(fs[i], IndexBegin(t, bitCount, isAlpha), StreamEnd(t, bitCount, isAlpha))
    {
      IndexInStream(t.NumSubsets(), partition, bitCount, i);
    }
    forall a, b | 0 <= a < b < 16
      ensures Disjoint(fs[a], fs[b])
    {
      IndexOffsetMono(t.NumSubsets(), partition, bitCount, a, b);
    }
  }

  /**
   * The index streams of a packed block follow the p-bits and end by bit
   * 128; in mode 4 the 2-bit stream comes first, whichever of colour and
   * alpha it holds.
   */
  lemma PackRegions(t: Bc7BlockType, idxMode: int)
    requires t != Type8Reserved && 0 <= idxMode < 2
    ensures var cb := PackedColorBits(t, idxMode);
      PBitBegin(t) + t.GetPBitCount() <= IndexBegin(t, cb, false) && StreamEnd(t, cb, false) <= 128
    ensures var cb := PackedColorBits(t, idxMode);
      var ab := PackedAlphaBits(t, idxMode);
      t.HasRotationBits() ==>
        PBitBegin(t) + t.GetPBitCount() <= IndexBegin(t, ab, true) && StreamEnd(t, ab, true) <= 128 &&
        (StreamEnd(t, cb, false) <= IndexBegin(t, ab, true) || StreamEnd(t, ab, true) <= IndexBegin(t, cb, false))
  {
    IndexStreamsAsWritten();
  }

  /** All the fields of a mode lie between its tag and bit 128, and no two share a bit. */
  lemma LayoutLaid(t: Bc7BlockType, partition: int, rotation: int, idxMode: int, eps: seq<ColorRgba32>,
                   pBits: seq<byte>, colorIndices: seq<byte>, alphaIndices: seq<byte>)
    requires PackArgs(t, partition, idxMode, eps, pBits, colorIndices, alphaIndices)
    ensures var fields := Layout(t, partition, rotation, idxMode, eps, pBits, colorIndices, alphaIndices);
      Within(fields, t.Number() + 1, 128) && Apart(fields)
  {
    var tag := t.Number() + 1;
    var h := HeaderFields(t, partition, rotation, idxMode);
    var e := EndpointFields(t, eps, ComponentCount(t));
    var p := PBitFields(t, pBits);
    var cb := PackedColorBits(t, idxMode);
    var ab := PackedAlphaBits(t, idxMode);
    var ci := IndexFields(t, partition, cb, false, colorIndices);
    var ai := AlphaIndexFields(t, partition, idxMode, alphaIndices);
    var pEnd := PBitBegin(t) + |pBits|;
    HeaderLaid(t, partition, rotation, idxMode);
    EndpointsLaid(t, eps);
    PBitLaid(t, pBits);
    PackRegions(t, idxMode);
    IndexLaid(t, partition, cb, false, colorIndices);
    Join(h, e, tag, EndpointBegin(t), EndpointBegin(t), PBitBegin(t), tag, PBitBegin(t));
    Join(h + e, p, tag, PBitBegin(t), PBitBegin(t), pEnd, tag, pEnd);
    Join(h + e + p, ci, tag, pEnd, IndexBegin(t, cb, false), StreamEnd(t, cb, false), tag, 128);
    if t.HasRotationBits() {
      IndexLaid(t, partition, ab, true, alphaIndices);
      SeparateRanges(h + e + p, ai, tag, pEnd, IndexBegin(t, ab, true), StreamEnd(t, ab, true));
      SeparateRanges(ci, ai, IndexBegin(t, cb, false), StreamEnd(t, cb, false), IndexBegin(t, ab, true), StreamEnd(t, ab, true));
      SeparateAppend(h + e + p, ci, ai);
      ApartAppend(h + e + p + ci, ai);
      WithinWiden(ai, IndexBegin(t, ab, true), StreamEnd(t, ab, true), tag, 128);
      WithinAppend(h + e + p + ci, ai, tag, 128);
    } else {
      assert h + e + p + ci + ai == h + e + p + ci;
    }
  }

  // ---------------------------------------------------------------------
  // What the decoder's readers find in a packed block.
  // ---------------------------------------------------------------------

  /** Every field of the layout reads back as its value cut to its width. */
  lemma PackedField(t: Bc7BlockType, partition: int, rotation: int, idxMode: int, eps: seq<ColorRgba32>,
                    pBits: seq<byte>, colorIndices: seq<byte>, alphaIndices: seq<byte>, f: Field)
    requires PackArgs(t, partition, idxMode, eps, pBits, colorIndices, alphaIndices)
    requires f in Layout(t, partition, rotation, idxMode, eps, pBits, colorIndices, alphaIndices) && f.width >= 0
    ensures var r := PackedBlock(t, partition, rotation, idxMode, eps, pBits, colorIndices, alphaIndices);
      ToNat(ExtractFrom128(r.0, r.1, f.offset, f.width)) == f.value % Pow2(f.width)
  {
    var fields := Layout(t, partition, rotation, idxMode, eps, pBits, colorIndices, alphaIndices);
    LayoutLaid(t, partition, rotation, idxMode, eps, pBits, colorIndices, alphaIndices);
    WithinWiden(fields, t.Number() + 1, 128, 0, 128);
    ReadBack(InitialBlock(t), fields, f);
  }

  /** A packed block is of the mode it was packed in: its tag bit is set and the bits below it are clear. */
  lemma PackedType(t: Bc7BlockType, partition: int, rotation: int, idxMode: int, eps: seq<ColorRgba32>,
                   pBits: seq<byte>, colorIndices: seq<byte>, alphaIndices: seq<byte>)
    requires PackArgs(t, partition, idxMode, eps, pBits, colorIndices, alphaIndices)
    ensures TypeOf(PackedBlock(t, partition, rotation, idxMode, eps, pBits, colorIndices, alphaIndices).0) == t
  {
    LayoutLaid(t, partition, rotation, idxMode, eps, pBits, colorIndices, alphaIndices);
    TagKept(t, Layout(t, partition, rotation, idxMode, eps, pBits, colorIndices, alphaIndices));
  }

  /** Stores above the tag bit leave the mode of the initial block in place. */
  lemma TagKept(t: Bc7BlockType, fields: seq<Field>)
    requires t != Type8Reserved && Within(fields, t.Number() + 1, 128)
    ensures TypeOf(PutAll(InitialBlock(t), fields).0) == t
  {
    var b := InitialBlock(t);
    var r := PutAll(b, fields);
    var tag := t.Number();
    forall k | 0 <= k <= tag
      ensures r.0[k] == (k == tag)
    {
      PutAllKeeps(b, fields, tag + 1, k);
      BitPow2(tag, k);
    }
    TypeOfTag(r.0, tag);
    assert TypeFromNumber(tag) == t by {
      match t
      case Type0 => case Type1 => case Type2 => case Type3 =>
      case Type4 => case Type5 => case Type6 => case Type7 =>
    }
  }

  /** Once mode 4's header is stored, later stores that share none of its bits leave the index mode in place. */
  lemma IndexModeKept(fields: seq<Field>, idxMode: int)
    requires Within(fields, 5, 128) && Apart(fields) && |fields| >= 2
    requires 0 <= idxMode < 2 && fields[1] == Field(7, 1, idxMode)
    ensures Type4IndexMode(PutAll(InitialBlock(Type4), fields).0) == idxMode
  {
    var r := PutAll(InitialBlock(Type4), fields);
    TagKept(Type4, fields);
    WithinWiden(fields, 5, 128, 0, 128);
    PutAllReadBack(InitialBlock(Type4), fields, 1);
    IndexModeField(r.0, idxMode);
  }

  /** Every prefix of a list laid in a range, with no two fields sharing a bit, is one too. */
  lemma PrefixLaid(xs: seq<Field>, ys: seq<Field>, from: int, to: int)
    requires Within(ys, from, to) && Apart(ys) && xs <= ys
    ensures Within(xs, from, to) && Apart(xs)
  {
    assert forall m :: 0 <= m < |xs| ==> xs[m] == ys[m];
  }

  /**
   * While a PackType method runs, the fields stored so far are a prefix of
   * its layout, and the Type and Type4IndexMode properties it reads on the
   * way are already those of the finished block.
   */
  lemma LayoutPrefix(t: Bc7BlockType, partition: int, rotation: int, idxMode: int, eps: seq<ColorRgba32>,
                     pBits: seq<byte>, colorIndices: seq<byte>, alphaIndices: seq<byte>, xs: seq<Field>)
    requires PackArgs(t, partition, idxMode, eps, pBits, colorIndices, alphaIndices)
    requires xs <= Layout(t, partition, rotation, idxMode, eps, pBits, colorIndices, alphaIndices)
    ensures var s := PutAll(InitialBlock(t), xs);
      TypeOf(s.0) == t && (t == Type4 && |xs| >= 2 ==> Type4IndexMode(s.0) == idxMode)
  {
    var fields := Layout(t, partition, rotation, idxMode, eps, pBits, colorIndices, alphaIndices);
    LayoutLaid(t, partition, rotation, idxMode, eps, pBits, colorIndices, alphaIndices);
    PrefixLaid(xs, fields, t.Number() + 1, 128);
    TagKept(t, xs);
    if t == Type4 && |xs| >= 2 {
      assert xs[1] == fields[1] == Field(7, 1, idxMode);
      IndexModeKept(xs, idxMode);
    }
  }

  /** Bits 0-7 of lowBits decide the mode and the mode-4 index mode. */
  lemma HeaderAgree(low1: Ulong, low2: Ulong)
    requires forall k :: 0 <= k < 8 ==> low1[k] == low2[k]
    ensures TypeOf(low1) == TypeOf(low2) && Type4IndexMode(low1) == Type4IndexMode(low2)
  {
    TagAgree(low1, low2, 0);
    ExtractBits(low1, 7, 1);
    ExtractBits(low2, 7, 1);
    assert Extract(low1, 7, 1) == Extract(low2, 7, 1);
  }

  lemma {:induction false} TagAgree(low1: Ulong, low2: Ulong, i: nat)
    requires i <= 8 && forall k :: i <= k < 8 ==> low1[k] == low2[k]
    ensures LowestTag(low1, i) == LowestTag(low2, i)
    decreases 8 - i
  {
    if i < 8 {
      TagAgree(low1, low2, i + 1);
    }
  }

  /** A store above bit 7 keeps the mode and the mode-4 index mode. */
  lemma PutKeepsHeader(s: Block, f: Field)
    requires FieldWithin(f, 8, 128)
    ensures TypeOf(Put(s, f).0) == TypeOf(s.0) && Type4IndexMode(Put(s, f).0) == Type4IndexMode(s.0)
  {
    StoreTo128Bits(s.0, s.1, f.offset, f.width, FromNat(f.value, 64));
    var r := Put(s, f);
    assert forall k :: 0 <= k < 8 ==> r.0[k] == BlockBit(r, k) && s.0[k] == BlockBit(s, k);
    HeaderAgree(s.0, r.0);
  }

  /**
   * What a PackType method knows once its header, endpoints and p-bits are
   * stored: the Type and Type4IndexMode it reads next are the packed ones,
   * its index streams lie above bit 7, and the block is finished by those
   * index streams.
   */
  lemma PackedPrefix(t: Bc7BlockType, partition: int, rotation: int, idxMode: int, eps: seq<ColorRgba32>,
                     pBits: seq<byte>, colorIndices: seq<byte>, alphaIndices: seq<byte>)
    requires PackArgs(t, partition, idxMode, eps, pBits, colorIndices, alphaIndices)
    ensures var p := HeaderFields(t, partition, rotation, idxMode) + EndpointFields(t, eps, ComponentCount(t)) + PBitFields(t, pBits);
      var s := PutAll(InitialBlock(t), p);
      TypeOf(s.0) == t && (t == Type4 ==> Type4IndexMode(s.0) == idxMode) &&
      PackedBlock(t, partition, rotation, idxMode, eps, pBits, colorIndices, alphaIndices) ==
        PutAll(InitialBlock(t), p + IndexFields(t, partition, PackedColorBits(t, idxMode), false, colorIndices) +
                                AlphaIndexFields(t, partition, idxMode, alphaIndices))
    ensures Within(IndexFields(t, partition, PackedColorBits(t, idxMode), false, colorIndices), 8, 128)
    ensures t.HasRotationBits() ==> Within(IndexFields(t, partition, PackedAlphaBits(t, idxMode), true, alphaIndices), 8, 128)
  {
    var p := HeaderFields(t, partition, rotation, idxMode) + EndpointFields(t, eps, ComponentCount(t)) + PBitFields(t, pBits);
    var ci := IndexFields(t, partition, PackedColorBits(t, idxMode), false, colorIndices);
    var ai := AlphaIndexFields(t, partition, idxMode, alphaIndices);
    PrefixOfRun(p, ci, ai, 0);
    assert p + ci[..0] == p;
    LayoutPrefix(t, partition, rotation, idxMode, eps, pBits, colorIndices, alphaIndices, p);
    IndexStreamsAbove(t, partition, idxMode, colorIndices, alphaIndices);
  }

  lemma IndexStreamsAbove(t: Bc7BlockType, partition: int, idxMode: int, colorIndices: seq<byte>, alphaIndices: seq<byte>)
    requires t != Type8Reserved && ValidPartition(t.NumSubsets(), partition) && 0 <= idxMode < 2
    requires |colorIndices| >= 16 && (t.HasRotationBits() ==> |alphaIndices| >= 16)
    ensures Within(IndexFields(t, partition, PackedColorBits(t, idxMode), false, colorIndices), 8, 128)
    ensures t.HasRotationBits() ==> Within(IndexFields(t, partition, PackedAlphaBits(t, idxMode), true, alphaIndices), 8, 128)
  {
    var cb := PackedColorBits(t, idxMode);
    var ab := PackedAlphaBits(t, idxMode);
    PackRegions(t, idxMode);
    assert 8 <= PBitBegin(t) by {
      match t
      case Type0 => case Type1 => case Type2 => case Type3 =>
      case Type4 => case Type5 => case Type6 => case Type7 =>
    }
    IndexLaid(t, partition, cb, false, colorIndices);
    WithinWiden(IndexFields(t, partition, cb, false, colorIndices), IndexBegin(t, cb, false), StreamEnd(t, cb, false), 8, 128);
    if t.HasRotationBits() {
      IndexLaid(t, partition, ab, true, alphaIndices);
      WithinWiden(IndexFields(t, partition, ab, true, alphaIndices), IndexBegin(t, ab, true), StreamEnd(t, ab, true), 8, 128);
    }
  }

  /** The fields stored so far, extended by the next field of the run ys. */
  lemma PutNext(b: Block, xs: seq<Field>, ys: seq<Field>, j: int)
    requires 0 <= j < |ys|
    ensures PutAll(b, xs + ys[..j + 1]) == Put(PutAll(b, xs + ys[..j]), ys[j])
  {
    assert (xs + ys[..j + 1])[..|xs + ys[..j + 1]| - 1] == xs + ys[..j];
  }

  /** A run stored in part is a prefix of any list it starts, after the fields before it. */
  lemma PrefixOfRun(xs: seq<Field>, ys: seq<Field>, zs: seq<Field>, j: int)
    requires 0 <= j <= |ys|
    ensures xs + ys[..j] <= xs + ys + zs
  {
    assert (xs + ys + zs)[..|xs| + j] == xs + ys[..j];
  }

  /** Header field m read from lowBits with Extract, as the descriptor properties read it. */
  lemma PackedHeaderField(t: Bc7BlockType, partition: int, rotation: int, idxMode: int, eps: seq<ColorRgba32>,
                          pBits: seq<byte>, colorIndices: seq<byte>, alphaIndices: seq<byte>, m: int)
    requires PackArgs(t, partition, idxMode, eps, pBits, colorIndices, alphaIndices)
    requires 0 <= m < |HeaderFields(t, partition, rotation, idxMode)|
    ensures var r := PackedBlock(t, partition, rotation, idxMode, eps, pBits, colorIndices, alphaIndices);
      var f := HeaderFields(t, partition, rotation, idxMode)[m];
      ToNat(Extract(r.0, f.offset, f.width)) == f.value % Pow2(f.width)
  {
    var h := HeaderFields(t, partition, rotation, idxMode);
    var fields := Layout(t, partition, rotation, idxMode, eps, pBits, colorIndices, alphaIndices);
    assert fields[m] == h[m];
    PackedField(t, partition, rotation, idxMode, eps, pBits, colorIndices, alphaIndices, h[m]);
  }

  /** The partition number Decode uses is the one packed. */
  lemma PackedPartition(t: Bc7BlockType, partition: int, rotation: int, idxMode: int, eps: seq<ColorRgba32>,
                        pBits: seq<byte>, colorIndices: seq<byte>, alphaIndices: seq<byte>)
    requires PackArgs(t, partition, idxMode, eps, pBits, colorIndices, alphaIndices)
    ensures PartitionOf(PackedBlock(t, partition, rotation, idxMode, eps, pBits, colorIndices, alphaIndices).0) == partition
  {
    var r := PackedBlock(t, partition, rotation, idxMode, eps, pBits, colorIndices, alphaIndices);
    PackedType(t, partition, rotation, idxMode, eps, pBits, colorIndices, alphaIndices);
    if t.HasSubsets() {
      PackedHeaderField(t, partition, rotation, idxMode, eps, pBits, colorIndices, alphaIndices, 0);
      PartitionField(r.0, partition);
    }
  }

  /** Reading the partition field: PartitionSetId of a block whose field holds p cut to its width. */
  lemma PartitionField(low: Ulong, p: int)
    requires TypeOf(low).HasSubsets() && 0 <= p < 64 && (TypeOf(low) == Type0 ==> p < 16)
    requires var f := HeaderFields(TypeOf(low), p, 0, 0)[0]; ToNat(Extract(low, f.offset, f.width)) == p % Pow2(f.width)
    ensures PartitionSetId(low) == p
  {
    var f := HeaderFields(TypeOf(low), p, 0, 0)[0];
    var x := ToNat(Extract(low, f.offset, f.width));
    assert Pow2(4) == 16 && Pow2(6) == 64;
    if TypeOf(low) == Type0 {
      ModSmall(p, 16);
    } else {
      ModSmall(p, 64);
    }
    ModSmall(p, 256);
    assert PartitionSetId(low) == ByteOf(Extract(low, f.offset, f.width));
  }

  /** Modes 4 and 5 carry the rotation cut to 2 bits; the other modes report none. */
  lemma PackedRotation(t: Bc7BlockType, partition: int, rotation: int, idxMode: int, eps: seq<ColorRgba32>,
                       pBits: seq<byte>, colorIndices: seq<byte>, alphaIndices: seq<byte>)
    requires PackArgs(t, partition, idxMode, eps, pBits, colorIndices, alphaIndices)
    ensures RotationOf(PackedBlock(t, partition, rotation, idxMode, eps, pBits, colorIndices, alphaIndices).0) ==
      if t.HasRotationBits() then IntOps.ToByte(rotation) % 4 else 0
  {
    var r := PackedBlock(t, partition, rotation, idxMode, eps, pBits, colorIndices, alphaIndices);
    PackedType(t, partition, rotation, idxMode, eps, pBits, colorIndices, alphaIndices);
    if t.HasRotationBits() {
      PackedHeaderField(t, partition, rotation, idxMode, eps, pBits, colorIndices, alphaIndices, 0);
      RotationField(r.0, IntOps.ToByte(rotation));
    }
  }

  lemma RotationField(low: Ulong, v: byte)
    requires TypeOf(low).HasRotationBits()
    requires var f := HeaderFields(TypeOf(low), 0, v, 0)[0]; ToNat(Extract(low, f.offset, f.width)) == v % Pow2(f.width)
    ensures RotationBits(low) == v % 4
  {
    var f := HeaderFields(TypeOf(low), 0, v, 0)[0];
    var x := ToNat(Extract(low, f.offset, 2));
    assert Pow2(2) == 4;
    ModSmall(v % 4, 256);
    assert RotationBits(low) == ByteOf(Extract(low, f.offset, 2));
  }

  /** A mode 4 block carries the index mode it was packed with. */
  lemma PackedIndexMode(partition: int, rotation: int, idxMode: int, eps: seq<ColorRgba32>,
                        pBits: seq<byte>, colorIndices: seq<byte>, alphaIndices: seq<byte>)
    requires PackArgs(Type4, partition, idxMode, eps, pBits, colorIndices, alphaIndices)
    ensures Type4IndexMode(PackedBlock(Type4, partition, rotation, idxMode, eps, pBits, colorIndices, alphaIndices).0) == idxMode
  {
    var r := PackedBlock(Type4, partition, rotation, idxMode, eps, pBits, colorIndices, alphaIndices);
    PackedType(Type4, partition, rotation, idxMode, eps, pBits, colorIndices, alphaIndices);
    PackedHeaderField(Type4, partition, rotation, idxMode, eps, pBits, colorIndices, alphaIndices, 1);
    IndexModeField(r.0, idxMode);
  }

  lemma IndexModeField(low: Ulong, v: int)
    requires TypeOf(low) == Type4 && 0 <= v < 2 && ToNat(Extract(low, 7, 1)) == v % Pow2(1)
    ensures Type4IndexMode(low) == v
  {
    var x := ToNat(Extract(low, 7, 1));
    assert Pow2(1) == 2;
    ModSmall(v, 2);
    ModSmall(v, 256);
    assert Type4IndexMode(low) == ByteOf(Extract(low, 7, 1));
  }

  lemma {:induction false} ComponentInEndpoints(t: Bc7BlockType, eps: seq<ColorRgba32>, count: nat, c: int, j: int)
    requires 0 <= c < count && 0 <= j < |eps|
    ensures ComponentFields(t, eps, c)[j] in EndpointFields(t, eps, count)
    decreases count
  {
    if c < count - 1 {
      ComponentInEndpoints(t, eps, count - 1, c, j);
    }
  }

  /** A word holding v cut to n <= 8 bits casts to the same byte. */
  lemma StoredByte(w: Ulong, v: nat, n: nat)
    requires n <= 8 && ToNat(w) == v % Pow2(n)
    ensures ByteOf(w) == v % Pow2(n)
  {
    Pow2Mono(n, 8);
    Pow2Of16();
    ModSmall(v % Pow2(n), 256);
  }

  /** Component c of raw endpoint j reads back as the packed component cut to its field width. */
  lemma PackedComponent(t: Bc7BlockType, partition: int, rotation: int, idxMode: int, eps: seq<ColorRgba32>,
                        pBits: seq<byte>, colorIndices: seq<byte>, alphaIndices: seq<byte>, c: int, j: int)
    requires PackArgs(t, partition, idxMode, eps, pBits, colorIndices, alphaIndices)
    requires 0 <= c < ComponentCount(t) && 0 <= j < |eps|
    ensures var r := PackedBlock(t, partition, rotation, idxMode, eps, pBits, colorIndices, alphaIndices);
      RawComponent(r.0, r.1, t, c, j) == Channel(eps[j], c) % Pow2(ComponentBits(t, c))
  {
    var r := PackedBlock(t, partition, rotation, idxMode, eps, pBits, colorIndices, alphaIndices);
    var f := ComponentFields(t, eps, c)[j];
    ComponentInEndpoints(t, eps, ComponentCount(t), c, j);
    ComponentRun(t, c);
    ComponentInBlock(t, c, j);
    PackedField(t, partition, rotation, idxMode, eps, pBits, colorIndices, alphaIndices, f);
    StoredByte(ExtractFrom128(r.0, r.1, f.offset, f.width), f.value, f.width);
  }

  /** Endpoint x as the decoder reads it back over e: each stored component cut to its field width. */
  function Truncated(t: Bc7BlockType, x: ColorRgba32, e: ColorRgba32): (r: ColorRgba32)
    ensures RawFits(t, r)
  {
    var cb := ColorFieldBits(t);
    ColorRgba32(Cut(x.r, cb), Cut(x.g, cb), Cut(x.b, cb), if t.HasAlpha() then Cut(x.a, AlphaFieldBits(t)) else e.a)
  }

  /** The low n bits of a byte. */
  function Cut(x: byte, n: int): (r: byte)
    ensures n >= 0 ==> r < Pow2(n)
  {
    if n < 0 then x else ModAtMost(x, Pow2(n)); x % Pow2(n)
  }

  lemma ModAtMost(a: nat, m: nat)
    requires m > 0
    ensures a % m <= a
  {
  }

  /**
   * Raw endpoint j of a packed block, read over any buffer entry e, is the
   * packed endpoint with each stored component cut to its width; in modes
   * 0-3 the buffer's alpha stays.
   */
  lemma PackedEndpoint(t: Bc7BlockType, partition: int, rotation: int, idxMode: int, eps: seq<ColorRgba32>,
                       pBits: seq<byte>, colorIndices: seq<byte>, alphaIndices: seq<byte>, e: ColorRgba32, j: int)
    requires PackArgs(t, partition, idxMode, eps, pBits, colorIndices, alphaIndices)
    requires 0 <= j < |eps|
    ensures var r := PackedBlock(t, partition, rotation, idxMode, eps, pBits, colorIndices, alphaIndices);
      RawEndpoint(r.0, r.1, t, e, j) == Truncated(t, eps[j], e)
  {
    PackedComponent(t, partition, rotation, idxMode, eps, pBits, colorIndices, alphaIndices, 0, j);
    PackedComponent(t, partition, rotation, idxMode, eps, pBits, colorIndices, alphaIndices, 1, j);
    PackedComponent(t, partition, rotation, idxMode, eps, pBits, colorIndices, alphaIndices, 2, j);
    if t.HasAlpha() {
      PackedComponent(t, partition, rotation, idxMode, eps, pBits, colorIndices, alphaIndices, 3, j);
    }
  }

  /** A one-bit field denotes 1 exactly when its bit is set. */
  lemma OneBit(low: Ulong, high: Ulong, k: int)
    requires 0 <= k < 128
    ensures ToNat(ExtractFrom128(low, high, k, 1)) == if (low + high)[k] then 1 else 0
  {
    var w := ExtractFrom128(low, high, k, 1);
    ExtractFrom128Bits(low, high, k, 1);
    ToNatBelow(w, 1);
    assert ToNat(w) == (if w[0] then 1 else 0) + 2 * ToNat(w[1..]);
  }

  /** The p-bits of a packed block are the packed p-bits cut to one bit. */
  lemma PackedPBit(t: Bc7BlockType, partition: int, rotation: int, idxMode: int, eps: seq<ColorRgba32>,
                   pBits: seq<byte>, colorIndices: seq<byte>, alphaIndices: seq<byte>, i: int)
    requires PackArgs(t, partition, idxMode, eps, pBits, colorIndices, alphaIndices)
    requires 0 <= i < |pBits|
    ensures var r := PackedBlock(t, partition, rotation, idxMode, eps, pBits, colorIndices, alphaIndices);
      TypeOf(r.0) == t && ExtractPBitArray(r.0, r.1)[i] == pBits[i] % 2
  {
    var r := PackedBlock(t, partition, rotation, idxMode, eps, pBits, colorIndices, alphaIndices);
    var f := PBitFields(t, pBits)[i];
    PackedType(t, partition, rotation, idxMode, eps, pBits, colorIndices, alphaIndices);
    PackedField(t, partition, rotation, idxMode, eps, pBits, colorIndices, alphaIndices, f);
    EndpointSection(t);
    PBitAt(r.0, r.1, t, i);
    OneBit(r.0, r.1, f.offset);
  }

  /** The descriptors Decode derives from the tag and header of a packed block are the packed ones. */
  lemma PackedDescriptors(t: Bc7BlockType, partition: int, rotation: int, idxMode: int, eps: seq<ColorRgba32>,
                          pBits: seq<byte>, colorIndices: seq<byte>, alphaIndices: seq<byte>)
    requires PackArgs(t, partition, idxMode, eps, pBits, colorIndices, alphaIndices)
    ensures var r := PackedBlock(t, partition, rotation, idxMode, eps, pBits, colorIndices, alphaIndices);
      TypeOf(r.0) == t && PartitionOf(r.0) == partition && SubsetCount(t) == t.NumSubsets() &&
      ColorIndexBitCount(r.0) == PackedColorBits(t, idxMode) &&
      (t.HasRotationBits() ==> AlphaIndexBitCount(r.0) == PackedAlphaBits(t, idxMode))
  {
    PackedType(t, partition, rotation, idxMode, eps, pBits, colorIndices, alphaIndices);
    PackedPartition(t, partition, rotation, idxMode, eps, pBits, colorIndices, alphaIndices);
    if t == Type4 {
      PackedIndexMode(partition, rotation, idxMode, eps, pBits, colorIndices, alphaIndices);
    }
  }

  /** Reading texel i of a stream whose field at the position Decode computes holds v cut to its width. */
  lemma IndexField(low: Ulong, high: Ulong, t: Bc7BlockType, p: int, bitCount: int, isAlpha: bool, i: int,
                   pos: int, w: nat, v: nat)
    requires TypeOf(low) == t && t != Type8Reserved && PartitionOf(low) == p && 0 <= i < 16
    requires ValidPartition(t.NumSubsets(), p)
    requires pos == IndexBegin(t, bitCount, isAlpha) + GetIndexOffset(t.NumSubsets(), p, bitCount, i).value
    requires w == GetIndexBitCount(t.NumSubsets(), p, bitCount, i)
    requires ToNat(ExtractFrom128(low, high, pos, w)) == v % Pow2(w)
    ensures ReadIndex(low, high, bitCount, isAlpha, i) == v % Pow2(w)
  {
    DecodePartitionValid(low);
  }

  /** The colour index of texel i is the packed index cut to the width of its field. */
  lemma PackedColorIndex(t: Bc7BlockType, partition: int, rotation: int, idxMode: int, eps: seq<ColorRgba32>,
                         pBits: seq<byte>, colorIndices: seq<byte>, alphaIndices: seq<byte>, i: int)
    requires PackArgs(t, partition, idxMode, eps, pBits, colorIndices, alphaIndices)
    requires 0 <= i < 16
    ensures var r := PackedBlock(t, partition, rotation, idxMode, eps, pBits, colorIndices, alphaIndices);
      TypeOf(r.0) == t &&
      ColorIndex(r.0, r.1, i) ==
        colorIndices[i] % Pow2(GetIndexBitCount(t.NumSubsets(), partition, PackedColorBits(t, idxMode), i))
  {
    var r := PackedBlock(t, partition, rotation, idxMode, eps, pBits, colorIndices, alphaIndices);
    var cb := PackedColorBits(t, idxMode);
    var f := IndexFields(t, partition, cb, false, colorIndices)[i];
    PackedDescriptors(t, partition, rotation, idxMode, eps, pBits, colorIndices, alphaIndices);
    IndexInStream(t.NumSubsets(), partition, cb, i);
    PackedField(t, partition, rotation, idxMode, eps, pBits, colorIndices, alphaIndices, f);
    IndexField(r.0, r.1, t, partition, cb, false, i, f.offset, f.width, f.value);
  }

  /**
   * The alpha index of texel i: in modes 4 and 5 the packed alpha index cut
   * to the width of its field, in modes 6 and 7 the colour index, and 0 in
   * modes 0-3.
   */
  lemma PackedAlphaIndex(t: Bc7BlockType, partition: int, rotation: int, idxMode: int, eps: seq<ColorRgba32>,
                         pBits: seq<byte>, colorIndices: seq<byte>, alphaIndices: seq<byte>, i: int)
    requires PackArgs(t, partition, idxMode, eps, pBits, colorIndices, alphaIndices)
    requires 0 <= i < 16
    ensures var r := PackedBlock(t, partition, rotation, idxMode, eps, pBits, colorIndices, alphaIndices);
      TypeOf(r.0) == t &&
      AlphaIndex(r.0, r.1, i) ==
        if t.HasRotationBits() then alphaIndices[i] % Pow2(GetIndexBitCount(t.NumSubsets(), partition, PackedAlphaBits(t, idxMode), i))
        else if t.HasAlpha() then ColorIndex(r.0, r.1, i)
        else 0
  {
    var r := PackedBlock(t, partition, rotation, idxMode, eps, pBits, colorIndices, alphaIndices);
    PackedDescriptors(t, partition, rotation, idxMode, eps, pBits, colorIndices, alphaIndices);
    if t.HasRotationBits() {
      var ab := PackedAlphaBits(t, idxMode);
      var f := IndexFields(t, partition, ab, true, alphaIndices)[i];
      IndexInStream(t.NumSubsets(), partition, ab, i);
      PackedField(t, partition, rotation, idxMode, eps, pBits, colorIndices, alphaIndices, f);
      IndexField(r.0, r.1, t, partition, ab, true, i, f.offset, f.width, f.value);
    } else if t.HasAlpha() {
      IndexStreamsAsWritten();
    }
  }

  /** Every endpoint cut to the widths of its mode's fields; modes 0-3 keep the buffer's alpha. */
  function TruncatedAll(t: Bc7BlockType, eps: seq<ColorRgba32>, pool: seq<ColorRgba32>): (r: seq<ColorRgba32>)
    requires |pool| == |eps|
    ensures |r| == |eps| && forall j :: 0 <= j < |r| ==> RawFits(t, r[j])
  {
    seq(|eps|, j requires 0 <= j < |eps| => Truncated(t, eps[j], pool[j]))
  }

  /** Every p-bit cut to its lowest bit. */
  function PBitsCut(pBits: seq<byte>): (r: seq<byte>)
    ensures |r| == |pBits| && forall i :: 0 <= i < |r| ==> r[i] <= 1
  {
    seq(|pBits|, i requires 0 <= i < |pBits| => pBits[i] % 2)
  }

  /**
   * Decoding the endpoints of a packed block finalises the packed endpoints,
   * cut to their fields, with the packed p-bits: the endpoint half of the
   * round trip between PackTypeN and Decode.
   */
  lemma PackedEndpoints(t: Bc7BlockType, partition: int, rotation: int, idxMode: int, eps: seq<ColorRgba32>,
                        pBits: seq<byte>, colorIndices: seq<byte>, alphaIndices: seq<byte>, pool: seq<ColorRgba32>)
    requires PackArgs(t, partition, idxMode, eps, pBits, colorIndices, alphaIndices)
    requires |pool| == |eps|
    ensures var r := PackedBlock(t, partition, rotation, idxMode, eps, pBits, colorIndices, alphaIndices);
      TypeOf(r.0) == t && |pool| == t.GetRawEndPointCount() && (t.HasPBits() ==> PBitsCover(t, PBitsCut(pBits), |eps|)) &&
      DecodedEndpoints(r.0, r.1, pool) == FinalizedEndpoints(t, PBitsCut(pBits), TruncatedAll(t, eps, pool))
  {
    var r := PackedBlock(t, partition, rotation, idxMode, eps, pBits, colorIndices, alphaIndices);
    PackedType(t, partition, rotation, idxMode, eps, pBits, colorIndices, alphaIndices);
    var raw := ExtractRawEndpoints(r.0, r.1, pool).value;
    forall j | 0 <= j < |pool|
      ensures raw[j] == TruncatedAll(t, eps, pool)[j]
    {
      PackedEndpoint(t, partition, rotation, idxMode, eps, pBits, colorIndices, alphaIndices, pool[j], j);
    }
    assert raw == TruncatedAll(t, eps, pool);
    var pb := ExtractPBitArray(r.0, r.1);
    forall i | 0 <= i < |pBits|
      ensures pb[i] == PBitsCut(pBits)[i]
    {
      PackedPBit(t, partition, rotation, idxMode, eps, pBits, colorIndices, alphaIndices, i);
    }
    assert pb == PBitsCut(pBits);
  }
}
