/**
 * The constant tables of the BC7 (BPTC) format: the interpolation weights and,
 * for the 2- and 3-subset modes, the subset of each of the 16 texels of a block
 * in each of the 64 partition shapes, together with each shape's anchor texels
 * (the texels of subsets 1 and 2 whose index is stored one bit shorter).
 * The partition and anchor tables are lookups by partition number (and texel),
 * written as matches with one row per partition.
 */
module Bc7Tables {

  /** Interpolation weights for 2-, 3- and 4-bit indices. */
  const ColorInterpolationWeights2: seq<int> := [0, 21, 43, 64]
  const ColorInterpolationWeights3: seq<int> := [0, 9, 18, 27, 37, 46, 55, 64]
  const ColorInterpolationWeights4: seq<int> := [0, 4, 9, 13, 17, 21, 26, 30, 34, 38, 43, 47, 51, 55, 60, 64]

  /**
   * Subset of texel i in two-subset partition p (the table
   * Subsets2PartitionTable[p][i]).
   */
  function Subsets2Partition(p: int, i: int): int
    requires 0 <= p < 64 && 0 <= i < 16
  {
    match p
    case 0 =>
      (match i case 0 => 0 case 1 => 0 case 2 => 1 case 3 => 1 case 4 => 0 case 5 => 0 case 6 => 1 case 7 => 1
        case 8 => 0 case 9 => 0 case 10 => 1 case 11 => 1 case 12 => 0 case 13 => 0 case 14 => 1 case _ => 1)
    case 1 =>
      (match i case 0 => 0 case 1 => 0 case 2 => 0 case 3 => 1 case 4 => 0 case 5 => 0 case 6 => 0 case 7 => 1
        case 8 => 0 case 9 => 0 case 10 => 0 case 11 => 1 case 12 => 0 case 13 => 0 case 14 => 0 case _ => 1)
    case 2 =>
      (match i case 0 => 0 case 1 => 1 case 2 => 1 case 3 => 1 case 4 => 0 case 5 => 1 case 6 => 1 case 7 => 1
        case 8 => 0 case 9 => 1 case 10 => 1 case 11 => 1 case 12 => 0 case 13 => 1 case 14 => 1 case _ => 1)
    case 3 =>
      (match i case 0 => 0 case 1 => 0 case 2 => 0 case 3 => 1 case 4 => 0 case 5 => 0 case 6 => 1 case 7 => 1
        case 8 => 0 case 9 => 0 case 10 => 1 case 11 => 1 case 12 => 0 case 13 => 1 case 14 => 1 case _ => 1)
    case 4 =>
      (match i case 0 => 0 case 1 => 0 case 2 => 0 case 3 => 0 case 4 => 0 case 5 => 0 case 6 => 0 case 7 => 1
        case 8 => 0 case 9 => 0 case 10 => 0 case 11 => 1 case 12 => 0 case 13 => 0 case 14 => 1 case _ => 1)
    case 5 =>
      (match i case 0 => 0 case 1 => 0 case 2 => 1 case 3 => 1 case 4 => 0 case 5 => 1 case 6 => 1 case 7 => 1
        case 8 => 0 case 9 => 1 case 10 => 1 case 11 => 1 case 12 => 1 case 13 => 1 case 14 => 1 case _ => 1)
    case 6 =>
      (match i case 0 => 0 case 1 => 0 case 2 => 0 case 3 => 1 case 4 => 0 case 5 => 0 case 6 => 1 case 7 => 1
        case 8 => 0 case 9 => 1 case 10 => 1 case 11 => 1 case 12 => 1 case 13 => 1 case 14 => 1 case _ => 1)
    case 7 =>
      (match i case 0 => 0 case 1 => 0 case 2 => 0 case 3 => 0 case 4 => 0 case 5 => 0 case 6 => 0 case 7 => 1
        case 8 => 0 case 9 => 0 case 10 => 1 case 11 => 1 case 12 => 0 case 13 => 1 case 14 => 1 case _ => 1)
    case 8 =>
      (match i case 0 => 0 case 1 => 0 case 2 => 0 case 3 => 0 case 4 => 0 case 5 => 0 case 6 => 0 case 7 => 0
        case 8 => 0 case 9 => 0 case 10 => 0 case 11 => 1 case 12 => 0 case 13 => 0 case 14 => 1 case _ => 1)
    case 9 =>
      (match i case 0 => 0 case 1 => 0 case 2 => 1 case 3 => 1 case 4 => 0 case 5 => 1 case 6 => 1 case 7 => 1
        case 8 => 1 case 9 => 1 case 10 => 1 case 11 => 1 case 12 => 1 case 13 => 1 case 14 => 1 case _ => 1)
    case 10 =>
      (match i case 0 => 0 case 1 => 0 case 2 => 0 case 3 => 0 case 4 => 0 case 5 => 0 case 6 => 0 case 7 => 1
        case 8 => 0 case 9 => 1 case 10 => 1 case 11 => 1 case 12 => 1 case 13 => 1 case 14 => 1 case _ => 1)
    case 11 =>
      (match i case 0 => 0 case 1 => 0 case 2 => 0 case 3 => 0 case 4 => 0 case 5 => 0 case 6 => 0 case 7 => 0
        case 8 => 0 case 9 => 0 case 10 => 0 case 11 => 1 case 12 => 0 case 13 => 1 case 14 => 1 case _ => 1)
    case 12 =>
      (match i case 0 => 0 case 1 => 0 case 2 => 0 case 3 => 1 case 4 => 0 case 5 => 1 case 6 => 1 case 7 => 1
        case 8 => 1 case 9 => 1 case 10 => 1 case 11 => 1 case 12 => 1 case 13 => 1 case 14 => 1 case _ => 1)
    case 13 =>
      (match i case 0 => 0 case 1 => 0 case 2 => 0 case 3 => 0 case 4 => 0 case 5 => 0 case 6 => 0 case 7 => 0
        case 8 => 1 case 9 => 1 case 10 => 1 case 11 => 1 case 12 => 1 case 13 => 1 case 14 => 1 case _ => 1)
    case 14 =>
      (match i case 0 => 0 case 1 => 0 case 2 => 0 case 3 => 0 case 4 => 1 case 5 => 1 case 6 => 1 case 7 => 1
        case 8 => 1 case 9 => 1 case 10 => 1 case 11 => 1 case 12 => 1 case 13 => 1 case 14 => 1 case _ => 1)
    case 15 =>
      (match i case 0 => 0 case 1 => 0 case 2 => 0 case 3 => 0 case 4 => 0 case 5 => 0 case 6 => 0 case 7 => 0
        case 8 => 0 case 9 => 0 case 10 => 0 case 11 => 0 case 12 => 1 case 13 => 1 case 14 => 1 case _ => 1)
    case 16 =>
      (match i case 0 => 0 case 1 => 0 case 2 => 0 case 3 => 0 case 4 => 1 case 5 => 0 case 6 => 0 case 7 => 0
        case 8 => 1 case 9 => 1 case 10 => 1 case 11 => 0 case 12 => 1 case 13 => 1 case 14 => 1 case _ => 1)
    case 17 =>
      (match i case 0 => 0 case 1 => 1 case 2 => 1 case 3 => 1 case 4 => 0 case 5 => 0 case 6 => 0 case 7 => 1
        case 8 => 0 case 9 => 0 case 10 => 0 case 11 => 0 case 12 => 0 case 13 => 0 case 14 => 0 case _ => 0)
    case 18 =>
      (match i case 0 => 0 case 1 => 0 case 2 => 0 case 3 => 0 case 4 => 0 case 5 => 0 case 6 => 0 case 7 => 0
        case 8 => 1 case 9 => 0 case 10 => 0 case 11 => 0 case 12 => 1 case 13 => 1 case 14 => 1 case _ => 0)
    case 19 =>
      (match i case 0 => 0 case 1 => 1 case 2 => 1 case 3 => 1 case 4 => 0 case 5 => 0 case 6 => 1 case 7 => 1
        case 8 => 0 case 9 => 0 case 10 => 0 case 11 => 1 case 12 => 0 case 13 => 0 case 14 => 0 case _ => 0)
    case 20 =>
      (match i case 0 => 0 case 1 => 0 case 2 => 1 case 3 => 1 case 4 => 0 case 5 => 0 case 6 => 0 case 7 => 1
        case 8 => 0 case 9 => 0 case 10 => 0 case 11 => 0 case 12 => 0 case 13 => 0 case 14 => 0 case _ => 0)
    case 21 =>
      (match i case 0 => 0 case 1 => 0 case 2 => 0 case 3 => 0 case 4 => 1 case 5 => 0 case 6 => 0 case 7 => 0
        case 8 => 1 case 9 => 1 case 10 => 0 case 11 => 0 case 12 => 1 case 13 => 1 case 14 => 1 case _ => 0)
    case 22 =>
      (match i case 0 => 0 case 1 => 0 case 2 => 0 case 3 => 0 case 4 => 0 case 5 => 0 case 6 => 0 case 7 => 0
        case 8 => 1 case 9 => 0 case 10 => 0 case 11 => 0 case 12 => 1 case 13 => 1 case 14 => 0 case _ => 0)
    case 23 =>
      (match i case 0 => 0 case 1 => 1 case 2 => 1 case 3 => 1 case 4 => 0 case 5 => 0 case 6 => 1 case 7 => 1
        case 8 => 0 case 9 => 0 case 10 => 1 case 11 => 1 case 12 => 0 case 13 => 0 case 14 => 0 case _ => 1)
    case 24 =>
      (match i case 0 => 0 case 1 => 0 case 2 => 1 case 3 => 1 case 4 => 0 case 5 => 0 case 6 => 0 case 7 => 1
        case 8 => 0 case 9 => 0 case 10 => 0 case 11 => 1 case 12 => 0 case 13 => 0 case 14 => 0 case _ => 0)
    case 25 =>
      (match i case 0 => 0 case 1 => 0 case 2 => 0 case 3 => 0 case 4 => 1 case 5 => 0 case 6 => 0 case 7 => 0
        case 8 => 1 case 9 => 0 case 10 => 0 case 11 => 0 case 12 => 1 case 13 => 1 case 14 => 0 case _ => 0)
    case 26 =>
      (match i case 0 => 0 case 1 => 1 case 2 => 1 case 3 => 0 case 4 => 0 case 5 => 1 case 6 => 1 case 7 => 0
        case 8 => 0 case 9 => 1 case 10 => 1 case 11 => 0 case 12 => 0 case 13 => 1 case 14 => 1 case _ => 0)
    case 27 =>
      (match i case 0 => 0 case 1 => 0 case 2 => 1 case 3 => 1 case 4 => 0 case 5 => 1 case 6 => 1 case 7 => 0
        case 8 => 0 case 9 => 1 case 10 => 1 case 11 => 0 case 12 => 1 case 13 => 1 case 14 => 0 case _ => 0)
    case 28 =>
      (match i case 0 => 0 case 1 => 0 case 2 => 0 case 3 => 1 case 4 => 0 case 5 => 1 case 6 => 1 case 7 => 1
        case 8 => 1 case 9 => 1 case 10 => 1 case 11 => 0 case 12 => 1 case 13 => 0 case 14 => 0 case _ => 0)
    case 29 =>
      (match i case 0 => 0 case 1 => 0 case 2 => 0 case 3 => 0 case 4 => 1 case 5 => 1 case 6 => 1 case 7 => 1
        case 8 => 1 case 9 => 1 case 10 => 1 case 11 => 1 case 12 => 0 case 13 => 0 case 14 => 0 case _ => 0)
    case 30 =>
      (match i case 0 => 0 case 1 => 1 case 2 => 1 case 3 => 1 case 4 => 0 case 5 => 0 case 6 => 0 case 7 => 1
        case 8 => 1 case 9 => 0 case 10 => 0 case 11 => 0 case 12 => 1 case 13 => 1 case 14 => 1 case _ => 0)
    case 31 =>
      (match i case 0 => 0 case 1 => 0 case 2 => 1 case 3 => 1 case 4 => 1 case 5 => 0 case 6 => 0 case 7 => 1
        case 8 => 1 case 9 => 0 case 10 => 0 case 11 => 1 case 12 => 1 case 13 => 1 case 14 => 0 case _ => 0)
    case 32 =>
      (match i case 0 => 0 case 1 => 1 case 2 => 0 case 3 => 1 case 4 => 0 case 5 => 1 case 6 => 0 case 7 => 1
        case 8 => 0 case 9 => 1 case 10 => 0 case 11 => 1 case 12 => 0 case 13 => 1 case 14 => 0 case _ => 1)
    case 33 =>
      (match i case 0 => 0 case 1 => 0 case 2 => 0 case 3 => 0 case 4 => 1 case 5 => 1 case 6 => 1 case 7 => 1
        case 8 => 0 case 9 => 0 case 10 => 0 case 11 => 0 case 12 => 1 case 13 => 1 case 14 => 1 case _ => 1)
    case 34 =>
      (match i case 0 => 0 case 1 => 1 case 2 => 0 case 3 => 1 case 4 => 1 case 5 => 0 case 6 => 1 case 7 => 0
        case 8 => 0 case 9 => 1 case 10 => 0 case 11 => 1 case 12 => 1 case 13 => 0 case 14 => 1 case _ => 0)
    case 35 =>
      (match i case 0 => 0 case 1 => 0 case 2 => 1 case 3 => 1 case 4 => 0 case 5 => 0 case 6 => 1 case 7 => 1
        case 8 => 1 case 9 => 1 case 10 => 0 case 11 => 0 case 12 => 1 case 13 => 1 case 14 => 0 case _ => 0)
    case 36 =>
      (match i case 0 => 0 case 1 => 0 case 2 => 1 case 3 => 1 case 4 => 1 case 5 => 1 case 6 => 0 case 7 => 0
        case 8 => 0 case 9 => 0 case 10 => 1 case 11 => 1 case 12 => 1 case 13 => 1 case 14 => 0 case _ => 0)
    case 37 =>
      (match i case 0 => 0 case 1 => 1 case 2 => 0 case 3 => 1 case 4 => 0 case 5 => 1 case 6 => 0 case 7 => 1
        case 8 => 1 case 9 => 0 case 10 => 1 case 11 => 0 case 12 => 1 case 13 => 0 case 14 => 1 case _ => 0)
    case 38 =>
      (match i case 0 => 0 case 1 => 1 case 2 => 1 case 3 => 0 case 4 => 1 case 5 => 0 case 6 => 0 case 7 => 1
        case 8 => 0 case 9 => 1 case 10 => 1 case 11 => 0 case 12 => 1 case 13 => 0 case 14 => 0 case _ => 1)
    case 39 =>
      (match i case 0 => 0 case 1 => 1 case 2 => 0 case 3 => 1 case 4 => 1 case 5 => 0 case 6 => 1 case 7 => 0
        case 8 => 1 case 9 => 0 case 10 => 1 case 11 => 0 case 12 => 0 case 13 => 1 case 14 => 0 case _ => 1)
    case 40 =>
      (match i case 0 => 0 case 1 => 1 case 2 => 1 case 3 => 1 case 4 => 0 case 5 => 0 case 6 => 1 case 7 => 1
        case 8 => 1 case 9 => 1 case 10 => 0 case 11 => 0 case 12 => 1 case 13 => 1 case 14 => 1 case _ => 0)
    case 41 =>
      (match i case 0 => 0 case 1 => 0 case 2 => 0 case 3 => 1 case 4 => 0 case 5 => 0 case 6 => 1 case 7 => 1
        case 8 => 1 case 9 => 1 case 10 => 0 case 11 => 0 case 12 => 1 case 13 => 0 case 14 => 0 case _ => 0)
    case 42 =>
      (match i case 0 => 0 case 1 => 0 case 2 => 1 case 3 => 1 case 4 => 0 case 5 => 0 case 6 => 1 case 7 => 0
        case 8 => 0 case 9 => 1 case 10 => 0 case 11 => 0 case 12 => 1 case 13 => 1 case 14 => 0 case _ => 0)
    case 43 =>
      (match i case 0 => 0 case 1 => 0 case 2 => 1 case 3 => 1 case 4 => 1 case 5 => 0 case 6 => 1 case 7 => 1
        case 8 => 1 case 9 => 1 case 10 => 0 case 11 => 1 case 12 => 1 case 13 => 1 case 14 => 0 case _ => 0)
    case 44 =>
      (match i case 0 => 0 case 1 => 1 case 2 => 1 case 3 => 0 case 4 => 1 case 5 => 0 case 6 => 0 case 7 => 1
        case 8 => 1 case 9 => 0 case 10 => 0 case 11 => 1 case 12 => 0 case 13 => 1 case 14 => 1 case _ => 0)
    case 45 =>
      (match i case 0 => 0 case 1 => 0 case 2 => 1 case 3 => 1 case 4 => 1 case 5 => 1 case 6 => 0 case 7 => 0
        case 8 => 1 case 9 => 1 case 10 => 0 case 11 => 0 case 12 => 0 case 13 => 0 case 14 => 1 case _ => 1)
    case 46 =>
      (match i case 0 => 0 case 1 => 1 case 2 => 1 case 3 => 0 case 4 => 0 case 5 => 1 case 6 => 1 case 7 => 0
        case 8 => 1 case 9 => 0 case 10 => 0 case 11 => 1 case 12 => 1 case 13 => 0 case 14 => 0 case _ => 1)
    case 47 =>
      (match i case 0 => 0 case 1 => 0 case 2 => 0 case 3 => 0 case 4 => 0 case 5 => 1 case 6 => 1 case 7 => 0
        case 8 => 0 case 9 => 1 case 10 => 1 case 11 => 0 case 12 => 0 case 13 => 0 case 14 => 0 case _ => 0)
    case 48 =>
      (match i case 0 => 0 case 1 => 1 case 2 => 0 case 3 => 0 case 4 => 1 case 5 => 1 case 6 => 1 case 7 => 0
        case 8 => 0 case 9 => 1 case 10 => 0 case 11 => 0 case 12 => 0 case 13 => 0 case 14 => 0 case _ => 0)
    case 49 =>
      (match i case 0 => 0 case 1 => 0 case 2 => 1 case 3 => 0 case 4 => 0 case 5 => 1 case 6 => 1 case 7 => 1
        case 8 => 0 case 9 => 0 case 10 => 1 case 11 => 0 case 12 => 0 case 13 => 0 case 14 => 0 case _ => 0)
    case 50 =>
      (match i case 0 => 0 case 1 => 0 case 2 => 0 case 3 => 0 case 4 => 0 case 5 => 0 case 6 => 1 case 7 => 0
        case 8 => 0 case 9 => 1 case 10 => 1 case 11 => 1 case 12 => 0 case 13 => 0 case 14 => 1 case _ => 0)
    case 51 =>
      (match i case 0 => 0 case 1 => 0 case 2 => 0 case 3 => 0 case 4 => 0 case 5 => 1 case 6 => 0 case 7 => 0
        case 8 => 1 case 9 => 1 case 10 => 1 case 11 => 0 case 12 => 0 case 13 => 1 case 14 => 0 case _ => 0)
    case 52 =>
      (match i case 0 => 0 case 1 => 1 case 2 => 1 case 3 => 0 case 4 => 1 case 5 => 1 case 6 => 0 case 7 => 0
        case 8 => 1 case 9 => 0 case 10 => 0 case 11 => 1 case 12 => 0 case 13 => 0 case 14 => 1 case _ => 1)
    case 53 =>
      (match i case 0 => 0 case 1 => 0 case 2 => 1 case 3 => 1 case 4 => 0 case 5 => 1 case 6 => 1 case 7 => 0
        case 8 => 1 case 9 => 1 case 10 => 0 case 11 => 0 case 12 => 1 case 13 => 0 case 14 => 0 case _ => 1)
    case 54 =>
      (match i case 0 => 0 case 1 => 1 case 2 => 1 case 3 => 0 case 4 => 0 case 5 => 0 case 6 => 1 case 7 => 1
        case 8 => 1 case 9 => 0 case 10 => 0 case 11 => 1 case 12 => 1 case 13 => 1 case 14 => 0 case _ => 0)
    case 55 =>
      (match i case 0 => 0 case 1 => 0 case 2 => 1 case 3 => 1 case 4 => 1 case 5 => 0 case 6 => 0 case 7 => 1
        case 8 => 1 case 9 => 1 case 10 => 0 case 11 => 0 case 12 => 0 case 13 => 1 case 14 => 1 case _ => 0)
    case 56 =>
      (match i case 0 => 0 case 1 => 1 case 2 => 1 case 3 => 0 case 4 => 1 case 5 => 1 case 6 => 0 case 7 => 0
        case 8 => 1 case 9 => 1 case 10 => 0 case 11 => 0 case 12 => 1 case 13 => 0 case 14 => 0 case _ => 1)
    case 57 =>
      (match i case 0 => 0 case 1 => 1 case 2 => 1 case 3 => 0 case 4 => 0 case 5 => 0 case 6 => 1 case 7 => 1
        case 8 => 0 case 9 => 0 case 10 => 1 case 11 => 1 case 12 => 1 case 13 => 0 case 14 => 0 case _ => 1)
    case 58 =>
      (match i case 0 => 0 case 1 => 1 case 2 => 1 case 3 => 1 case 4 => 1 case 5 => 1 case 6 => 1 case 7 => 0
        case 8 => 1 case 9 => 0 case 10 => 0 case 11 => 0 case 12 => 0 case 13 => 0 case 14 => 0 case _ => 1)
    case 59 =>
      (match i case 0 => 0 case 1 => 0 case 2 => 0 case 3 => 1 case 4 => 1 case 5 => 0 case 6 => 0 case 7 => 0
        case 8 => 1 case 9 => 1 case 10 => 1 case 11 => 0 case 12 => 0 case 13 => 1 case 14 => 1 case _ => 1)
    case 60 =>
      (match i case 0 => 0 case 1 => 0 case 2 => 0 case 3 => 0 case 4 => 1 case 5 => 1 case 6 => 1 case 7 => 1
        case 8 => 0 case 9 => 0 case 10 => 1 case 11 => 1 case 12 => 0 case 13 => 0 case 14 => 1 case _ => 1)
    case 61 =>
      (match i case 0 => 0 case 1 => 0 case 2 => 1 case 3 => 1 case 4 => 0 case 5 => 0 case 6 => 1 case 7 => 1
        case 8 => 1 case 9 => 1 case 10 => 1 case 11 => 1 case 12 => 0 case 13 => 0 case 14 => 0 case _ => 0)
    case 62 =>
      (match i case 0 => 0 case 1 => 0 case 2 => 1 case 3 => 0 case 4 => 0 case 5 => 0 case 6 => 1 case 7 => 0
        case 8 => 1 case 9 => 1 case 10 => 1 case 11 => 0 case 12 => 1 case 13 => 1 case 14 => 1 case _ => 0)
    case _ =>
      (match i case 0 => 0 case 1 => 1 case 2 => 0 case 3 => 0 case 4 => 0 case 5 => 1 case 6 => 0 case 7 => 0
        case 8 => 0 case 9 => 1 case 10 => 1 case 11 => 1 case 12 => 0 case 13 => 1 case 14 => 1 case _ => 1)
  }

  /**
   * Subset of texel i in three-subset partition p (the table
   * Subsets3PartitionTable[p][i]).
   */
  function Subsets3Partition(p: int, i: int): int
    requires 0 <= p < 64 && 0 <= i < 16
  {
    match p
    case 0 =>
      (match i case 0 => 0 case 1 => 0 case 2 => 1 case 3 => 1 case 4 => 0 case 5 => 0 case 6 => 1 case 7 => 1
        case 8 => 0 case 9 => 2 case 10 => 2 case 11 => 1 case 12 => 2 case 13 => 2 case 14 => 2 case _ => 2)
    case 1 =>
      (match i case 0 => 0 case 1 => 0 case 2 => 0 case 3 => 1 case 4 => 0 case 5 => 0 case 6 => 1 case 7 => 1
        case 8 => 2 case 9 => 2 case 10 => 1 case 11 => 1 case 12 => 2 case 13 => 2 case 14 => 2 case _ => 1)
    case 2 =>
      (match i case 0 => 0 case 1 => 0 case 2 => 0 case 3 => 0 case 4 => 2 case 5 => 0 case 6 => 0 case 7 => 1
        case 8 => 2 case 9 => 2 case 10 => 1 case 11 => 1 case 12 => 2 case 13 => 2 case 14 => 1 case _ => 1)
    case 3 =>
      (match i case 0 => 0 case 1 => 2 case 2 => 2 case 3 => 2 case 4 => 0 case 5 => 0 case 6 => 2 case 7 => 2
        case 8 => 0 case 9 => 0 case 10 => 1 case 11 => 1 case 12 => 0 case 13 => 1 case 14 => 1 case _ => 1)
    case 4 =>
      (match i case 0 => 0 case 1 => 0 case 2 => 0 case 3 => 0 case 4 => 0 case 5 => 0 case 6 => 0 case 7 => 0
        case 8 => 1 case 9 => 1 case 10 => 2 case 11 => 2 case 12 => 1 case 13 => 1 case 14 => 2 case _ => 2)
    case 5 =>
      (match i case 0 => 0 case 1 => 0 case 2 => 1 case 3 => 1 case 4 => 0 case 5 => 0 case 6 => 1 case 7 => 1
        case 8 => 0 case 9 => 0 case 10 => 2 case 11 => 2 case 12 => 0 case 13 => 0 case 14 => 2 case _ => 2)
    case 6 =>
      (match i case 0 => 0 case 1 => 0 case 2 => 2 case 3 => 2 case 4 => 0 case 5 => 0 case 6 => 2 case 7 => 2
        case 8 => 1 case 9 => 1 case 10 => 1 case 11 => 1 case 12 => 1 case 13 => 1 case 14 => 1 case _ => 1)
    case 7 =>
      (match i case 0 => 0 case 1 => 0 case 2 => 1 case 3 => 1 case 4 => 0 case 5 => 0 case 6 => 1 case 7 => 1
        case 8 => 2 case 9 => 2 case 10 => 1 case 11 => 1 case 12 => 2 case 13 => 2 case 14 => 1 case _ => 1)
    case 8 =>
      (match i case 0 => 0 case 1 => 0 case 2 => 0 case 3 => 0 case 4 => 0 case 5 => 0 case 6 => 0 case 7 => 0
        case 8 => 1 case 9 => 1 case 10 => 1 case 11 => 1 case 12 => 2 case 13 => 2 case 14 => 2 case _ => 2)
    case 9 =>
      (match i case 0 => 0 case 1 => 0 case 2 => 0 case 3 => 0 case 4 => 1 case 5 => 1 case 6 => 1 case 7 => 1
        case 8 => 1 case 9 => 1 case 10 => 1 case 11 => 1 case 12 => 2 case 13 => 2 case 14 => 2 case _ => 2)
    case 10 =>
      (match i case 0 => 0 case 1 => 0 case 2 => 0 case 3 => 0 case 4 => 1 case 5 => 1 case 6 => 1 case 7 => 1
        case 8 => 2 case 9 => 2 case 10 => 2 case 11 => 2 case 12 => 2 case 13 => 2 case 14 => 2 case _ => 2)
    case 11 =>
      (match i case 0 => 0 case 1 => 0 case 2 => 1 case 3 => 2 case 4 => 0 case 5 => 0 case 6 => 1 case 7 => 2
        case 8 => 0 case 9 => 0 case 10 => 1 case 11 => 2 case 12 => 0 case 13 => 0 case 14 => 1 case _ => 2)
    case 12 =>
      (match i case 0 => 0 case 1 => 1 case 2 => 1 case 3 => 2 case 4 => 0 case 5 => 1 case 6 => 1 case 7 => 2
        case 8 => 0 case 9 => 1 case 10 => 1 case 11 => 2 case 12 => 0 case 13 => 1 case 14 => 1 case _ => 2)
    case 13 =>
      (match i case 0 => 0 case 1 => 1 case 2 => 2 case 3 => 2 case 4 => 0 case 5 => 1 case 6 => 2 case 7 => 2
        case 8 => 0 case 9 => 1 case 10 => 2 case 11 => 2 case 12 => 0 case 13 => 1 case 14 => 2 case _ => 2)
    case 14 =>
      (match i case 0 => 0 case 1 => 0 case 2 => 1 case 3 => 1 case 4 => 0 case 5 => 1 case 6 => 1 case 7 => 2
        case 8 => 1 case 9 => 1 case 10 => 2 case 11 => 2 case 12 => 1 case 13 => 2 case 14 => 2 case _ => 2)
    case 15 =>
      (match i case 0 => 0 case 1 => 0 case 2 => 1 case 3 => 1 case 4 => 2 case 5 => 0 case 6 => 0 case 7 => 1
        case 8 => 2 case 9 => 2 case 10 => 0 case 11 => 0 case 12 => 2 case 13 => 2 case 14 => 2 case _ => 0)
    case 16 =>
      (match i case 0 => 0 case 1 => 0 case 2 => 0 case 3 => 1 case 4 => 0 case 5 => 0 case 6 => 1 case 7 => 1
        case 8 => 0 case 9 => 1 case 10 => 1 case 11 => 2 case 12 => 1 case 13 => 1 case 14 => 2 case _ => 2)
    case 17 =>
      (match i case 0 => 0 case 1 => 1 case 2 => 1 case 3 => 1 case 4 => 0 case 5 => 0 case 6 => 1 case 7 => 1
        case 8 => 2 case 9 => 0 case 10 => 0 case 11 => 1 case 12 => 2 case 13 => 2 case 14 => 0 case _ => 0)
    case 18 =>
      (match i case 0 => 0 case 1 => 0 case 2 => 0 case 3 => 0 case 4 => 1 case 5 => 1 case 6 => 2 case 7 => 2
        case 8 => 1 case 9 => 1 case 10 => 2 case 11 => 2 case 12 => 1 case 13 => 1 case 14 => 2 case _ => 2)
    case 19 =>
      (match i case 0 => 0 case 1 => 0 case 2 => 2 case 3 => 2 case 4 => 0 case 5 => 0 case 6 => 2 case 7 => 2
        case 8 => 0 case 9 => 0 case 10 => 2 case 11 => 2 case 12 => 1 case 13 => 1 case 14 => 1 case _ => 1)
    case 20 =>
      (match i case 0 => 0 case 1 => 1 case 2 => 1 case 3 => 1 case 4 => 0 case 5 => 1 case 6 => 1 case 7 => 1
        case 8 => 0 case 9 => 2 case 10 => 2 case 11 => 2 case 12 => 0 case 13 => 2 case 14 => 2 case _ => 2)
    case 21 =>
      (match i case 0 => 0 case 1 => 0 case 2 => 0 case 3 => 1 case 4 => 0 case 5 => 0 case 6 => 0 case 7 => 1
        case 8 => 2 case 9 => 2 case 10 => 2 case 11 => 1 case 12 => 2 case 13 => 2 case 14 => 2 case _ => 1)
    case 22 =>
      (match i case 0 => 0 case 1 => 0 case 2 => 0 case 3 => 0 case 4 => 0 case 5 => 0 case 6 => 1 case 7 => 1
        case 8 => 0 case 9 => 1 case 10 => 2 case 11 => 2 case 12 => 0 case 13 => 1 case 14 => 2 case _ => 2)
    case 23 =>
      (match i case 0 => 0 case 1 => 0 case 2 => 0 case 3 => 0 case 4 => 1 case 5 => 1 case 6 => 0 case 7 => 0
        case 8 => 2 case 9 => 2 case 10 => 1 case 11 => 0 case 12 => 2 case 13 => 2 case 14 => 1 case _ => 0)
    case 24 =>
      (match i case 0 => 0 case 1 => 1 case 2 => 2 case 3 => 2 case 4 => 0 case 5 => 1 case 6 => 2 case 7 => 2
        case 8 => 0 case 9 => 0 case 10 => 1 case 11 => 1 case 12 => 0 case 13 => 0 case 14 => 0 case _ => 0)
    case 25 =>
      (match i case 0 => 0 case 1 => 0 case 2 => 1 case 3 => 2 case 4 => 0 case 5 => 0 case 6 => 1 case 7 => 2
        case 8 => 1 case 9 => 1 case 10 => 2 case 11 => 2 case 12 => 2 case 13 => 2 case 14 => 2 case _ => 2)
    case 26 =>
      (match i case 0 => 0 case 1 => 1 case 2 => 1 case 3 => 0 case 4 => 1 case 5 => 2 case 6 => 2 case 7 => 1
        case 8 => 1 case 9 => 2 case 10 => 2 case 11 => 1 case 12 => 0 case 13 => 1 case 14 => 1 case _ => 0)
    case 27 =>
      (match i case 0 => 0 case 1 => 0 case 2 => 0 case 3 => 0 case 4 => 0 case 5 => 1 case 6 => 1 case 7 => 0
        case 8 => 1 case 9 => 2 case 10 => 2 case 11 => 1 case 12 => 1 case 13 => 2 case 14 => 2 case _ => 1)
    case 28 =>
      (match i case 0 => 0 case 1 => 0 case 2 => 2 case 3 => 2 case 4 => 1 case 5 => 1 case 6 => 0 case 7 => 2
        case 8 => 1 case 9 => 1 case 10 => 0 case 11 => 2 case 12 => 0 case 13 => 0 case 14 => 2 case _ => 2)
    case 29 =>
      (match i case 0 => 0 case 1 => 1 case 2 => 1 case 3 => 0 case 4 => 0 case 5 => 1 case 6 => 1 case 7 => 0
        case 8 => 2 case 9 => 0 case 10 => 0 case 11 => 2 case 12 => 2 case 13 => 2 case 14 => 2 case _ => 2)
    case 30 =>
      (match i case 0 => 0 case 1 => 0 case 2 => 1 case 3 => 1 case 4 => 0 case 5 => 1 case 6 => 2 case 7 => 2
        case 8 => 0 case 9 => 1 case 10 => 2 case 11 => 2 case 12 => 0 case 13 => 0 case 14 => 1 case _ => 1)
    case 31 =>
      (match i case 0 => 0 case 1 => 0 case 2 => 0 case 3 => 0 case 4 => 2 case 5 => 0 case 6 => 0 case 7 => 0
        case 8 => 2 case 9 => 2 case 10 => 1 case 11 => 1 case 12 => 2 case 13 => 2 case 14 => 2 case _ => 1)
    case 32 =>
      (match i case 0 => 0 case 1 => 0 case 2 => 0 case 3 => 0 case 4 => 0 case 5 => 0 case 6 => 0 case 7 => 2
        case 8 => 1 case 9 => 1 case 10 => 2 case 11 => 2 case 12 => 1 case 13 => 2 case 14 => 2 case _ => 2)
    case 33 =>
      (match i case 0 => 0 case 1 => 2 case 2 => 2 case 3 => 2 case 4 => 0 case 5 => 0 case 6 => 2 case 7 => 2
        case 8 => 0 case 9 => 0 case 10 => 1 case 11 => 2 case 12 => 0 case 13 => 0 case 14 => 1 case _ => 1)
    case 34 =>
      (match i case 0 => 0 case 1 => 0 case 2 => 1 case 3 => 1 case 4 => 0 case 5 => 0 case 6 => 1 case 7 => 2
        case 8 => 0 case 9 => 0 case 10 => 2 case 11 => 2 case 12 => 0 case 13 => 2 case 14 => 2 case _ => 2)
    case 35 =>
      (match i case 0 => 0 case 1 => 1 case 2 => 2 case 3 => 0 case 4 => 0 case 5 => 1 case 6 => 2 case 7 => 0
        case 8 => 0 case 9 => 1 case 10 => 2 case 11 => 0 case 12 => 0 case 13 => 1 case 14 => 2 case _ => 0)
    case 36 =>
      (match i case 0 => 0 case 1 => 0 case 2 => 0 case 3 => 0 case 4 => 1 case 5 => 1 case 6 => 1 case 7 => 1
        case 8 => 2 case 9 => 2 case 10 => 2 case 11 => 2 case 12 => 0 case 13 => 0 case 14 => 0 case _ => 0)
    case 37 =>
      (match i case 0 => 0 case 1 => 1 case 2 => 2 case 3 => 0 case 4 => 1 case 5 => 2 case 6 => 0 case 7 => 1
        case 8 => 2 case 9 => 0 case 10 => 1 case 11 => 2 case 12 => 0 case 13 => 1 case 14 => 2 case _ => 0)
    case 38 =>
      (match i case 0 => 0 case 1 => 1 case 2 => 2 case 3 => 0 case 4 => 2 case 5 => 0 case 6 => 1 case 7 => 2
        case 8 => 1 case 9 => 2 case 10 => 0 case 11 => 1 case 12 => 0 case 13 => 1 case 14 => 2 case _ => 0)
    case 39 =>
      (match i case 0 => 0 case 1 => 0 case 2 => 1 case 3 => 1 case 4 => 2 case 5 => 2 case 6 => 0 case 7 => 0
        case 8 => 1 case 9 => 1 case 10 => 2 case 11 => 2 case 12 => 0 case 13 => 0 case 14 => 1 case _ => 1)
    case 40 =>
      (match i case 0 => 0 case 1 => 0 case 2 => 1 case 3 => 1 case 4 => 1 case 5 => 1 case 6 => 2 case 7 => 2
        case 8 => 2 case 9 => 2 case 10 => 0 case 11 => 0 case 12 => 0 case 13 => 0 case 14 => 1 case _ => 1)
    case 41 =>
      (match i case 0 => 0 case 1 => 1 case 2 => 0 case 3 => 1 case 4 => 0 case 5 => 1 case 6 => 0 case 7 => 1
        case 8 => 2 case 9 => 2 case 10 => 2 case 11 => 2 case 12 => 2 case 13 => 2 case 14 => 2 case _ => 2)
    case 42 =>
      (match i case 0 => 0 case 1 => 0 case 2 => 0 case 3 => 0 case 4 => 0 case 5 => 0 case 6 => 0 case 7 => 0
        case 8 => 2 case 9 => 1 case 10 => 2 case 11 => 1 case 12 => 2 case 13 => 1 case 14 => 2 case _ => 1)
    case 43 =>
      (match i case 0 => 0 case 1 => 0 case 2 => 2 case 3 => 2 case 4 => 1 case 5 => 1 case 6 => 2 case 7 => 2
        case 8 => 0 case 9 => 0 case 10 => 2 case 11 => 2 case 12 => 1 case 13 => 1 case 14 => 2 case _ => 2)
    case 44 =>
      (match i case 0 => 0 case 1 => 0 case 2 => 2 case 3 => 2 case 4 => 0 case 5 => 0 case 6 => 1 case 7 => 1
        case 8 => 0 case 9 => 0 case 10 => 2 case 11 => 2 case 12 => 0 case 13 => 0 case 14 => 1 case _ => 1)
    case 45 =>
      (match i case 0 => 0 case 1 => 2 case 2 => 2 case 3 => 0 case 4 => 1 case 5 => 2 case 6 => 2 case 7 => 1
        case 8 => 0 case 9 => 2 case 10 => 2 case 11 => 0 case 12 => 1 case 13 => 2 case 14 => 2 case _ => 1)
    case 46 =>
      (match i case 0 => 0 case 1 => 1 case 2 => 0 case 3 => 1 case 4 => 2 case 5 => 2 case 6 => 2 case 7 => 2
        case 8 => 2 case 9 => 2 case 10 => 2 case 11 => 2 case 12 => 0 case 13 => 1 case 14 => 0 case _ => 1)
    case 47 =>
      (match i case 0 => 0 case 1 => 0 case 2 => 0 case 3 => 0 case 4 => 2 case 5 => 1 case 6 => 2 case 7 => 1
        case 8 => 2 case 9 => 1 case 10 => 2 case 11 => 1 case 12 => 2 case 13 => 1 case 14 => 2 case _ => 1)
    case 48 =>
      (match i case 0 => 0 case 1 => 1 case 2 => 0 case 3 => 1 case 4 => 0 case 5 => 1 case 6 => 0 case 7 => 1
        case 8 => 0 case 9 => 1 case 10 => 0 case 11 => 1 case 12 => 2 case 13 => 2 case 14 => 2 case _ => 2)
    case 49 =>
      (match i case 0 => 0 case 1 => 2 case 2 => 2 case 3 => 2 case 4 => 0 case 5 => 1 case 6 => 1 case 7 => 1
        case 8 => 0 case 9 => 2 case 10 => 2 case 11 => 2 case 12 => 0 case 13 => 1 case 14 => 1 case _ => 1)
    case 50 =>
      (match i case 0 => 0 case 1 => 0 case 2 => 0 case 3 => 2 case 4 => 1 case 5 => 1 case 6 => 1 case 7 => 2
        case 8 => 0 case 9 => 0 case 10 => 0 case 11 => 2 case 12 => 1 case 13 => 1 case 14 => 1 case _ => 2)
    case 51 =>
      (match i case 0 => 0 case 1 => 0 case 2 => 0 case 3 => 0 case 4 => 2 case 5 => 1 case 6 => 1 case 7 => 2
        case 8 => 2 case 9 => 1 case 10 => 1 case 11 => 2 case 12 => 2 case 13 => 1 case 14 => 1 case _ => 2)
    case 52 =>
      (match i case 0 => 0 case 1 => 2 case 2 => 2 case 3 => 2 case 4 => 0 case 5 => 1 case 6 => 1 case 7 => 1
        case 8 => 0 case 9 => 1 case 10 => 1 case 11 => 1 case 12 => 0 case 13 => 2 case 14 => 2 case _ => 2)
    case 53 =>
      (match i case 0 => 0 case 1 => 0 case 2 => 0 case 3 => 2 case 4 => 1 case 5 => 1 case 6 => 1 case 7 => 2
        case 8 => 1 case 9 => 1 case 10 => 1 case 11 => 2 case 12 => 0 case 13 => 0 case 14 => 0 case _ => 2)
    case 54 =>
      (match i case 0 => 0 case 1 => 1 case 2 => 1 case 3 => 0 case 4 => 0 case 5 => 1 case 6 => 1 case 7 => 0
        case 8 => 0 case 9 => 1 case 10 => 1 case 11 => 0 case 12 => 2 case 13 => 2 case 14 => 2 case _ => 2)
    case 55 =>
      (match i case 0 => 0 case 1 => 0 case 2 => 0 case 3 => 0 case 4 => 0 case 5 => 0 case 6 => 0 case 7 => 0
        case 8 => 2 case 9 => 1 case 10 => 1 case 11 => 2 case 12 => 2 case 13 => 1 case 14 => 1 case _ => 2)
    case 56 =>
      (match i case 0 => 0 case 1 => 1 case 2 => 1 case 3 => 0 case 4 => 0 case 5 => 1 case 6 => 1 case 7 => 0
        case 8 => 2 case 9 => 2 case 10 => 2 case 11 => 2 case 12 => 2 case 13 => 2 case 14 => 2 case _ => 2)
    case 57 =>
      (match i case 0 => 0 case 1 => 0 case 2 => 2 case 3 => 2 case 4 => 0 case 5 => 0 case 6 => 1 case 7 => 1
        case 8 => 0 case 9 => 0 case 10 => 1 case 11 => 1 case 12 => 0 case 13 => 0 case 14 => 2 case _ => 2)
    case 58 =>
      (match i case 0 => 0 case 1 => 0 case 2 => 2 case 3 => 2 case 4 => 1 case 5 => 1 case 6 => 2 case 7 => 2
        case 8 => 1 case 9 => 1 case 10 => 2 case 11 => 2 case 12 => 0 case 13 => 0 case 14 => 2 case _ => 2)
    case 59 =>
      (match i case 0 => 0 case 1 => 0 case 2 => 0 case 3 => 0 case 4 => 0 case 5 => 0 case 6 => 0 case 7 => 0
        case 8 => 0 case 9 => 0 case 10 => 0 case 11 => 0 case 12 => 2 case 13 => 1 case 14 => 1 case _ => 2)
    case 60 =>
      (match i case 0 => 0 case 1 => 0 case 2 => 0 case 3 => 2 case 4 => 0 case 5 => 0 case 6 => 0 case 7 => 1
        case 8 => 0 case 9 => 0 case 10 => 0 case 11 => 2 case 12 => 0 case 13 => 0 case 14 => 0 case _ => 1)
    case 61 =>
      (match i case 0 => 0 case 1 => 2 case 2 => 2 case 3 => 2 case 4 => 1 case 5 => 2 case 6 => 2 case 7 => 2
        case 8 => 0 case 9 => 2 case 10 => 2 case 11 => 2 case 12 => 1 case 13 => 2 case 14 => 2 case _ => 2)
    case 62 =>
      (match i case 0 => 0 case 1 => 1 case 2 => 0 case 3 => 1 case 4 => 2 case 5 => 2 case 6 => 2 case 7 => 2
        case 8 => 2 case 9 => 2 case 10 => 2 case 11 => 2 case 12 => 2 case 13 => 2 case 14 => 2 case _ => 2)
    case _ =>
      (match i case 0 => 0 case 1 => 1 case 2 => 1 case 3 => 1 case 4 => 2 case 5 => 0 case 6 => 1 case 7 => 1
        case 8 => 2 case 9 => 2 case 10 => 0 case 11 => 1 case 12 => 2 case 13 => 2 case 14 => 2 case _ => 0)
  }

  /** Anchor texel of subset 1 in two-subset partition p (Subsets2AnchorIndices[p]). */
  function Subsets2Anchor(p: int): int
    requires 0 <= p < 64
  {
    match p
    case 0 => 15 case 1 => 15 case 2 => 15 case 3 => 15 case 4 => 15 case 5 => 15 case 6 => 15 case 7 => 15
    case 8 => 15 case 9 => 15 case 10 => 15 case 11 => 15 case 12 => 15 case 13 => 15 case 14 => 15 case 15 => 15
    case 16 => 15 case 17 => 2 case 18 => 8 case 19 => 2 case 20 => 2 case 21 => 8 case 22 => 8 case 23 => 15
    case 24 => 2 case 25 => 8 case 26 => 2 case 27 => 2 case 28 => 8 case 29 => 8 case 30 => 2 case 31 => 2
    case 32 => 15 case 33 => 15 case 34 => 6 case 35 => 8 case 36 => 2 case 37 => 8 case 38 => 15 case 39 => 15
    case 40 => 2 case 41 => 8 case 42 => 2 case 43 => 2 case 44 => 2 case 45 => 15 case 46 => 15 case 47 => 6
    case 48 => 6 case 49 => 2 case 50 => 6 case 51 => 8 case 52 => 15 case 53 => 15 case 54 => 2 case 55 => 2
    case 56 => 15 case 57 => 15 case 58 => 15 case 59 => 15 case 60 => 15 case 61 => 2 case 62 => 2 case _ => 15
  }

  /** Anchor texel of subset 1 in three-subset partition p (Subsets3AnchorIndices2[p]). */
  function Subsets3Anchor2(p: int): int
    requires 0 <= p < 64
  {
    match p
    case 0 => 3 case 1 => 3 case 2 => 15 case 3 => 15 case 4 => 8 case 5 => 3 case 6 => 15 case 7 => 15
    case 8 => 8 case 9 => 8 case 10 => 6 case 11 => 6 case 12 => 6 case 13 => 5 case 14 => 3 case 15 => 3
    case 16 => 3 case 17 => 3 case 18 => 8 case 19 => 15 case 20 => 3 case 21 => 3 case 22 => 6 case 23 => 10
    case 24 => 5 case 25 => 8 case 26 => 8 case 27 => 6 case 28 => 8 case 29 => 5 case 30 => 15 case 31 => 15
    case 32 => 8 case 33 => 15 case 34 => 3 case 35 => 5 case 36 => 6 case 37 => 10 case 38 => 8 case 39 => 15
    case 40 => 15 case 41 => 3 case 42 => 15 case 43 => 5 case 44 => 15 case 45 => 15 case 46 => 15 case 47 => 15
    case 48 => 3 case 49 => 15 case 50 => 5 case 51 => 5 case 52 => 5 case 53 => 8 case 54 => 5 case 55 => 10
    case 56 => 5 case 57 => 10 case 58 => 8 case 59 => 13 case 60 => 15 case 61 => 12 case 62 => 3 case _ => 3
  }

  /** Anchor texel of subset 2 in three-subset partition p (Subsets3AnchorIndices3[p]). */
  function Subsets3Anchor3(p: int): int
    requires 0 <= p < 64
  {
    match p
    case 0 => 15 case 1 => 8 case 2 => 8 case 3 => 3 case 4 => 15 case 5 => 15 case 6 => 3 case 7 => 8
    case 8 => 15 case 9 => 15 case 10 => 15 case 11 => 15 case 12 => 15 case 13 => 15 case 14 => 15 case 15 => 8
    case 16 => 15 case 17 => 8 case 18 => 15 case 19 => 3 case 20 => 15 case 21 => 8 case 22 => 15 case 23 => 8
    case 24 => 3 case 25 => 15 case 26 => 6 case 27 => 10 case 28 => 15 case 29 => 15 case 30 => 10 case 31 => 8
    case 32 => 15 case 33 => 3 case 34 => 15 case 35 => 10 case 36 => 10 case 37 => 8 case 38 => 9 case 39 => 10
    case 40 => 6 case 41 => 15 case 42 => 8 case 43 => 15 case 44 => 3 case 45 => 6 case 46 => 6 case 47 => 8
    case 48 => 15 case 49 => 3 case 50 => 15 case 51 => 15 case 52 => 15 case 53 => 15 case 54 => 15 case 55 => 15
    case 56 => 15 case 57 => 15 case 58 => 15 case 59 => 15 case 60 => 3 case 61 => 15 case 62 => 15 case _ => 8
  }

  /** Every texel of a two-subset partition is in subset 0 or 1, and texel 0 is in subset 0. */
  lemma Subsets2PartitionRange(p: int, i: int)
    requires 0 <= p < 64 && 0 <= i < 16
    ensures 0 <= Subsets2Partition(p, i) < 2
    ensures Subsets2Partition(p, 0) == 0
  {
  }

  /** Every texel of a three-subset partition is in subset 0, 1 or 2, and texel 0 is in subset 0. */
  lemma Subsets3PartitionRange(p: int, i: int)
    requires 0 <= p < 64 && 0 <= i < 16
    ensures 0 <= Subsets3Partition(p, i) < 3
    ensures Subsets3Partition(p, 0) == 0
  {
  }

  /** The anchor of a two-subset partition is a texel after texel 0 that lies in subset 1. */
  lemma Subsets2AnchorInSubset(p: int)
    requires 0 <= p < 64
    ensures 0 < Subsets2Anchor(p) < 16
    ensures Subsets2Partition(p, Subsets2Anchor(p)) == 1
  {
  }

  /**
   * The anchors of a three-subset partition are two different texels after
   * texel 0, the first in subset 1 and the second in subset 2.
   */
  lemma Subsets3AnchorsInSubsets(p: int)
    requires 0 <= p < 64
    ensures 0 < Subsets3Anchor2(p) < 16 && 0 < Subsets3Anchor3(p) < 16
    ensures Subsets3Anchor2(p) != Subsets3Anchor3(p)
    ensures Subsets3Partition(p, Subsets3Anchor2(p)) == 1
    ensures Subsets3Partition(p, Subsets3Anchor3(p)) == 2
  {
  }
}
