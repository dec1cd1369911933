/**
 * Choosing a BC7 partition for a tile whose texels have been given cluster
 * labels (BCnEnc.Net/Encoder/Bc7/Bc7EncodingHelpers.cs): the error of a
 * partition counts the texels whose label is not the most frequent label
 * of their subset; SelectBest*SubsetPartition take the first partition of
 * least error and Rank*SubsetPartitions order all 64 by error.
 */
module Bc7Partitions {
  import opened Bc7Tables
  import opened Bc7Clusters

  /** The largest error a partition can have: every texel of the tile. */
  const MaxError := 16

  /** The subset of texel i in partition p of the two- or three-subset table. */
  function PartitionSubset(numSubsets: int, p: int, i: int): int
    requires numSubsets == 2 || numSubsets == 3
    requires 0 <= p < 64 && 0 <= i < 16
  {
    if numSubsets == 2 then Subsets2Partition(p, i) else Subsets3Partition(p, i)
  }

  /** Row p of the partition table as a sequence. */
  function Row(numSubsets: int, p: int): (row: seq<int>)
    requires numSubsets == 2 || numSubsets == 3
    requires 0 <= p < 64
    ensures |row| == 16
    ensures forall i :: 0 <= i < 16 ==> 0 <= row[i] < numSubsets
  {
    seq(16, i requires 0 <= i < 16 => PartitionSubset(numSubsets, p, i))
  }

  /** Every label is a cluster number below numClusters, and there is at least one cluster. */
  predicate Labelled(labels: seq<int>, numClusters: int)
  {
    1 <= numClusters && forall i :: 0 <= i < |labels| ==> 0 <= labels[i] < numClusters
  }

  // ---------------------------------------------------------------------
  // Counting.

  /** The number of texels below n in subset s with label c. */
  function CountIn(row: seq<int>, labels: seq<int>, s: int, c: int, n: nat): nat
    requires n <= |row| && n <= |labels|
  {
    if n == 0 then 0
    else CountIn(row, labels, s, c, n - 1) + (if row[n - 1] == s && labels[n - 1] == c then 1 else 0)
  }

  /** The number of texels below n in subset s. */
  function SubsetSize(row: seq<int>, s: int, n: nat): nat
    requires n <= |row|
  {
    if n == 0 then 0 else SubsetSize(row, s, n - 1) + (if row[n - 1] == s then 1 else 0)
  }

  function Max(a: int, b: int): int
  {
    if a < b then b else a
  }

  /** How often the most frequent of the labels below m occurs in subset s. */
  function MostFrequent(row: seq<int>, labels: seq<int>, s: int, m: nat): nat
    requires |row| == |labels|
  {
    if m == 0 then 0 else Max(MostFrequent(row, labels, s, m - 1), CountIn(row, labels, s, m - 1, |row|))
  }

  /** Over the subsets below k: the texels of each subset minus those with its most frequent label. */
  function SubsetErrors(row: seq<int>, labels: seq<int>, m: nat, k: nat): int
    requires |row| == |labels|
  {
    if k == 0 then 0
    else SubsetErrors(row, labels, m, k - 1) + SubsetSize(row, k - 1, |row|) - MostFrequent(row, labels, k - 1, m)
  }

  /**
   * The error of partition p of the numSubsets-subset table for a tile with
   * the given labels in 0 .. numClusters - 1.
   */
  function PartitionError(numSubsets: int, p: int, labels: seq<int>, numClusters: nat): int
    requires numSubsets == 2 || numSubsets == 3
    requires 0 <= p < 64 && |labels| == 16
  {
    SubsetErrors(Row(numSubsets, p), labels, numClusters, numSubsets)
  }

  /** The number of texels below n whose label differs from the chosen label of their subset. */
  function Mismatches(row: seq<int>, labels: seq<int>, chosen: seq<int>, n: nat): nat
    requires n <= |row| && n <= |labels|
    requires forall i :: 0 <= i < n ==> 0 <= row[i] < |chosen|
  {
    if n == 0 then 0
    else Mismatches(row, labels, chosen, n - 1) + (if labels[n - 1] != chosen[row[n - 1]] then 1 else 0)
  }

  /** Over the subsets below k: the texels below n of each subset minus those with its chosen label. */
  function MismatchSum(row: seq<int>, labels: seq<int>, chosen: seq<int>, n: nat, k: nat): int
    requires n <= |row| && n <= |labels| && k <= |chosen|
  {
    if k == 0 then 0
    else MismatchSum(row, labels, chosen, n, k - 1) + SubsetSize(row, k - 1, n) - CountIn(row, labels, k - 1, chosen[k - 1], n)
  }

  lemma {:induction false} MismatchSumStep(row: seq<int>, labels: seq<int>, chosen: seq<int>, n: nat, k: nat)
    requires 1 <= n <= |row| && n <= |labels| && k <= |chosen|
    ensures MismatchSum(row, labels, chosen, n, k) == MismatchSum(row, labels, chosen, n - 1, k) +
      (if 0 <= row[n - 1] < k && labels[n - 1] != chosen[row[n - 1]] then 1 else 0)
  {
    if k > 0 {
      MismatchSumStep(row, labels, chosen, n, k - 1);
    }
  }

  lemma {:induction false} MismatchSumEmpty(row: seq<int>, labels: seq<int>, chosen: seq<int>, k: nat)
    requires k <= |chosen|
    ensures MismatchSum(row, labels, chosen, 0, k) == 0
  {
    if k > 0 {
      MismatchSumEmpty(row, labels, chosen, k - 1);
    }
  }

  /** Counting mismatches texel by texel is counting them subset by subset. */
  lemma {:induction false} MismatchSplit(row: seq<int>, labels: seq<int>, chosen: seq<int>, n: nat, k: nat)
    requires n <= |row| && n <= |labels| && k <= |chosen|
    requires forall i :: 0 <= i < n ==> 0 <= row[i] < k
    ensures Mismatches(row, labels, chosen, n) == MismatchSum(row, labels, chosen, n, k)
  {
    if n > 0 {
      MismatchSplit(row, labels, chosen, n - 1, k);
      MismatchSumStep(row, labels, chosen, n, k);
    } else {
      MismatchSumEmpty(row, labels, chosen, k);
    }
  }

  lemma {:induction false} MostFrequentAtLeast(row: seq<int>, labels: seq<int>, s: int, m: nat, v: int)
    requires |row| == |labels| && 0 <= v < m
    ensures CountIn(row, labels, s, v, |row|) <= MostFrequent(row, labels, s, m)
  {
    if v < m - 1 {
      MostFrequentAtLeast(row, labels, s, m - 1, v);
    }
  }

  lemma {:induction false} MostFrequentAtMost(row: seq<int>, labels: seq<int>, s: int, m: nat, bound: int)
    requires |row| == |labels| && 0 <= bound
    requires forall c :: 0 <= c < m ==> CountIn(row, labels, s, c, |row|) <= bound
    ensures MostFrequent(row, labels, s, m) <= bound
  {
    if m > 0 {
      MostFrequentAtMost(row, labels, s, m - 1, bound);
    }
  }

  /** A label no other label below m outnumbers in subset s is the most frequent one. */
  lemma MostFrequentIs(row: seq<int>, labels: seq<int>, s: int, m: nat, v: int)
    requires |row| == |labels| && 0 <= v < m
    requires forall c {:trigger CountIn(row, labels, s, c, |row|)} :: 0 <= c < m ==>
      CountIn(row, labels, s, c, |row|) <= CountIn(row, labels, s, v, |row|)
    ensures MostFrequent(row, labels, s, m) == CountIn(row, labels, s, v, |row|)
  {
    MostFrequentAtLeast(row, labels, s, m, v);
    MostFrequentAtMost(row, labels, s, m, CountIn(row, labels, s, v, |row|));
  }

  /**
   * When each subset's chosen label is one of its most frequent labels, the
   * texels that miss their subset's chosen label number SubsetErrors.
   */
  lemma {:induction false} ErrorFromChosen(row: seq<int>, labels: seq<int>, chosen: seq<int>, m: nat, k: nat)
    requires |row| == |labels| && k <= |chosen|
    requires forall s :: 0 <= s < k ==> 0 <= chosen[s] < m
    requires forall s, c {:trigger CountIn(row, labels, s, c, |row|)} :: 0 <= s < k && 0 <= c < m ==>
      CountIn(row, labels, s, c, |row|) <= CountIn(row, labels, s, chosen[s], |row|)
    ensures SubsetErrors(row, labels, m, k) == MismatchSum(row, labels, chosen, |row|, k)
  {
    if k > 0 {
      ErrorFromChosen(row, labels, chosen, m, k - 1);
      MostFrequentIs(row, labels, k - 1, m, chosen[k - 1]);
    }
  }

  lemma {:induction false} CountAtMostSize(row: seq<int>, labels: seq<int>, s: int, c: int, n: nat)
    requires n <= |row| && n <= |labels|
    ensures CountIn(row, labels, s, c, n) <= SubsetSize(row, s, n)
  {
    if n > 0 {
      CountAtMostSize(row, labels, s, c, n - 1);
    }
  }

  /** No subset has more texels with one label than texels, so the error is never negative. */
  lemma {:induction false} SubsetErrorsNonNegative(row: seq<int>, labels: seq<int>, m: nat, k: nat)
    requires |row| == |labels|
    ensures SubsetErrors(row, labels, m, k) >= 0
  {
    if k > 0 {
      SubsetErrorsNonNegative(row, labels, m, k - 1);
      var s := k - 1;
      forall c | 0 <= c < m
        ensures CountIn(row, labels, s, c, |row|) <= SubsetSize(row, s, |row|)
      {
        CountAtMostSize(row, labels, s, c, |row|);
      }
      MostFrequentAtMost(row, labels, s, m, SubsetSize(row, s, |row|));
    }
  }

  // ---------------------------------------------------------------------
  // The error of one partition.

  /**
   * CalculatePartitionError: one pass counts each subset's labels and keeps
   * the first label to reach each subset's highest count, a second pass
   * counts the texels whose label is not their subset's kept label. The
   * two- and three-subset versions differ only in their table.
   */
  method CalculatePartitionError(reducedIndicesBlock: ClusterIndices4X4, numDistinctClusters: int,
                                 numSubsets: int, partitionIndex: int) returns (error: int)
    requires reducedIndicesBlock.Valid() && (numSubsets == 2 || numSubsets == 3) && 0 <= partitionIndex < 64
    requires Labelled(reducedIndicesBlock.indices[..], numDistinctClusters)
    ensures error == PartitionError(numSubsets, partitionIndex, reducedIndicesBlock.indices[..], numDistinctClusters)
    ensures 0 <= error <= MaxError
  {
    var labels := reducedIndicesBlock.indices[..];
    var row := Row(numSubsets, partitionIndex);
    var m := numDistinctClusters;
    var subsets := new int[numSubsets, m]((s, c) => 0);
    var maxIdx := new int[numSubsets](s => 0);
    for i := 0 to 16
      invariant forall s, c :: 0 <= s < numSubsets && 0 <= c < m ==> subsets[s, c] == CountIn(row, labels, s, c, i)
      invariant forall s :: 0 <= s < numSubsets ==> 0 <= maxIdx[s] < m
      invariant forall s, c {:trigger CountIn(row, labels, s, c, i)} :: 0 <= s < numSubsets && 0 <= c < m ==>
        CountIn(row, labels, s, c, i) <= CountIn(row, labels, s, maxIdx[s], i)
    {
      var s := row[i];
      var r := labels[i];
      subsets[s, r] := subsets[s, r] + 1;
      var count := subsets[s, r];
      if count > subsets[s, maxIdx[s]] {
        maxIdx[s] := r;
      }
    }
    ghost var chosen := maxIdx[..];
    error := 0;
    for i := 0 to 16
      invariant error == Mismatches(row, labels, chosen, i) && error <= i
    {
      if labels[i] != maxIdx[row[i]] {
        error := error + 1;
      }
    }
    MismatchSplit(row, labels, chosen, 16, numSubsets);
    ErrorFromChosen(row, labels, chosen, m, numSubsets);
  }

  // ---------------------------------------------------------------------
  // Choosing the best partition.

  /**
   * SelectBest2SubsetPartition and SelectBest3SubsetPartition: the loop
   * over the 64 partitions keeps the first least error and stops at the
   * first partition without error.
   */
  method SelectBestPartition(reducedIndicesBlock: ClusterIndices4X4, numDistinctClusters: int, numSubsets: int)
    returns (bestPartition: int, bestError: int)
    requires reducedIndicesBlock.Valid() && (numSubsets == 2 || numSubsets == 3)
    requires Labelled(reducedIndicesBlock.indices[..], numDistinctClusters)
    ensures 0 <= bestPartition < 64 && 0 <= bestError <= MaxError
    ensures bestError == PartitionError(numSubsets, bestPartition, reducedIndicesBlock.indices[..], numDistinctClusters)
    ensures forall p :: 0 <= p < 64 ==>
      bestError <= PartitionError(numSubsets, p, reducedIndicesBlock.indices[..], numDistinctClusters)
    ensures forall p :: 0 <= p < bestPartition ==>
      bestError < PartitionError(numSubsets, p, reducedIndicesBlock.indices[..], numDistinctClusters)
  {
    ghost var labels := reducedIndicesBlock.indices[..];
    var first := true;
    bestError := 999;
    bestPartition := 0;
    for i := 0 to 64
      invariant first <==> i == 0
      invariant !first ==> 0 <= bestPartition < i && 0 <= bestError <= MaxError
      invariant !first ==> bestError == PartitionError(numSubsets, bestPartition, labels, numDistinctClusters)
      invariant forall p :: 0 <= p < i ==> bestError <= PartitionError(numSubsets, p, labels, numDistinctClusters)
      invariant forall p :: 0 <= p < bestPartition ==> bestError < PartitionError(numSubsets, p, labels, numDistinctClusters)
    {
      var error := CalculatePartitionError(reducedIndicesBlock, numDistinctClusters, numSubsets, i);
      if first {
        bestError := error;
        bestPartition := i;
        first := false;
      } else if error < bestError {
        bestError := error;
        bestPartition := i;
      }
      if bestError == 0 {
        forall p | 0 <= p < 64
          ensures 0 <= PartitionError(numSubsets, p, labels, numDistinctClusters)
        {
          SubsetErrorsNonNegative(Row(numSubsets, p), labels, numDistinctClusters, numSubsets);
        }
        break;
      }
    }
  }

  // ---------------------------------------------------------------------
  // Ranking the partitions.

  /** The positions below n whose key is e, in increasing order. */
  function Bucket(keys: seq<int>, e: int, n: nat): seq<int>
    requires n <= |keys|
  {
    if n == 0 then [] else Bucket(keys, e, n - 1) + (if keys[n - 1] == e then [n - 1] else [])
  }

  /** The positions with keys e .. MaxError: smaller keys first, equal keys in position order. */
  function RankFrom(keys: seq<int>, e: nat): seq<int>
    requires e <= MaxError + 1
    decreases MaxError + 1 - e
  {
    if e == MaxError + 1 then [] else Bucket(keys, e, |keys|) + RankFrom(keys, e + 1)
  }

  /**
   * The positions of keys in 0 .. MaxError ordered by key, equal keys kept in
   * position order: a stable sort of 0 .. |keys| - 1 by key, which is what
   * Enumerable.OrderBy computes.
   */
  function Ranked(keys: seq<int>): seq<int>
  {
    RankFrom(keys, 0)
  }

  /** 0 .. n - 1. */
  function Range(n: nat): (r: seq<int>)
    ensures |r| == n
  {
    seq(n, i => i)
  }

  lemma {:induction false} BucketHas(keys: seq<int>, e: int, n: nat, x: int)
    requires 0 <= x < n <= |keys| && keys[x] == e
    ensures x in Bucket(keys, e, n)
  {
    if x < n - 1 {
      BucketHas(keys, e, n - 1, x);
    }
  }

  lemma {:induction false} BucketSorted(keys: seq<int>, e: int, n: nat)
    requires n <= |keys|
    ensures forall i :: 0 <= i < |Bucket(keys, e, n)| ==>
      0 <= Bucket(keys, e, n)[i] < n && keys[Bucket(keys, e, n)[i]] == e
    ensures forall i, j :: 0 <= i < j < |Bucket(keys, e, n)| ==> Bucket(keys, e, n)[i] < Bucket(keys, e, n)[j]
  {
    if n > 0 {
      BucketSorted(keys, e, n - 1);
    }
  }

  /** Keys a stable ranking orders: a smaller key first, or an equal key at a smaller position. */
  predicate RankedBefore(keys: seq<int>, x: int, y: int)
    requires 0 <= x < |keys| && 0 <= y < |keys|
  {
    keys[x] < keys[y] || (keys[x] == keys[y] && x < y)
  }

  lemma {:induction false} RankFromHas(keys: seq<int>, e: nat, x: int)
    requires e <= MaxError + 1
    requires 0 <= x < |keys| && e <= keys[x] <= MaxError
    ensures x in RankFrom(keys, e)
    decreases MaxError + 1 - e
  {
    if keys[x] == e {
      BucketHas(keys, e, |keys|, x);
    } else {
      RankFromHas(keys, e + 1, x);
    }
  }

  lemma {:induction false} RankFromSorted(keys: seq<int>, e: nat)
    requires e <= MaxError + 1
    ensures forall i :: 0 <= i < |RankFrom(keys, e)| ==> 0 <= RankFrom(keys, e)[i] < |keys| && e <= keys[RankFrom(keys, e)[i]]
    ensures forall i, j :: 0 <= i < j < |RankFrom(keys, e)| ==> RankedBefore(keys, RankFrom(keys, e)[i], RankFrom(keys, e)[j])
    decreases MaxError + 1 - e
  {
    if e <= MaxError {
      RankFromSorted(keys, e + 1);
      BucketSorted(keys, e, |keys|);
      var b, rest := Bucket(keys, e, |keys|), RankFrom(keys, e + 1);
      assert RankFrom(keys, e) == b + rest;
      forall i | 0 <= i < |b + rest|
        ensures 0 <= (b + rest)[i] < |keys| && e <= keys[(b + rest)[i]]
      {
        if i >= |b| {
          assert (b + rest)[i] == rest[i - |b|];
        }
      }
      forall i, j | 0 <= i < j < |b + rest|
        ensures RankedBefore(keys, (b + rest)[i], (b + rest)[j])
      {
        if j < |b| {
        } else if i < |b| {
          assert (b + rest)[j] == rest[j - |b|];
        } else {
          assert (b + rest)[i] == rest[i - |b|] && (b + rest)[j] == rest[j - |b|];
        }
      }
    }
  }

  /** A sequence of distinct numbers below n that holds each of them has length n. */
  lemma PermutationLength(r: seq<int>, n: nat)
    requires Distinct(r) && forall i :: 0 <= i < |r| ==> 0 <= r[i] < n
    requires forall x :: 0 <= x < n ==> x in r
    ensures |r| == n
  {
    DistinctCount(r);
    DistinctCount(Range(n));
    forall y
      ensures y in Values(r) <==> y in Values(Range(n))
    {
      if y in Values(Range(n)) {
        var i :| 0 <= i < n && Range(n)[i] == y;
      }
      if y in Values(r) {
        assert Range(n)[y] == y;
      }
    }
    assert Values(r) == Values(Range(n));
  }

  /** Ranking keys in 0 .. MaxError lists every position exactly once. */
  lemma RankedPermutation(keys: seq<int>)
    requires forall p :: 0 <= p < |keys| ==> 0 <= keys[p] <= MaxError
    ensures forall x :: 0 <= x < |keys| ==> x in Ranked(keys)
    ensures forall i :: 0 <= i < |Ranked(keys)| ==> 0 <= Ranked(keys)[i] < |keys|
    ensures Distinct(Ranked(keys)) && |Ranked(keys)| == |keys|
  {
    var r := Ranked(keys);
    RankFromSorted(keys, 0);
    forall x | 0 <= x < |keys|
      ensures x in r
    {
      RankFromHas(keys, 0, x);
    }
    assert Distinct(r) by {
      forall i, j | 0 <= i < j < |r|
        ensures r[i] != r[j]
      {
        assert RankedBefore(keys, r[i], r[j]);
      }
    }
    PermutationLength(r, |keys|);
  }

  /** Ranking keys in 0 .. MaxError orders them by key, and equal keys by position. */
  lemma RankedOrder(keys: seq<int>)
    requires forall p :: 0 <= p < |keys| ==> 0 <= keys[p] <= MaxError
    ensures forall i :: 0 <= i < |Ranked(keys)| ==> 0 <= Ranked(keys)[i] < |keys|
    ensures forall i, j :: 0 <= i < j < |Ranked(keys)| ==> RankedBefore(keys, Ranked(keys)[i], Ranked(keys)[j])
  {
    RankFromSorted(keys, 0);
  }

  /** The errors of the 64 partitions. */
  function PartitionErrors(numSubsets: int, labels: seq<int>, numClusters: nat): (r: seq<int>)
    requires numSubsets == 2 || numSubsets == 3
    requires |labels| == 16
    ensures |r| == 64
  {
    seq(64, p requires 0 <= p < 64 => PartitionError(numSubsets, p, labels, numClusters))
  }

  /**
   * The keys Enumerable.OrderBy computes before it sorts: the error of each
   * element of 0 .. 63, once each.
   */
  method ErrorKeys(reducedIndicesBlock: ClusterIndices4X4, numDistinctClusters: int, numSubsets: int,
                   items: array<int>) returns (keys: seq<int>)
    requires reducedIndicesBlock.Valid() && (numSubsets == 2 || numSubsets == 3)
    requires Labelled(reducedIndicesBlock.indices[..], numDistinctClusters)
    requires items[..] == Range(64)
    ensures keys == PartitionErrors(numSubsets, reducedIndicesBlock.indices[..], numDistinctClusters)
    ensures forall p :: 0 <= p < |keys| ==> 0 <= keys[p] <= MaxError
  {
    ghost var labels := reducedIndicesBlock.indices[..];
    keys := [];
    for p := 0 to 64
      invariant |keys| == p
      invariant forall q :: 0 <= q < p ==>
        keys[q] == PartitionError(numSubsets, q, labels, numDistinctClusters) && 0 <= keys[q] <= MaxError
    {
      assert items[p] == Range(64)[p];
      var error := CalculatePartitionError(reducedIndicesBlock, numDistinctClusters, numSubsets, items[p]);
      keys := keys + [error];
    }
  }

  /**
   * Rank2SubsetPartitions and Rank3SubsetPartitions: 0 .. 63 ordered by
   * partition error by Enumerable.OrderBy, which keeps partitions of equal
   * error in index order.
   */
  method RankPartitions(reducedIndicesBlock: ClusterIndices4X4, numDistinctClusters: int, numSubsets: int)
    returns (output: array<int>)
    requires reducedIndicesBlock.Valid() && (numSubsets == 2 || numSubsets == 3)
    requires Labelled(reducedIndicesBlock.indices[..], numDistinctClusters)
    ensures fresh(output)
    ensures output[..] == Ranked(PartitionErrors(numSubsets, reducedIndicesBlock.indices[..], numDistinctClusters))
    ensures Distinct(output[..]) && forall p :: 0 <= p < 64 ==> p in output[..]
  {
    output := new int[64](i => i);
    assert output[..] == Range(64);
    var errors := ErrorKeys(reducedIndicesBlock, numDistinctClusters, numSubsets, output);
    var ranked := Ranked(errors);
    RankedPermutation(errors);
    output := new int[64](i requires 0 <= i < 64 => ranked[i]);
    assert output[..] == ranked;
  }
}
