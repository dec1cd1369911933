/**
 * ClusterIndices4X4 (BCnEnc.Net/Encoder/Bc7/Bc7EncodingHelpers.cs): the
 * cluster label of each of a tile's sixteen texels, with the count of
 * distinct labels and the relabelling to 0, 1, 2, ... in order of first
 * appearance.
 */
module Bc7Clusters {

  /** The labels a sequence holds. */
  function Values(s: seq<int>): set<int>
  {
    set x | x in s
  }

  lemma ValuesAppend(s: seq<int>, x: int)
    ensures Values(s + [x]) == Values(s) + {x}
  {
    assert forall y :: y in s + [x] <==> y in s || y == x;
  }

  /** No label occurs twice. */
  predicate Distinct(s: seq<int>)
  {
    forall i, j :: 0 <= i < j < |s| ==> s[i] != s[j]
  }

  lemma DistinctAppend(s: seq<int>, x: int)
    requires Distinct(s) && x !in s
    ensures Distinct(s + [x]) && Values(s + [x]) == Values(s) + {x}
  {
    ValuesAppend(s, x);
  }

  /** A sequence without repetitions holds as many labels as it has entries. */
  lemma {:induction false} DistinctCount(s: seq<int>)
    requires Distinct(s)
    ensures |Values(s)| == |s|
  {
    if s != [] {
      var init := s[..|s| - 1];
      assert Distinct(init);
      DistinctCount(init);
      assert Values(s) == Values(init) + {s[|s| - 1]};
      assert s[|s| - 1] !in Values(init);
    }
  }

  /** A label outside a set of labels makes the larger set strictly bigger. */
  lemma LabelsGrow(smaller: set<int>, larger: set<int>, x: int)
    requires smaller <= larger && x in larger && x !in smaller
    ensures |smaller| < |larger|
  {
    assert larger == smaller + (larger - smaller);
    assert x in larger - smaller;
  }

  /**
   * The step of Reduce's scan at texel i: a label already among the keys
   * leaves them as they are, a new one is appended and still fits the
   * number of distinct labels.
   */
  lemma KeysGrow(input: seq<int>, i: int, keys: seq<int>)
    requires 0 <= i < |input| && Distinct(keys) && Values(keys) == Values(input[..i])
    ensures input[i] in keys ==> Values(keys) == Values(input[..i + 1])
    ensures input[i] !in keys ==> |keys| < |Values(input)| && Distinct(keys + [input[i]])
    ensures input[i] !in keys ==> Values(keys + [input[i]]) == Values(input[..i + 1])
  {
    assert input[..i + 1] == input[..i] + [input[i]];
    ValuesAppend(input[..i], input[i]);
    if input[i] !in keys {
      DistinctCount(keys);
      assert input[..i] <= input;
      LabelsGrow(Values(input[..i]), Values(input), input[i]);
      DistinctAppend(keys, input[i]);
    }
  }

  /**
   * One round of Reduce's scan: the position of texel i's label among the
   * keys seen so far, appending the label as a new key when it is new.
   */
  method AssignLabel(mapKey: array<int>, input: seq<int>, i: int, next: int, ghost keys: seq<int>)
    returns (position: int, next': int, ghost keys': seq<int>)
    requires 0 <= i < |input| && 0 <= next <= mapKey.Length && |Values(input)| == mapKey.Length
    requires mapKey[..next] == keys && Distinct(keys) && Values(keys) == Values(input[..i])
    modifies mapKey
    ensures 0 <= next' <= mapKey.Length && mapKey[..next'] == keys' && Distinct(keys')
    ensures Values(keys') == Values(input[..i + 1])
    ensures input[i] in input[..i] ==> next' == next && keys' == keys && 0 <= position < next && keys[position] == input[i]
    ensures input[i] !in input[..i] ==>
      position == next == |Values(input[..i])| && next' == next + 1 && keys' == keys + [input[i]]
  {
    var cluster := input[i];
    var j := 0;
    while j < next
      invariant 0 <= j <= next
      invariant cluster !in keys[..j]
    {
      if mapKey[j] == cluster {
        assert cluster in Values(keys);
        KeysGrow(input, i, keys);
        return j, next, keys;
      }
      j := j + 1;
    }
    assert keys[..next] == keys;
    KeysGrow(input, i, keys);
    DistinctCount(keys);
    assert cluster !in input[..i] by { assert cluster !in Values(keys); }
    mapKey[next] := cluster;
    position, next', keys' := next, next + 1, keys + [cluster];
    assert mapKey[..next'] == keys';
  }

  class ClusterIndices4X4 {
    /** The sixteen labels, texel (x, y) at x + 4 * y. */
    const indices: array<int>

    predicate Valid()
    {
      indices.Length == 16
    }

    /** new ClusterIndices4X4(): every label 0. */
    constructor()
      ensures Valid() && fresh(indices)
      ensures forall i :: 0 <= i < 16 ==> indices[i] == 0
    {
      indices := new int[16](i => 0);
    }

    /**
     * NumClusters: a scan that keeps the labels seen so far in a
     * sixteen-entry buffer and appends every label it has not seen.
     */
    method NumClusters() returns (distinct: int)
      requires Valid()
      ensures distinct == |Values(indices[..])|
      ensures 1 <= distinct <= 16
    {
      var t := indices[..];
      var clusters := new int[16];
      distinct := 0;
      for i := 0 to 16
        invariant 0 <= distinct <= i
        invariant i > 0 ==> distinct > 0
        invariant Distinct(clusters[..distinct])
        invariant Values(clusters[..distinct]) == Values(t[..i])
      {
        var cluster := t[i];
        var found := false;
        var j := 0;
        while j < distinct
          invariant 0 <= j <= distinct
          invariant !found && cluster !in clusters[..j]
        {
          if clusters[j] == cluster {
            found := true;
            break;
          }
          j := j + 1;
        }
        assert t[..i + 1] == t[..i] + [cluster];
        ValuesAppend(t[..i], cluster);
        if !found {
          DistinctAppend(clusters[..distinct], cluster);
          clusters[distinct] := cluster;
          assert clusters[..distinct + 1] == clusters[..distinct] + [cluster];
          distinct := distinct + 1;
        }
      }
      assert t[..16] == t;
      DistinctCount(clusters[..distinct]);
    }

    /**
     * Reduce: a new block whose labels are the positions of this block's
     * labels in the order they first appear, so that k different labels
     * become 0 .. k - 1 and equal labels stay equal.
     */
    method Reduce() returns (result: ClusterIndices4X4, numClusters: int)
      requires Valid()
      ensures fresh(result) && fresh(result.indices) && result.Valid()
      ensures numClusters == |Values(indices[..])| && 1 <= numClusters <= 16
      ensures forall i :: 0 <= i < 16 ==> 0 <= result.indices[i] < numClusters
      ensures result.indices[0] == 0
      ensures forall i, j :: 0 <= i < 16 && 0 <= j < 16 ==>
        (result.indices[i] == result.indices[j] <==> indices[i] == indices[j])
      ensures forall i :: 0 <= i < 16 && indices[i] !in indices[..i] ==> result.indices[i] == |Values(indices[..i])|
    {
      result := new ClusterIndices4X4();
      numClusters := NumClusters();
      var mapKey := new int[numClusters];
      var input := indices[..];
      var outIndices := result.indices;
      var next := 0;
      ghost var keys: seq<int> := [];
      ghost var outs: seq<int> := [];
      for i := 0 to 16
        invariant 0 <= next <= numClusters && |keys| == next && |outs| == i
        invariant mapKey[..next] == keys && outIndices[..i] == outs
        invariant Distinct(keys) && Values(keys) == Values(input[..i])
        invariant forall k :: 0 <= k < i ==> 0 <= outs[k] < next && keys[outs[k]] == input[k]
        invariant i == 0 ==> next == 0
        invariant i > 0 ==> outs[0] == 0
        invariant forall k :: 0 <= k < i && input[k] !in input[..k] ==> outs[k] == |Values(input[..k])|
      {
        var position;
        position, next, keys := AssignLabel(mapKey, input, i, next, keys);
        outIndices[i] := position;
        outs := outs + [position];
      }
      assert outIndices[..] == outs;
      assert forall i, j :: 0 <= i < 16 && 0 <= j < 16 && input[i] == input[j] ==> outs[i] == outs[j] by {
        forall i, j | 0 <= i < 16 && 0 <= j < 16 && input[i] == input[j]
          ensures outs[i] == outs[j]
        {
          assert keys[outs[i]] == keys[outs[j]];
        }
      }
    }
  }
}
