/**
  Chunk grouping of engine/chunks/chunks.go: consecutive batches under a byte target, and
  no other way of cutting the same records needs fewer.
 */
module Grouping {

  const MIN_TARGET := 65_536
  const MAX_TARGET := 67_108_864
  const MAX_RECORD := 8_388_608

  // A negative size counts as zero.
  function Size(sizes: seq<int>, i: int): nat {
    if 0 <= i < |sizes| && sizes[i] > 0 then sizes[i] else 0
  }

  function Bytes(sizes: seq<int>, batch: seq<int>): nat {
    if batch == [] then 0
    else Bytes(sizes, batch[..|batch| - 1]) + Size(sizes, batch[|batch| - 1])
  }

  predicate AllRegular(sizes: seq<int>, batch: seq<int>) {
    forall i | i in batch :: Size(sizes, i) <= MAX_RECORD
  }

  // A lawful batch: one record of any size, or records of regular size within the target.
  predicate Fits(sizes: seq<int>, target: nat, batch: seq<int>) {
    batch != [] && (|batch| > 1 ==> Bytes(sizes, batch) <= target && AllRegular(sizes, batch))
  }

  ghost function Flatten(batches: seq<seq<int>>): seq<int> {
    if batches == [] then [] else Flatten(batches[..|batches| - 1]) + batches[|batches| - 1]
  }

  // The sequence a, a + 1, a + 2, ...
  ghost predicate CountsFrom(s: seq<int>, a: int) {
    forall i | 0 <= i < |s| :: s[i] == a + i
  }

  // All of 0, 1, ..., n - 1 in order.
  ghost predicate Enumerates(s: seq<int>, n: nat) {
    |s| == n && CountsFrom(s, 0)
  }

  // A lawful cut of n records into consecutive batches.
  ghost predicate Cut(sizes: seq<int>, target: nat, batches: seq<seq<int>>) {
    && Enumerates(Flatten(batches), |sizes|)
    && forall k | 0 <= k < |batches| :: Fits(sizes, target, batches[k])
  }

  // Batch k could not have taken the first record of the next one.
  ghost predicate Full(sizes: seq<int>, target: nat, batches: seq<seq<int>>, k: int) {
    0 <= k < |batches| - 1 && batches[k + 1] != [] ==>
      !Fits(sizes, target, batches[k] + [batches[k + 1][0]])
  }

  ghost predicate Greedy(sizes: seq<int>, target: nat, batches: seq<seq<int>>) {
    forall k :: Full(sizes, target, batches, k)
  }

  lemma {:induction false} BytesOfSlice(sizes: seq<int>, batch: seq<int>, a: nat, b: nat)
    requires a <= b <= |batch|
    ensures Bytes(sizes, batch[a..b]) <= Bytes(sizes, batch)
    decreases |batch|
  {
    if batch != [] {
      var front := batch[..|batch| - 1];
      if b < |batch| {
        BytesOfSlice(sizes, front, a, b);
        assert front[a..b] == batch[a..b];
      } else if a < b {
        BytesOfSlice(sizes, front, a, b - 1);
        SliceOfSlice(batch, a, b, 0, b - a - 1);
        SliceOfSlice(batch, 0, |batch| - 1, a, b - 1);
        assert batch[a..b][..b - a - 1] == front[a..b - 1];
      }
    }
  }

  lemma SliceFits(sizes: seq<int>, target: nat, batch: seq<int>, a: nat, b: nat)
    requires Fits(sizes, target, batch) && a < b <= |batch|
    ensures Fits(sizes, target, batch[a..b])
  {
    BytesOfSlice(sizes, batch, a, b);
  }

  // Where batch k ends in the flattened sequence.
  ghost function End(batches: seq<seq<int>>, k: nat): nat
    requires k <= |batches|
  {
    |Flatten(batches[..k])|
  }

  lemma {:induction false} FlattenAppend(a: seq<seq<int>>, b: seq<seq<int>>)
    ensures Flatten(a + b) == Flatten(a) + Flatten(b)
    decreases |b|
  {
    if b == [] {
      assert a + b == a;
    } else {
      FlattenAppend(a, b[..|b| - 1]);
      assert (a + b)[..|a + b| - 1] == a + b[..|b| - 1];
    }
  }

  // Batch k is the slice of the flattened sequence between its ends.
  lemma BatchIsSlice(batches: seq<seq<int>>, k: nat)
    requires k < |batches|
    ensures End(batches, k) + |batches[k]| == End(batches, k + 1) <= |Flatten(batches)|
    ensures batches[k] == Flatten(batches)[End(batches, k)..End(batches, k + 1)]
  {
    assert batches[..k + 1][..k] == batches[..k];
    FlattenAppend(batches[..k + 1], batches[k + 1..]);
    assert batches == batches[..k + 1] + batches[k + 1..];
  }

  lemma SliceOfSlice(s: seq<int>, c: nat, d: nat, a: nat, b: nat)
    requires c <= d <= |s| && a <= b <= d - c
    ensures s[c..d][a..b] == s[c + a..c + b]
  {
    forall i | 0 <= i < b - a ensures s[c..d][a..b][i] == s[c + a..c + b][i] {
    }
  }

  // If another cut's batch covers the greedy batch from the left, it ends no later.
  lemma CannotOvertake(sizes: seq<int>, target: nat, all: seq<int>, a: nat, b: nat, c: nat, d: nat)
    requires c <= a < b < d <= |all| && Fits(sizes, target, all[c..d])
    ensures Fits(sizes, target, all[a..b + 1])
  {
    SliceOfSlice(all, c, d, a - c, b + 1 - c);
    SliceFits(sizes, target, all[c..d], a - c, b + 1 - c);
  }

  // Record b starts a greedy batch because batch [a, b) could not take it.
  lemma GreedyAt(sizes: seq<int>, target: nat, greedy: seq<seq<int>>, k: nat)
    requires Greedy(sizes, target, greedy) && k + 1 < |greedy| && greedy[k + 1] != []
    ensures var a, b := End(greedy, k), End(greedy, k + 1);
      a <= b < |Flatten(greedy)| && !Fits(sizes, target, Flatten(greedy)[a..b + 1])
  {
    assert Full(sizes, target, greedy, k);
    BatchIsSlice(greedy, k);
    BatchIsSlice(greedy, k + 1);
    var a, b := End(greedy, k), End(greedy, k + 1);
    var all := Flatten(greedy);
    assert greedy[k] + [greedy[k + 1][0]] == all[a..b + 1];
  }

  lemma NextEnd(sizes: seq<int>, target: nat, greedy: seq<seq<int>>, other: seq<seq<int>>, k: nat)
    requires Cut(sizes, target, greedy) && Greedy(sizes, target, greedy) && Cut(sizes, target, other)
    requires k < |greedy| && k < |other| && End(other, k) <= End(greedy, k)
    ensures End(other, k + 1) <= End(greedy, k + 1)
  {
    BatchIsSlice(other, k);
    SameRecords(sizes, target, greedy, other);
    if k + 1 == |greedy| {
      assert greedy[..k + 1] == greedy;
    } else if End(greedy, k + 1) < End(other, k + 1) {
      BatchIsSlice(greedy, k);
      GreedyAt(sizes, target, greedy, k);
      assert Fits(sizes, target, other[k]);
      CannotOvertake(sizes, target, Flatten(greedy), End(greedy, k), End(greedy, k + 1),
                     End(other, k), End(other, k + 1));
    }
  }

  // Two cuts of the same records flatten to the same sequence.
  lemma SameRecords(sizes: seq<int>, target: nat, a: seq<seq<int>>, b: seq<seq<int>>)
    requires Cut(sizes, target, a) && Cut(sizes, target, b)
    ensures Flatten(a) == Flatten(b)
  {
  }

  // Batch by batch, the greedy cut is never behind another cut.
  lemma {:induction false} StaysAhead(sizes: seq<int>, target: nat, greedy: seq<seq<int>>,
                                      other: seq<seq<int>>, k: nat)
    requires Cut(sizes, target, greedy) && Greedy(sizes, target, greedy) && Cut(sizes, target, other)
    requires k <= |greedy| && k <= |other|
    ensures End(other, k) <= End(greedy, k)
  {
    if k > 0 {
      StaysAhead(sizes, target, greedy, other, k - 1);
      NextEnd(sizes, target, greedy, other, k - 1);
    }
  }

  /** No lawful consecutive cut uses fewer batches than a greedy one. */
  lemma GreedyIsOptimal(sizes: seq<int>, target: nat, greedy: seq<seq<int>>, other: seq<seq<int>>)
    requires Cut(sizes, target, greedy) && Greedy(sizes, target, greedy) && Cut(sizes, target, other)
    ensures |greedy| <= |other|
  {
    if |other| < |greedy| {
      StaysAhead(sizes, target, greedy, other, |other|);
      assert other[..|other|] == other;
      BatchIsSlice(greedy, |other|);
    }
  }

  class Chunker {
    const targetBytes: nat

    constructor (target: int)
      ensures MIN_TARGET <= targetBytes <= MAX_TARGET
      ensures MIN_TARGET <= target <= MAX_TARGET ==> targetBytes == target
      ensures target < MIN_TARGET ==> targetBytes == MIN_TARGET
      ensures target > MAX_TARGET ==> targetBytes == MAX_TARGET
    {
      targetBytes := if target < MIN_TARGET then MIN_TARGET
                     else if target > MAX_TARGET then MAX_TARGET else target;
    }

    method Group(sizes: seq<int>) returns (batches: seq<seq<int>>)
      ensures Cut(sizes, targetBytes, batches) && Greedy(sizes, targetBytes, batches)
      ensures forall other | Cut(sizes, targetBytes, other) :: |batches| <= |other|
    {
      batches := [];
      var current, currentBytes := [], 0;
      for i := 0 to |sizes|
        invariant Progress(sizes, targetBytes, batches, current, i)
        invariant currentBytes == Bytes(sizes, current)
      {
        batches, current, currentBytes := Place(sizes, i, batches, current, currentBytes);
      }
      Done(sizes, targetBytes, batches, current);
      if current != [] {
        batches := batches + [current];
      }
    }

    // The loop body: what record i does to the batches and to the open batch.
    method Place(sizes: seq<int>, i: nat, batches: seq<seq<int>>, current: seq<int>, currentBytes: nat)
      returns (batches': seq<seq<int>>, current': seq<int>, currentBytes': nat)
      requires i < |sizes| && Progress(sizes, targetBytes, batches, current, i)
      requires currentBytes == Bytes(sizes, current)
      ensures Progress(sizes, targetBytes, batches', current', i + 1) && currentBytes' == Bytes(sizes, current')
    {
      var size := if sizes[i] < 0 then 0 else sizes[i];
      if current == [] {
        MustStart(sizes, targetBytes, batches, i);
        if size > MAX_RECORD {
          PushOversized(sizes, targetBytes, batches, i);
          return batches + [[i]], [], 0;
        }
        Append(sizes, targetBytes, batches, [], i);
        return batches, [] + [i], size;
      }
      if size <= MAX_RECORD && currentBytes + size <= targetBytes {
        Append(sizes, targetBytes, batches, current, i);
        return batches, current + [i], currentBytes + size;
      }
      Flush(sizes, targetBytes, batches, current, i);
      if size > MAX_RECORD {
        PushOversized(sizes, targetBytes, batches + [current], i);
        return batches + [current] + [[i]], [], 0;
      }
      Append(sizes, targetBytes, batches + [current], [], i);
      return batches + [current], [] + [i], size;
    }
  }

  // ---- The grouping loop, step by step ----

  ghost predicate Closed(sizes: seq<int>, target: nat, batches: seq<seq<int>>, i: nat) {
    && Enumerates(Flatten(batches), i)
    && (forall k | 0 <= k < |batches| :: Fits(sizes, target, batches[k]))
    && Greedy(sizes, target, batches)
  }

  // Record i cannot join the last batch.
  ghost predicate Fresh(sizes: seq<int>, target: nat, batches: seq<seq<int>>, i: int) {
    batches != [] ==> !Fits(sizes, target, batches[|batches| - 1] + [i])
  }

  ghost predicate Progress(sizes: seq<int>, target: nat, batches: seq<seq<int>>, current: seq<int>, i: nat) {
    && |current| <= i
    && CountsFrom(current, i - |current|)
    && Closed(sizes, target, batches, i - |current|)
    && AllRegular(sizes, current)
    && (current != [] ==> Fits(sizes, target, current) && Fresh(sizes, target, batches, current[0]))
    && (current == [] && batches != [] ==> !AllRegular(sizes, batches[|batches| - 1]))
  }

  // After an oversized record the next one starts a batch of its own.
  lemma MustStart(sizes: seq<int>, target: nat, batches: seq<seq<int>>, i: nat)
    requires Progress(sizes, target, batches, [], i)
    ensures Closed(sizes, target, batches, i) && Fresh(sizes, target, batches, i)
  {
    if batches != [] {
      var last := batches[|batches| - 1];
      var big :| big in last && Size(sizes, big) > MAX_RECORD;
      assert big in last + [i];
    }
  }

  lemma GreedyExtends(sizes: seq<int>, target: nat, batches: seq<seq<int>>, batch: seq<int>)
    requires Greedy(sizes, target, batches) && batch != [] && Fresh(sizes, target, batches, batch[0])
    ensures Greedy(sizes, target, batches + [batch])
    ensures Flatten(batches + [batch]) == Flatten(batches) + batch
  {
    var all := batches + [batch];
    assert all[..|batches|] == batches;
    forall k ensures Full(sizes, target, all, k) {
      assert Full(sizes, target, batches, k);
    }
  }

  lemma Closing(sizes: seq<int>, target: nat, batches: seq<seq<int>>, current: seq<int>, i: nat)
    requires Progress(sizes, target, batches, current, i) && current != []
    ensures Closed(sizes, target, batches + [current], i)
  {
    GreedyExtends(sizes, target, batches, current);
  }

  lemma Flush(sizes: seq<int>, target: nat, batches: seq<seq<int>>, current: seq<int>, i: nat)
    requires Progress(sizes, target, batches, current, i) && current != []
    requires Size(sizes, i) > MAX_RECORD || Bytes(sizes, current) + Size(sizes, i) > target
    ensures Closed(sizes, target, batches + [current], i) && Fresh(sizes, target, batches + [current], i)
  {
    Closing(sizes, target, batches, current, i);
    assert (current + [i])[..|current|] == current;
    assert i in current + [i];
  }

  lemma PushOversized(sizes: seq<int>, target: nat, batches: seq<seq<int>>, i: nat)
    requires Closed(sizes, target, batches, i) && Fresh(sizes, target, batches, i) && Size(sizes, i) > MAX_RECORD
    ensures Progress(sizes, target, batches + [[i]], [], i + 1)
  {
    GreedyExtends(sizes, target, batches, [i]);
    assert i in [i];
  }

  lemma Append(sizes: seq<int>, target: nat, batches: seq<seq<int>>, current: seq<int>, i: nat)
    requires if current == [] then Closed(sizes, target, batches, i) && Fresh(sizes, target, batches, i)
             else Progress(sizes, target, batches, current, i) && Bytes(sizes, current) + Size(sizes, i) <= target
    requires Size(sizes, i) <= MAX_RECORD
    ensures Progress(sizes, target, batches, current + [i], i + 1)
    ensures Bytes(sizes, current + [i]) == Bytes(sizes, current) + Size(sizes, i)
  {
    assert (current + [i])[..|current|] == current;
  }

  lemma Done(sizes: seq<int>, target: nat, batches: seq<seq<int>>, current: seq<int>)
    requires Progress(sizes, target, batches, current, |sizes|)
    ensures var result := if current == [] then batches else batches + [current];
      && Cut(sizes, target, result) && Greedy(sizes, target, result)
      && forall other | Cut(sizes, target, other) :: |result| <= |other|
  {
    var result := if current == [] then batches else batches + [current];
    if current != [] { Closing(sizes, target, batches, current, |sizes|); }
    forall other | Cut(sizes, target, other) ensures |result| <= |other| {
      GreedyIsOptimal(sizes, target, result, other);
    }
  }
}
