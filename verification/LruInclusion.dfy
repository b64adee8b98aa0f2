/**
  Inclusion: on the same operations, without byte bound or expiry, a layer with a larger
  entry bound holds everything a smaller one holds, so growing the cache never turns a
  hit into a miss.
 */
module LruInclusion {
  import opened Prelude
  import opened RecencyList

  // a arises from b by leaving out entries.
  ghost predicate Within(a: seq<Entry>, b: seq<Entry>)
    decreases |b|
  {
    if a == [] then true
    else if b == [] then false
    else (a[0] == b[0] && Within(a[1..], b[1..])) || Within(a, b[1..])
  }

  lemma {:induction false} WithinMember(a: seq<Entry>, b: seq<Entry>, e: Entry)
    requires Within(a, b) && e in a
    ensures e in b
    decreases |b|
  {
    if a[0] == b[0] && Within(a[1..], b[1..]) {
      if e != a[0] { WithinMember(a[1..], b[1..], e); }
    } else {
      WithinMember(a, b[1..], e);
    }
  }

  lemma WithinCons(a: seq<Entry>, b: seq<Entry>, e: Entry)
    requires Within(a, b)
    ensures Within([e] + a, [e] + b) && Within(a, [e] + b)
  {
    assert ([e] + a)[1..] == a && ([e] + b)[1..] == b;
  }

  lemma {:induction false} WithinDrop(a: seq<Entry>, b: seq<Entry>, key: string)
    requires Within(a, b)
    ensures Within(Drop(a, key), Drop(b, key))
    decreases |b|
  {
    if a != [] {
      if a[0] == b[0] && Within(a[1..], b[1..]) {
        WithinDrop(a[1..], b[1..], key);
        WithinCons(Drop(a[1..], key), Drop(b[1..], key), a[0]);
      } else {
        WithinDrop(a, b[1..], key);
        WithinCons(Drop(a, key), Drop(b[1..], key), b[0]);
      }
    }
  }

  // Both lose their oldest entry.
  lemma {:induction false} WithinFronts(a: seq<Entry>, b: seq<Entry>)
    requires Within(a, b) && a != []
    ensures b != [] && Within(a[..|a| - 1], b[..|b| - 1])
    decreases |b|
  {
    if |a| > 1 {
      if a[0] == b[0] && Within(a[1..], b[1..]) {
        WithinFronts(a[1..], b[1..]);
        assert a[..|a| - 1][1..] == a[1..][..|a| - 2] && b[..|b| - 1][1..] == b[1..][..|b| - 2];
      } else {
        WithinFronts(a, b[1..]);
        assert b[..|b| - 1][1..] == b[1..][..|b| - 2];
      }
    }
  }

  // The smaller one alone loses its oldest entry.
  lemma {:induction false} WithinFront(a: seq<Entry>, b: seq<Entry>)
    requires Within(a, b) && a != []
    ensures Within(a[..|a| - 1], b)
    decreases |b|
  {
    if |a| > 1 {
      if a[0] == b[0] && Within(a[1..], b[1..]) {
        WithinFront(a[1..], b[1..]);
        assert a[..|a| - 1][1..] == a[1..][..|a| - 2];
      } else {
        WithinFront(a, b[1..]);
      }
    }
  }

  // A layer without byte bound and expiry.
  ghost predicate CountOnly(o: Options) { o.maxBytes <= 0 && o.ttl <= 0 }

  // Two layers that saw the same operations.
  ghost predicate Nested(small: Layer, big: Layer) {
    && 0 < small.maxEntries <= big.maxEntries
    && Distinct(small.list) && Distinct(big.list)
    && |small.list| <= small.maxEntries && |big.list| <= big.maxEntries
    && Within(small.list, big.list)
    && |big.list| - |small.list| <= big.maxEntries - small.maxEntries
    && (forall e | e in big.list :: e.expiresAt.None?)
  }

  lemma SameLookup(small: seq<Entry>, big: seq<Entry>, key: string)
    requires Within(small, big) && Distinct(big) && Holds(small, key)
    ensures Lookup(small, key) == Lookup(big, key)
  {
    var e := Lookup(small, key).value;
    WithinMember(small, big, e);
    var i :| 0 <= i < |big| && big[i] == e;
    DropAt(big, key, i);
  }

  lemma DropKeepsNesting(small: Layer, big: Layer, key: string)
    requires Nested(small, big)
    ensures Nested(small.(list := Drop(small.list, key)), big.(list := Drop(big.list, key)))
  {
    WithinDrop(small.list, big.list, key);
    DropSize(small.list, key);
    DropSize(big.list, key);
    DropMembers(big.list, key);
    if Holds(small.list, key) { SameLookup(small.list, big.list, key); }
  }

  // A hit in the larger layer, with or without one in the smaller.
  lemma FrontKeepsNesting(small: Layer, big: Layer, e: Entry)
    requires Nested(small, big) && Lookup(big.list, e.key) == Some(e)
    ensures Nested(small.(list := if Holds(small.list, e.key) then [e] + Drop(small.list, e.key) else small.list),
                   big.(list := [e] + Drop(big.list, e.key)))
  {
    DropKeepsNesting(small, big, e.key);
    DropSize(small.list, e.key);
    DropSize(big.list, e.key);
    WithinCons(Drop(small.list, e.key), Drop(big.list, e.key), e);
    FrontKeepsDistinct(big.list, e);
    FrontKeepsDistinct(small.list, e);
  }

  lemma GetKeepsNesting(o: Options, small: Layer, big: Layer, key: string, gen: nat, now: int)
    requires CountOnly(o) && Nested(small, big)
    ensures Nested(Apply(o, small, Get(key, gen, now)).0, Apply(o, big, Get(key, gen, now)).0)
    ensures Apply(o, small, Get(key, gen, now)).1.Some? ==>
      Apply(o, big, Get(key, gen, now)).1 == Apply(o, small, Get(key, gen, now)).1
  {
    if Holds(small.list, key) { SameLookup(small.list, big.list, key); }
    var e := Lookup(big.list, key);
    if e.Some? {
      if Stale(e.value, gen, now) {
        DropKeepsNesting(small, big, key);
        DropSize(small.list, key);
      } else {
        FrontKeepsNesting(small, big, e.value);
      }
    }
  }

  lemma KeptByCount(maxEntries: nat, maxBytes: int, list: seq<Entry>)
    requires maxBytes <= 0 && 0 < maxEntries && |list| <= maxEntries + 1
    ensures Kept(maxEntries, maxBytes, list) == if |list| > maxEntries then maxEntries else |list|
  {
    if |list| > maxEntries { assert !Overflows(maxEntries, maxBytes, list[..|list| - 1]); }
  }

  lemma TrimKeepsNesting(o: Options, small: Layer, big: Layer)
    requires CountOnly(o) && 0 < small.maxEntries <= big.maxEntries
    requires Distinct(small.list) && Distinct(big.list) && Within(small.list, big.list)
    requires |small.list| <= small.maxEntries + 1 && |big.list| <= big.maxEntries + 1
    requires |big.list| - |small.list| <= big.maxEntries - small.maxEntries
    requires forall e | e in big.list :: e.expiresAt.None?
    ensures Nested(Trimmed(o, small), Trimmed(o, big))
  {
    KeptByCount(small.maxEntries, o.maxBytes, small.list);
    KeptByCount(big.maxEntries, o.maxBytes, big.list);
    assert small.list[..|small.list|] == small.list && big.list[..|big.list|] == big.list;
    if |big.list| > big.maxEntries {
      WithinFronts(small.list, big.list);
    } else if |small.list| > small.maxEntries {
      WithinFront(small.list, big.list);
    }
  }

  lemma PutKeepsNesting(o: Options, small: Layer, big: Layer, op: Op)
    requires CountOnly(o) && Nested(small, big) && op.Put?
    ensures Nested(Apply(o, small, op).0, Apply(o, big, op).0)
  {
    DropKeepsNesting(small, big, op.key);
    DropSize(small.list, op.key);
    DropSize(big.list, op.key);
    if Holds(small.list, op.key) { SameLookup(small.list, big.list, op.key); }
    var e := NewEntry(o, big.list, op);
    assert NewEntry(o, small.list, op) == e;
    WithinCons(Drop(small.list, op.key), Drop(big.list, op.key), e);
    FrontKeepsDistinct(small.list, e);
    FrontKeepsDistinct(big.list, e);
    TrimKeepsNesting(o, small.(list := [e] + Drop(small.list, op.key)), big.(list := [e] + Drop(big.list, op.key)));
  }

  lemma StepKeepsNesting(o: Options, small: Layer, big: Layer, op: Op)
    requires CountOnly(o) && Nested(small, big) && !op.SetMaxEntries?
    ensures Nested(Apply(o, small, op).0, Apply(o, big, op).0)
  {
    match op
    case Get(key, gen, now) => GetKeepsNesting(o, small, big, key, gen, now);
    case Put(_, _, _, _) => PutKeepsNesting(o, small, big, op);
    case Invalidate(key) =>
      DropKeepsNesting(small, big, key);
      DropSize(small.list, key);
      DropSize(big.list, key);
    case Clear =>
  }

  lemma {:induction false} RunsKeepNesting(o: Options, k: nat, K: nat, ops: seq<Op>)
    requires CountOnly(o) && 0 < k <= K && forall i | 0 <= i < |ops| :: !ops[i].SetMaxEntries?
    ensures Nested(Run(o, Empty(k), ops), Run(o, Empty(K), ops))
    decreases |ops|
  {
    if ops != [] {
      var before, op := ops[..|ops| - 1], ops[|ops| - 1];
      RunsKeepNesting(o, k, K, before);
      StepKeepsNesting(o, Run(o, Empty(k), before), Run(o, Empty(K), before), op);
    }
  }

  /** Whatever the smaller layer answers, the larger one answers too. */
  lemma LargerLayerNeverMisses(o: Options, k: nat, K: nat, ops: seq<Op>, key: string, gen: nat, now: int)
    requires CountOnly(o) && 0 < k <= K && forall i | 0 <= i < |ops| :: !ops[i].SetMaxEntries?
    ensures forall e | e in Run(o, Empty(k), ops).list :: e in Run(o, Empty(K), ops).list
    ensures var hit := Apply(o, Run(o, Empty(k), ops), Get(key, gen, now)).1;
      hit.Some? ==> Apply(o, Run(o, Empty(K), ops), Get(key, gen, now)).1 == hit
  {
    RunsKeepNesting(o, k, K, ops);
    var small, big := Run(o, Empty(k), ops), Run(o, Empty(K), ops);
    GetKeepsNesting(o, small, big, key, gen, now);
    forall e | e in small.list ensures e in big.list { WithinMember(small.list, big.list, e); }
  }
}
