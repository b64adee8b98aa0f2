/**
  The cache layer of engine/cache/cache.go as it works: an ordered list and a key index
  kept in step, a running byte count, and an eviction loop. Every method is proved to do
  to its state what module RecencyList does to a plain list.
 */
module CacheLayer {
  import opened Prelude
  import opened RecencyList

  // List and index hold the same entries.
  ghost predicate InStep(order: seq<Entry>, entries: map<string, Entry>) {
    && Distinct(order)
    && (forall i | 0 <= i < |order| :: order[i].key in entries && entries[order[i].key] == order[i])
    && (forall k | k in entries :: Holds(order, k))
  }

  lemma IndexAgrees(order: seq<Entry>, entries: map<string, Entry>, key: string)
    requires InStep(order, entries)
    ensures Lookup(order, key) == if key in entries then Some(entries[key]) else None
  {
  }

  lemma DropInStep(order: seq<Entry>, entries: map<string, Entry>, key: string)
    requires InStep(order, entries)
    ensures InStep(Drop(order, key), entries - {key})
  {
    DropSize(order, key);
    DropMembers(order, key);
    forall k | k in entries - {key} ensures Holds(Drop(order, key), k) {
      var e := Lookup(order, k).value;
      assert e in Drop(order, key);
    }
  }

  lemma DropWeight(order: seq<Entry>, i: nat)
    requires Distinct(order) && i < |order|
    ensures Bytes(Drop(order, order[i].key)) == Bytes(order) - order[i].weight
  {
    DropAt(order, order[i].key, i);
    BytesWithout(order, i);
  }

  lemma FrontInStep(order: seq<Entry>, entries: map<string, Entry>, e: Entry)
    requires InStep(order, entries)
    ensures InStep([e] + Drop(order, e.key), entries[e.key := e])
  {
    var order' := [e] + Drop(order, e.key);
    FrontKeepsDistinct(order, e);
    DropMembers(order, e.key);
    forall k | k in entries[e.key := e] ensures Holds(order', k) {
      if k == e.key {
        assert order'[0].key == k;
      } else {
        var x := Lookup(order, k).value;
        assert x in order';
      }
    }
  }

  class CacheLayer {
    const opts: Options
    var maxEntries: nat
    var order: seq<Entry>            // front is the most recently used
    var entries: map<string, Entry>  // key index
    var bytes: int
    var hits: nat
    var misses: nat
    var evict: nat
    var evicted: seq<Value>          // values handed to OnEvict

    ghost predicate Valid()
      reads this
    {
      InStep(order, entries) && bytes == Bytes(order)
    }

    ghost function View(): Layer
      reads this
    {
      Layer(maxEntries, order, evicted)
    }

    constructor (opts: Options, max: int)
      ensures Valid() && View() == Empty(max) && this.opts == opts
      ensures hits == misses == evict == 0
    {
      this.opts := opts;
      maxEntries := if max < 0 then 0 else max;
      order, entries, bytes, evicted := [], map[], 0, [];
      hits, misses, evict := 0, 0, 0;
    }

    // Where the element the index points to stands in the list.
    method Position(key: string) returns (i: nat)
      requires Valid() && key in entries
      ensures i < |order| && order[i] == entries[key] && order[i].key == key
    {
      assert Holds(order, key);
      i := 0;
      while order[i].key != key
        invariant i < |order| && forall j | 0 <= j < i :: order[j].key != key
        decreases |order| - i
      {
        i := i + 1;
      }
      assert order[i] in order;
    }

    // list.Remove: the list without position i.
    method Unlink(i: nat)
      requires Distinct(order) && i < |order|
      modifies this`order
      ensures order == Drop(old(order), old(order)[i].key)
    {
      DropAt(order, order[i].key, i);
      order := order[..i] + order[i + 1..];
    }

    method RemoveElement(i: nat)
      requires Valid() && i < |order|
      modifies this`order, this`entries, this`bytes, this`evicted
      ensures Valid() && View() == Removed(opts, old(View()), old(order)[i])
    {
      var e := order[i];
      DropWeight(order, i);
      DropInStep(order, entries, e.key);
      Unlink(i);
      entries := entries - {e.key};
      bytes := bytes - e.weight;
      evicted := evicted + if opts.notifies then [e.value] else [];
    }

    method EvictOldest()
      requires Valid() && order != []
      modifies this`order, this`entries, this`bytes, this`evicted, this`evict
      ensures Valid() && evict == old(evict) + 1
      ensures View() == OldestEvicted(opts, old(View()))
    {
      LastDropped(order);
      RemoveElement(|order| - 1);
      evict := evict + 1;
    }

    method EvictOverflow()
      requires Valid()
      modifies this`order, this`entries, this`bytes, this`evicted, this`evict
      ensures Valid() && View() == Trimmed(opts, old(View()))
      ensures evict == old(evict) + |old(order)| - |order|
    {
      while (maxEntries > 0 && |order| > maxEntries) || (opts.maxBytes > 0 && bytes > opts.maxBytes && |order| > 1)
        invariant Valid()
        invariant Trimmed(opts, View()) == Trimmed(opts, old(View()))
        invariant evict == old(evict) + |old(order)| - |order|
        decreases |order|
      {
        EvictionStep(opts, View());
        EvictOldest();
      }
      NothingToTrim(opts, View());
    }

    method Get(key: string, gen: nat, now: int) returns (r: Option<Value>)
      requires Valid()
      modifies this
      ensures Valid() && (View(), r) == Apply(opts, old(View()), Op.Get(key, gen, now))
      ensures hits == old(hits) + One(r.Some?) && misses == old(misses) + One(r.None?) && evict == old(evict)
    {
      r := Fetch(key, gen, now);
      if r.Some? { hits := hits + 1; } else { misses := misses + 1; }
    }

    // Get without the statistics.
    method Fetch(key: string, gen: nat, now: int) returns (r: Option<Value>)
      requires Valid()
      modifies this`order, this`entries, this`bytes, this`evicted
      ensures Valid() && (View(), r) == Apply(opts, old(View()), Op.Get(key, gen, now))
    {
      IndexAgrees(order, entries, key);
      GetCases(opts, View(), key, gen, now);
      if key !in entries { return None; }
      var e := entries[key];
      if (e.expiresAt.Some? && now > e.expiresAt.value) || e.version != gen {
        Invalidate(key);
        return None;
      }
      ToFront(e);
      r := Some(e.value);
    }

    // MoveToFront of the element with e's key, or PushFront when there is none.
    method ToFront(e: Entry)
      requires Valid()
      modifies this`order, this`entries, this`bytes
      ensures Valid() && order == [e] + Drop(old(order), e.key)
    {
      IndexAgrees(order, entries, e.key);
      DropSize(order, e.key);
      FrontInStep(order, entries, e);
      BytesAppend([e], Drop(order, e.key));
      if e.key in entries {
        var i := Position(e.key);
        bytes := bytes - order[i].weight + e.weight;
        Unlink(i);
      } else {
        bytes := bytes + e.weight;
      }
      order := [e] + order;
      entries := entries[e.key := e];
    }

    // Makes e the newest entry and evicts what no longer fits.
    method Store(e: Entry)
      requires Valid()
      modifies this`order, this`entries, this`bytes, this`evicted, this`evict
      ensures Valid() && View() == Trimmed(opts, old(View()).(list := [e] + Drop(old(order), e.key)))
    {
      ToFront(e);
      EvictOverflow();
    }

    method Put(key: string, value: Value, gen: nat, now: int)
      requires Valid()
      modifies this
      ensures Valid() && View() == Apply(opts, old(View()), Op.Put(key, value, gen, now)).0
      ensures hits == old(hits) && misses == old(misses)
    {
      if maxEntries == 0 { return; }
      var weight := opts.weigh(value);
      IndexAgrees(order, entries, key);
      var expires := if opts.ttl > 0 then Some(now + opts.ttl)
                     else if key in entries then entries[key].expiresAt else None;
      var e := Entry(key, value, weight, gen, expires);
      assert e == NewEntry(opts, order, Op.Put(key, value, gen, now));
      PutCases(opts, View(), Op.Put(key, value, gen, now));
      Store(e);
    }

    method Invalidate(key: string)
      requires Valid()
      modifies this`order, this`entries, this`bytes, this`evicted
      ensures Valid() && View() == Apply(opts, old(View()), Op.Invalidate(key)).0
    {
      IndexAgrees(order, entries, key);
      if key in entries {
        var i := Position(key);
        RemoveElement(i);
      }
    }

    method Clear()
      requires Valid()
      modifies this
      ensures Valid() && View() == Apply(opts, old(View()), Op.Clear).0
      ensures hits == old(hits) && misses == old(misses) && evict == old(evict)
    {
      if opts.notifies {
        for i := 0 to |order|
          invariant unchanged(`order, `entries, `bytes, `maxEntries, `hits, `misses, `evict)
          invariant evicted + Values(order[i..]) == old(evicted) + Values(order)
        {
          ClearStep(evicted, order, i);
          evicted := evicted + [order[i].value];
        }
        assert evicted + [] == evicted;
      } else {
        assert evicted + [] == evicted;
      }
      order, entries, bytes := [], map[], 0;
    }

    method SetMaxEntries(n: int)
      requires Valid()
      modifies this
      ensures Valid() && View() == Apply(opts, old(View()), Op.SetMaxEntries(n)).0
      ensures hits == old(hits) && misses == old(misses)
    {
      ResizeCases(opts, View(), n);
      maxEntries := if n < 0 then 0 else n;
      EvictOverflow();
    }
  }

  lemma PutCases(o: Options, s: Layer, op: Op)
    requires op.Put? && s.maxEntries != 0
    ensures Apply(o, s, op).0 == Trimmed(o, s.(list := [NewEntry(o, s.list, op)] + Drop(s.list, op.key)))
  {
  }

  lemma ResizeCases(o: Options, s: Layer, n: int)
    ensures Apply(o, s, Op.SetMaxEntries(n)).0 == Trimmed(o, s.(maxEntries := if n < 0 then 0 else n))
  {
  }

  lemma GetCases(o: Options, s: Layer, key: string, gen: nat, now: int)
    ensures var e := Lookup(s.list, key);
      Apply(o, s, Op.Get(key, gen, now)) ==
        if e.None? then (s, None)
        else if Stale(e.value, gen, now) then (Apply(o, s, Op.Invalidate(key)).0, None)
        else (s.(list := [e.value] + Drop(s.list, e.value.key)), Some(e.value.value))
  {
  }

  function OldestEvicted(o: Options, s: Layer): Layer
    requires s.list != []
  {
    var n := |s.list| - 1;
    s.(list := s.list[..n], evicted := s.evicted + Calls(o, [s.list[n].value]))
  }

  // One turn of the eviction loop leaves the outcome unchanged.
  lemma EvictionStep(o: Options, s: Layer)
    requires Overflows(s.maxEntries, o.maxBytes, s.list)
    ensures s.list != [] && Trimmed(o, OldestEvicted(o, s)) == Trimmed(o, s)
  {
    var n := |s.list| - 1;
    var front := s.list[..n];
    var k := Kept(s.maxEntries, o.maxBytes, front);
    assert front[..k] == s.list[..k];
    assert s.evicted + [s.list[n].value] + Tail(front, k) == s.evicted + ([s.list[n].value] + Tail(front, k));
    assert s.evicted + [] + [] == s.evicted + [];
  }

  lemma NothingToTrim(o: Options, s: Layer)
    requires !Overflows(s.maxEntries, o.maxBytes, s.list)
    ensures Trimmed(o, s) == s
  {
    assert s.list[..|s.list|] == s.list;
    assert s.evicted + [] == s.evicted;
  }

  lemma LastDropped(list: seq<Entry>)
    requires Distinct(list) && list != []
    ensures Drop(list, list[|list| - 1].key) == list[..|list| - 1]
  {
    DropAt(list, list[|list| - 1].key, |list| - 1);
  }

  lemma ClearStep(done: seq<Value>, list: seq<Entry>, i: nat)
    requires i < |list|
    ensures done + Values(list[i..]) == done + [list[i].value] + Values(list[i + 1..])
  {
    assert list[i..][1..] == list[i + 1..];
  }
}
