/**
  The listing promise: with an explicit sort, every filter, sort and offset maps to one
  page, whatever order the store was scanned in.
 */
module ListingRules {
  import opened Prelude
  import Sequences
  import opened GroupFilter
  import opened Listing

  // A key without its scan position, which no explicit sort reads.
  function Bare(k: Key): Key { k.(storeSeq := 0) }

  function BareAll(ks: seq<Key>): (r: seq<Key>)
    ensures |r| == |ks|
  {
    if ks == [] then [] else BareAll(ks[..|ks| - 1]) + [Bare(ks[|ks| - 1])]
  }

  lemma {:induction false} BareAt(ks: seq<Key>, i: nat)
    requires i < |ks|
    ensures BareAll(ks)[i] == Bare(ks[i])
  {
    if i < |ks| - 1 { BareAt(ks[..|ks| - 1], i); }
  }

  lemma BareSnoc(ks: seq<Key>, k: Key)
    ensures BareAll(ks + [k]) == BareAll(ks) + [Bare(k)]
  {
    assert (ks + [k])[..|ks|] == ks;
  }

  lemma BareLess(f: Field, desc: bool, a: Key, b: Key)
    requires f != Manual
    ensures Less(f, desc, Bare(a), Bare(b)) == Less(f, desc, a, b)
  {
  }

  // Sorting by an explicit field commutes with forgetting scan positions.
  lemma {:induction false} BareInsert(f: Field, desc: bool, ks: seq<Key>, k: Key)
    requires f != Manual
    ensures BareAll(Insert(f, desc, ks, k)) == Insert(f, desc, BareAll(ks), Bare(k))
  {
    if ks == [] {
      BareSnoc(ks, k);
    } else {
      var init, last := ks[..|ks| - 1], ks[|ks| - 1];
      BareLess(f, desc, k, last);
      assert BareAll(ks) == BareAll(init) + [Bare(last)];
      if Less(f, desc, k, last) {
        BareInsert(f, desc, init, k);
        BareSnoc(Insert(f, desc, init, k), last);
        InsertBeforeLast(f, desc, BareAll(init), Bare(last), Bare(k));
      } else {
        BareSnoc(ks, k);
      }
    }
  }

  lemma InsertBeforeLast(f: Field, desc: bool, init: seq<Key>, last: Key, k: Key)
    requires Less(f, desc, k, last)
    ensures Insert(f, desc, init + [last], k) == Insert(f, desc, init, k) + [last]
  {
    assert (init + [last])[..|init|] == init;
  }

  lemma {:induction false} BareSort(f: Field, desc: bool, ks: seq<Key>)
    requires f != Manual
    ensures BareAll(Sort(f, desc, ks)) == Sort(f, desc, BareAll(ks))
  {
    if ks != [] {
      var init := ks[..|ks| - 1];
      BareSort(f, desc, init);
      BareInsert(f, desc, Sort(f, desc, init), ks[|ks| - 1]);
      assert BareAll(ks)[..|ks| - 1] == BareAll(init);
    }
  }

  // ---- Matches do not depend on the scan order ----

  function Offer(c: Collections, q: Filter, hit: Record -> bool, now: int, x: Option<Record>): seq<Key> {
    if x.Some? && Wanted(c, q, hit, now, x.value) then [KeyOf(q, map[], x.value, 0)] else []
  }

  function Matched(c: Collections, q: Filter, hit: Record -> bool, now: int, store: seq<Option<Record>>): seq<Key> {
    if store == [] then []
    else Matched(c, q, hit, now, store[..|store| - 1]) + Offer(c, q, hit, now, store[|store| - 1])
  }

  lemma {:induction false} CollectIsMatched(c: Collections, q: Filter, hit: Record -> bool, now: int,
                                            order: map<string, int>, store: seq<Option<Record>>)
    requires q.sortBy != ""
    ensures BareAll(Collect(c, q, hit, now, order, store)) == Matched(c, q, hit, now, store)
  {
    if store != [] {
      var init, last := store[..|store| - 1], store[|store| - 1];
      CollectIsMatched(c, q, hit, now, order, init);
      var before := Collect(c, q, hit, now, order, init);
      if last.Some? && Wanted(c, q, hit, now, last.value) {
        BareSnoc(before, KeyOf(q, order, last.value, |store|));
      } else {
        assert before + [] == before;
      }
    }
  }

  lemma {:induction false} MatchedConcat(c: Collections, q: Filter, hit: Record -> bool, now: int,
                                         a: seq<Option<Record>>, b: seq<Option<Record>>)
    ensures Matched(c, q, hit, now, a + b) == Matched(c, q, hit, now, a) + Matched(c, q, hit, now, b)
    decreases |b|
  {
    if b == [] {
      assert a + b == a;
    } else {
      var init := b[..|b| - 1];
      assert (a + b)[..|a + b| - 1] == a + init;
      MatchedConcat(c, q, hit, now, a, init);
    }
  }

  lemma MatchedWithout(c: Collections, q: Filter, hit: Record -> bool, now: int, b: seq<Option<Record>>, k: nat)
    requires k < |b|
    ensures multiset(Matched(c, q, hit, now, b)) ==
            multiset(Matched(c, q, hit, now, b[..k] + b[k + 1..])) + multiset(Offer(c, q, hit, now, b[k]))
  {
    var left, right := b[..k], b[k + 1..];
    assert b == (left + [b[k]]) + right;
    MatchedConcat(c, q, hit, now, left + [b[k]], right);
    MatchedConcat(c, q, hit, now, left, right);
    assert (left + [b[k]])[..k] == left;
  }

  lemma {:induction false} MatchedPermutes(c: Collections, q: Filter, hit: Record -> bool, now: int,
                                           a: seq<Option<Record>>, b: seq<Option<Record>>)
    requires multiset(a) == multiset(b)
    ensures multiset(Matched(c, q, hit, now, a)) == multiset(Matched(c, q, hit, now, b))
    decreases |a|
  {
    if a == [] {
      assert |b| == |multiset(b)| == 0;
    } else {
      var init, last := a[..|a| - 1], a[|a| - 1];
      assert a == init + [last] && last in multiset(b);
      var k :| 0 <= k < |b| && b[k] == last;
      RemovedOne(b, k);
      MatchedPermutes(c, q, hit, now, init, b[..k] + b[k + 1..]);
      MatchedWithout(c, q, hit, now, b, k);
    }
  }

  lemma RemovedOne(b: seq<Option<Record>>, k: nat)
    requires k < |b|
    ensures multiset(b[..k] + b[k + 1..]) == multiset(b) - multiset{b[k]}
  {
    assert b == b[..k] + [b[k]] + b[k + 1..];
  }

  lemma ApartWhenDistinct(f: Field, ks: seq<Key>)
    requires f != Manual && Apart(f, ks)
    ensures Apart(f, BareAll(ks))
  {
    forall i, j | 0 <= i < j < |ks| ensures Comparable(f, BareAll(ks)[i], BareAll(ks)[j]) {
      BareAt(ks, i);
      BareAt(ks, j);
      assert Comparable(f, ks[i], ks[j]);
    }
  }

  /**
    With an explicit sort and distinct ids among the matches, two scans of the same records
    in any order give the same sorted listing.
   */
  lemma ListingIgnoresScanOrder(c: Collections, q: Filter, hit: Record -> bool, now: int, order: map<string, int>,
                                a: seq<Option<Record>>, b: seq<Option<Record>>, ka: seq<Key>, kb: seq<Key>)
    requires q.sortBy != "" && multiset(a) == multiset(b)
    requires ka == Collect(c, q, hit, now, order, a) && kb == Collect(c, q, hit, now, order, b)
    requires Apart(FieldOf(q.sortBy), ka)
    ensures BareAll(Sort(FieldOf(q.sortBy), q.desc, ka)) == BareAll(Sort(FieldOf(q.sortBy), q.desc, kb))
  {
    SameMatches(c, q, hit, now, order, a, b);
    SameSort(FieldOf(q.sortBy), q.desc, ka, kb);
  }

  lemma SameMatches(c: Collections, q: Filter, hit: Record -> bool, now: int, order: map<string, int>,
                    a: seq<Option<Record>>, b: seq<Option<Record>>)
    requires q.sortBy != "" && multiset(a) == multiset(b)
    ensures multiset(BareAll(Collect(c, q, hit, now, order, a))) ==
            multiset(BareAll(Collect(c, q, hit, now, order, b)))
  {
    CollectIsMatched(c, q, hit, now, order, a);
    CollectIsMatched(c, q, hit, now, order, b);
    MatchedPermutes(c, q, hit, now, a, b);
  }

  lemma {:induction false} ApartCounts(f: Field, ks: seq<Key>, k: Key)
    requires Apart(f, ks)
    ensures multiset(ks)[k] <= 1
  {
    if ks != [] {
      var init, last := ks[..|ks| - 1], ks[|ks| - 1];
      assert ks == init + [last];
      ApartCounts(f, init, k);
      assert forall i | 0 <= i < |init| :: Comparable(f, ks[i], last);
    }
  }

  lemma PermutedApart(f: Field, a: seq<Key>, b: seq<Key>)
    requires Apart(f, a) && multiset(a) == multiset(b)
    ensures Apart(f, b)
  {
    forall i, j | 0 <= i < j < |b| ensures Comparable(f, b[i], b[j]) {
      var left, right := b[..j], b[j..];
      assert b == left + right && left[i] == b[i] && right[0] == b[j];
      assert multiset(b) == multiset(left) + multiset(right);
      assert multiset(left)[b[i]] >= 1 && multiset(right)[b[j]] >= 1;
      ApartCounts(f, a, b[i]);
      assert b[i] in multiset(a) && b[j] in multiset(a);
      var p :| 0 <= p < |a| && a[p] == b[i];
      var q :| 0 <= q < |a| && a[q] == b[j];
      assert p != q;
    }
  }

  lemma SameSort(f: Field, desc: bool, ka: seq<Key>, kb: seq<Key>)
    requires f != Manual && Apart(f, ka) && multiset(BareAll(ka)) == multiset(BareAll(kb))
    ensures BareAll(Sort(f, desc, ka)) == BareAll(Sort(f, desc, kb))
  {
    BareSort(f, desc, ka);
    BareSort(f, desc, kb);
    ApartWhenDistinct(f, ka);
    PermutedApart(f, BareAll(ka), BareAll(kb));
    SortSorts(f, desc, BareAll(ka));
    SortSorts(f, desc, BareAll(kb));
    AscendingIsUnique(f, desc, Sort(f, desc, BareAll(ka)), Sort(f, desc, BareAll(kb)));
  }

  lemma {:induction false} LiveAscends(f: Field, desc: bool, ks: seq<Key>, live: string -> bool)
    requires Ascending(f, desc, ks)
    ensures Ascending(f, desc, LiveOf(ks, live))
  {
    if ks != [] {
      var init, last := ks[..|ks| - 1], ks[|ks| - 1];
      LiveAscends(f, desc, init, live);
      forall k | k in LiveOf(init, live) ensures Less(f, desc, k, last) {
        Sequences.FilterMember(init, (k: Key) => live(k.id), k);
        var i :| 0 <= i < |init| && init[i] == k;
        assert ks[i] == k;
      }
    }
  }

  /**
    For every field and direction: pages a page size apart give exactly the live matches, in
    strictly ascending order and so each once.
   */
  lemma PagesCoverMatches(q: Filter, matches: seq<Key>, live: string -> bool, limit: int)
    requires Apart(FieldOf(q.sortBy), matches)
    ensures var read := ReadStrides(Sort(FieldOf(q.sortBy), q.desc, matches), live, 0, limit);
      (forall k :: k in read <==> k in matches && live(k.id)) && Ascending(FieldOf(q.sortBy), q.desc, read)
  {
    var f := FieldOf(q.sortBy);
    var sorted := Sort(f, q.desc, matches);
    StridesReadAllLive(sorted, live, 0, limit);
    assert sorted[0..] == sorted;
    SortSorts(f, q.desc, matches);
    LiveAscends(f, q.desc, sorted, live);
    forall k ensures k in LiveOf(sorted, live) <==> k in matches && live(k.id) {
      Sequences.FilterMember(sorted, (k: Key) => live(k.id), k);
      assert k in sorted <==> k in multiset(sorted);
      assert k in matches <==> k in multiset(matches);
    }
  }

  predicate DistinctIds(ks: seq<Key>) { forall i, j | 0 <= i < j < |ks| :: ks[i].id != ks[j].id }

  /** Distinct ids are all any order needs of the keys of one scan, the manual one included. */
  lemma ScanIsApart(c: Collections, q: Filter, hit: Record -> bool, now: int, order: map<string, int>,
                    store: seq<Option<Record>>, ks: seq<Key>)
    requires ks == Collect(c, q, hit, now, order, store) && DistinctIds(ks)
    ensures Apart(FieldOf(q.sortBy), ks)
  {
    forall i, j | 0 <= i < j < |ks| ensures Comparable(FieldOf(q.sortBy), ks[i], ks[j]) {
      ScanPositionsGrow(c, q, hit, now, order, store, ks, i, j);
    }
  }

  // Scan positions grow along a scan.
  lemma {:induction false} ScanPositionsGrow(c: Collections, q: Filter, hit: Record -> bool, now: int,
                                             order: map<string, int>, store: seq<Option<Record>>, ks: seq<Key>,
                                             i: nat, j: nat)
    requires ks == Collect(c, q, hit, now, order, store) && i < j < |ks|
    ensures ks[i].storeSeq < ks[j].storeSeq <= |store|
    decreases |store|
  {
    var init := store[..|store| - 1];
    var before := Collect(c, q, hit, now, order, init);
    if j < |before| {
      ScanPositionsGrow(c, q, hit, now, order, init, before, i, j);
    } else {
      PositionWithin(c, q, hit, now, order, init, i);
    }
  }

  lemma {:induction false} PositionWithin(c: Collections, q: Filter, hit: Record -> bool, now: int,
                                          order: map<string, int>, store: seq<Option<Record>>, i: nat)
    requires i < |Collect(c, q, hit, now, order, store)|
    ensures Collect(c, q, hit, now, order, store)[i].storeSeq <= |store|
    decreases |store|
  {
    var init := store[..|store| - 1];
    if i < |Collect(c, q, hit, now, order, init)| { PositionWithin(c, q, hit, now, order, init, i); }
  }

  /** The listing call: one store pass, one sort, one window. */
  method ListConfigsFiltered(c: Collections, q: Filter, hit: Record -> bool, now: int, order: map<string, int>,
                             store: seq<Option<Record>>, live: string -> bool, offset: int, limit: int)
    returns (page: Page)
    ensures page == PageAt(Sort(FieldOf(q.sortBy), q.desc, Collect(c, q, hit, now, order, store)), live, offset, limit)
  {
    var memberSet := CompileMemberSet(c, q.group);
    var keys: seq<Key> := [];
    for i := 0 to |store|
      invariant keys == Collect(c, q, hit, now, order, store[..i])
    {
      assert store[..i + 1][..i] == store[..i];
      if store[i].None? { continue; }
      var r := store[i].value;
      if q.ids != [] && r.id !in q.ids { continue; }
      var ok := FilterMatches(c, q, hit, r, memberSet, now);
      if !ok { continue; }
      keys := keys + [KeyOf(q, order, r, i + 1)];
    }
    assert store[..|store|] == store;
    keys := Sort(FieldOf(q.sortBy), q.desc, keys);
    var o := if offset < 0 then 0 else offset;
    var items := ReadWindow(Window(keys, o, limit), live);
    page := Page(o, |keys|, items, o + |items| < |keys|);
  }

  // The loop over the window; a record that cannot be read is skipped.
  method ReadWindow(window: seq<Key>, live: string -> bool) returns (items: seq<Key>)
    ensures items == LiveOf(window, live)
  {
    ghost var p := (k: Key) => live(k.id);
    items := [];
    for i := 0 to |window|
      invariant items == Sequences.Filter(window[..i], p)
    {
      Sequences.FilterSnoc(window, p, i);
      if !live(window[i].id) { continue; }
      items := items + [window[i]];
    }
    assert window[..|window|] == window;
  }

  method FilterMatches(c: Collections, q: Filter, hit: Record -> bool, r: Record, memberSet: Option<set<string>>,
                       now: int) returns (ok: bool)
    requires memberSet == Compiled(c, q.group)
    ensures ok == Wanted(c, q.(ids := []), hit, now, r)
  {
    if q.protocol != "" && r.protocol != q.protocol { return false; }
    if q.status == "working" && !(r.testedAt > 0 && r.working) { return false; }
    if q.status == "failed" && !(r.testedAt > 0 && !r.working) { return false; }
    if q.status == "untested" && r.testedAt != 0 { return false; }
    if q.source != "" && r.source != q.source { return false; }
    if q.backend != "" && r.backend != q.backend { return false; }
    if q.group != "" {
      var member := Matches(c, q.group, r, memberSet, now);
      if !member { return false; }
    }
    return hit(r);
  }
}
