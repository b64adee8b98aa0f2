/**
  What a sorted page shows, in terms of the records' fields: for every sort name of the
  filter in engine/app/services.go, which of two records is listed first.
 */
module ListingOrder {
  import opened Prelude
  import Sequences
  import opened Text
  import opened GroupFilter
  import opened Listing
  import ListingRules

  // ---- Texts ----

  // The texts part at position i, where a has the smaller character.
  predicate SmallerAt(a: string, b: string, i: nat) { i < |a| && i < |b| && a[..i] == b[..i] && a[i] < b[i] }

  // Dictionary order: a begins b, or has the smaller character where they part.
  ghost predicate Earlier(a: string, b: string) { (a <= b && a != b) || exists i: nat :: SmallerAt(a, b, i) }

  lemma SmallerTail(a: string, b: string, i: nat)
    requires a != [] && b != [] && a[0] == b[0] && i > 0
    ensures SmallerAt(a, b, i) <==> SmallerAt(a[1..], b[1..], i - 1)
  {
    if i < |a| && i < |b| {
      assert a[..i] == [a[0]] + a[1..][..i - 1] && b[..i] == [b[0]] + b[1..][..i - 1];
      assert a[..i][1..] == a[1..][..i - 1] && b[..i][1..] == b[1..][..i - 1];
    }
  }

  lemma PrefixTail(a: string, b: string)
    requires a != [] && b != [] && a[0] == b[0]
    ensures a <= b <==> a[1..] <= b[1..]
    ensures a == b <==> a[1..] == b[1..]
  {
    assert a == [a[0]] + a[1..] && b == [b[0]] + b[1..];
  }

  lemma EarlierTail(a: string, b: string)
    requires a != [] && b != [] && a[0] == b[0]
    ensures Earlier(a, b) <==> Earlier(a[1..], b[1..])
  {
    PrefixTail(a, b);
    if i: nat :| SmallerAt(a, b, i) { SmallerTail(a, b, i); }
    if i: nat :| SmallerAt(a[1..], b[1..], i) { SmallerTail(a, b, i + 1); }
  }

  // Texts that part at once.
  lemma EarlierHead(a: string, b: string)
    requires a == [] || b == [] || a[0] != b[0]
    ensures Earlier(a, b) <==> b != [] && (a == [] || a[0] < b[0])
  {
    if a != [] && b != [] && a[0] < b[0] { assert SmallerAt(a, b, 0); }
  }

  /** The comparison of texts is dictionary order. */
  lemma {:induction false} CompareMeans(a: string, b: string)
    ensures Compare(a, b) < 0 <==> Earlier(a, b)
    ensures Compare(a, b) > 0 <==> Earlier(b, a)
    decreases |a|
  {
    if a != [] && b != [] && a[0] == b[0] {
      CompareMeans(a[1..], b[1..]);
      EarlierTail(a, b);
      EarlierTail(b, a);
    } else {
      EarlierHead(a, b);
      EarlierHead(b, a);
    }
  }

  // ---- Sort names ----

  // Tested with success, so that the latency means something.
  predicate HasLatency(k: Key) { k.working && k.testedAt > 0 }

  // a is listed before b by the named field alone, in ascending direction.
  ghost predicate FieldBefore(sortBy: string, a: Key, b: Key) {
    if sortBy == "latency" then
      HasLatency(a) && (HasLatency(b) ==> a.latency < b.latency)
    else if sortBy == "tested_at" then a.testedAt < b.testedAt
    else if sortBy == "protocol" then Earlier(a.protocol, b.protocol)
    else if sortBy == "source" then Earlier(a.source, b.source)
    else if sortBy == "address" then Earlier(a.address, b.address)
    else Earlier(a.id, b.id)
  }

  // The user's own order: placed records by their place, then the others as they are stored.
  ghost predicate PlacedBefore(a: Key, b: Key) {
    if a.orderPos >= 0 && b.orderPos >= 0 then
      a.orderPos < b.orderPos || (a.orderPos == b.orderPos && Earlier(a.id, b.id))
    else a.orderPos >= 0 || (b.orderPos < 0 && a.storeSeq < b.storeSeq)
  }

  // a is listed before b. Ties are broken by id, in both directions alike.
  ghost predicate ListedBefore(sortBy: string, desc: bool, a: Key, b: Key) {
    if sortBy == "" then PlacedBefore(a, b)
    else
      || (if desc then FieldBefore(sortBy, b, a) else FieldBefore(sortBy, a, b))
      || (!FieldBefore(sortBy, a, b) && !FieldBefore(sortBy, b, a) && Earlier(a.id, b.id))
  }

  lemma PrimaryMeans(sortBy: string, a: Key, b: Key)
    requires sortBy != ""
    ensures Primary(FieldOf(sortBy), a, b) < 0 <==> FieldBefore(sortBy, a, b)
    ensures Primary(FieldOf(sortBy), a, b) > 0 <==> FieldBefore(sortBy, b, a)
  {
    match FieldOf(sortBy)
    case Protocol => CompareMeans(a.protocol, b.protocol);
    case Source => CompareMeans(a.source, b.source);
    case Address => CompareMeans(a.address, b.address);
    case Fingerprint => CompareMeans(a.id, b.id);
    case _ =>
  }

  /** Every sort name and direction orders records as its field says. */
  lemma LessMeans(sortBy: string, desc: bool, a: Key, b: Key)
    ensures Less(FieldOf(sortBy), desc, a, b) <==> ListedBefore(sortBy, desc, a, b)
  {
    CompareMeans(a.id, b.id);
    if sortBy != "" { PrimaryMeans(sortBy, a, b); }
  }

  // ---- Keys ----

  // A key shows the fields of a stored record and its place in the store, and under the
  // manual sort the user's place for it.
  predicate Shows(q: Filter, order: map<string, int>, r: Record, place: nat, k: Key) {
    && k.id == (if r.id != "" then r.id else r.key)
    && k.latency == r.latency && k.testedAt == r.testedAt && k.working == r.working
    && k.protocol == r.protocol && k.source == r.source && k.address == r.address
    && k.storeSeq == place + 1
    && k.orderPos == (if q.sortBy == "" && k.id in order then order[k.id] else -1)
  }

  ghost predicate Offered(c: Collections, q: Filter, hit: Record -> bool, now: int, order: map<string, int>,
                          store: seq<Option<Record>>, k: Key, i: nat)
  {
    && i < |store| && store[i].Some? && Wanted(c, q, hit, now, store[i].value)
    && Shows(q, order, store[i].value, i, k)
  }

  /** The matches of a listing are the readable records its filter wants, each by its own fields. */
  lemma {:induction false} MatchesAreRecords(c: Collections, q: Filter, hit: Record -> bool, now: int,
                                             order: map<string, int>, store: seq<Option<Record>>, k: Key)
    ensures k in Collect(c, q, hit, now, order, store) <==>
            exists i: nat :: Offered(c, q, hit, now, order, store, k, i)
    decreases |store|
  {
    if store != [] {
      var n: nat := |store| - 1;
      var init := store[..n];
      MatchesAreRecords(c, q, hit, now, order, init, k);
      assert forall i: nat | i < n :: Offered(c, q, hit, now, order, store, k, i) <==>
                                      Offered(c, q, hit, now, order, init, k, i);
      if i: nat :| Offered(c, q, hit, now, order, init, k, i) { assert Offered(c, q, hit, now, order, store, k, i); }
      LastMatch(c, q, hit, now, order, store, k);
    }
  }

  lemma LastMatch(c: Collections, q: Filter, hit: Record -> bool, now: int, order: map<string, int>,
                  store: seq<Option<Record>>, k: Key)
    requires store != []
    ensures k in Collect(c, q, hit, now, order, store) <==>
            k in Collect(c, q, hit, now, order, store[..|store| - 1])
            || Offered(c, q, hit, now, order, store, k, |store| - 1)
  {
  }

  // ---- Pages ----

  lemma WindowAscends(f: Field, desc: bool, keys: seq<Key>, live: string -> bool, offset: int, limit: int)
    requires Ascending(f, desc, keys)
    ensures Ascending(f, desc, PageAt(keys, live, offset, limit).items)
  {
    var window := Window(keys, if offset < 0 then 0 else offset, limit);
    assert Ascending(f, desc, window);
    ListingRules.LiveAscends(f, desc, window, live);
  }

  /** Of two records on a page, the one shown first is the one its sort name and direction put first. */
  lemma PageIsOrdered(c: Collections, q: Filter, hit: Record -> bool, now: int, order: map<string, int>,
                      store: seq<Option<Record>>, live: string -> bool, offset: int, limit: int, i: nat, j: nat)
    requires ListingRules.DistinctIds(Collect(c, q, hit, now, order, store))
    requires var keys := Sort(FieldOf(q.sortBy), q.desc, Collect(c, q, hit, now, order, store));
      i < j < |PageAt(keys, live, offset, limit).items|
    ensures var keys := Sort(FieldOf(q.sortBy), q.desc, Collect(c, q, hit, now, order, store));
      var items := PageAt(keys, live, offset, limit).items;
      ListedBefore(q.sortBy, q.desc, items[i], items[j])
  {
    var ks := Collect(c, q, hit, now, order, store);
    var keys := Sort(FieldOf(q.sortBy), q.desc, ks);
    var items := PageAt(keys, live, offset, limit).items;
    ListingRules.ScanIsApart(c, q, hit, now, order, store, ks);
    SortSorts(FieldOf(q.sortBy), q.desc, ks);
    WindowAscends(FieldOf(q.sortBy), q.desc, keys, live, offset, limit);
    LessMeans(q.sortBy, q.desc, items[i], items[j]);
  }

  /** Fastest first: a latency page shows measured records before unmeasured ones, by rising latency. */
  lemma FastestFirst(ks: seq<Key>, i: nat, j: nat)
    requires Ascending(FieldOf("latency"), false, ks) && i < j < |ks|
    ensures HasLatency(ks[j]) ==> HasLatency(ks[i]) && ks[i].latency <= ks[j].latency
    ensures HasLatency(ks[j]) && ks[i].latency == ks[j].latency ==> Earlier(ks[i].id, ks[j].id)
  {
    LessMeans("latency", false, ks[i], ks[j]);
  }

  // The keys a page covers: a hundred of them unless 1 to 1000 are asked for.
  predicate Covers(offset: int, limit: int, k: nat) {
    var first := if offset < 0 then 0 else offset;
    first <= k < first + if 1 <= limit <= 1000 then limit else 100
  }

  lemma WindowMember(keys: seq<Key>, offset: nat, limit: int, x: Key)
    ensures x in Window(keys, offset, limit) <==>
            exists k: nat :: k < |keys| && Covers(offset, limit, k) && keys[k] == x
  {
    var window := Window(keys, offset, limit);
    if x in window {
      var i :| 0 <= i < |window| && window[i] == x;
      assert keys[offset + i] == x && Covers(offset, limit, offset + i);
    }
    if k: nat :| k < |keys| && Covers(offset, limit, k) && keys[k] == x { assert window[k - offset] == x; }
  }

  /** A page shows exactly the readable keys it covers, the number of all keys, and whether others follow. */
  lemma PageShows(keys: seq<Key>, live: string -> bool, offset: int, limit: int)
    ensures var page := PageAt(keys, live, offset, limit);
      && page.offset == (if offset < 0 then 0 else offset) && page.total == |keys|
      && (forall x :: x in page.items <==>
            live(x.id) && exists k: nat :: k < |keys| && Covers(offset, limit, k) && keys[k] == x)
      && (page.hasMore <==> page.offset + |page.items| < page.total)
  {
    var o := if offset < 0 then 0 else offset;
    var page := PageAt(keys, live, offset, limit);
    forall x ensures x in page.items <==>
                     live(x.id) && exists k: nat :: k < |keys| && Covers(offset, limit, k) && keys[k] == x
    {
      WindowMember(keys, o, limit, x);
      Sequences.FilterMember(Window(keys, o, limit), (k: Key) => live(k.id), x);
      assert forall k: nat :: Covers(o, limit, k) <==> Covers(offset, limit, k);
    }
  }

  // ---- Status filter ----

  const ANY := Filter("", "", "", "", "", [], "", false)

  predicate HasStatus(c: Collections, status: string, now: int, r: Record) {
    Wanted(c, ANY.(status := status), (x: Record) => true, now, r)
  }

  /** A stored record is shown under exactly one of the statuses working, failed and untested. */
  lemma StatusesPartition(c: Collections, now: int, r: Record)
    requires r.testedAt >= 0
    ensures HasStatus(c, "working", now, r) || HasStatus(c, "failed", now, r) || HasStatus(c, "untested", now, r)
    ensures !(HasStatus(c, "working", now, r) && HasStatus(c, "failed", now, r))
    ensures !(HasStatus(c, "working", now, r) && HasStatus(c, "untested", now, r))
    ensures !(HasStatus(c, "failed", now, r) && HasStatus(c, "untested", now, r))
    ensures HasStatus(c, "working", now, r) <==> Accepts(c, "working", r, now)
    ensures HasStatus(c, "untested", now, r) <==> Accepts(c, "untested", r, now)
  {
  }

  /** The fast records are working ones of at most 400 ms, and the recent ones tested ones of the last day. */
  lemma GroupsNest(c: Collections, now: int, r: Record)
    requires r.testedAt >= 0
    ensures Accepts(c, "fast", r, now) <==> Accepts(c, "working", r, now) && r.latency <= 400
    ensures Accepts(c, "recently_tested", r, now) <==>
            !Accepts(c, "untested", r, now) && now <= r.testedAt + 24 * 60 * 60 * 1000
  {
  }
}
