/**
  The sorted, filtered, paged listing of engine/app/services.go: one key per matching
  record, a comparator per sort field, and a page window.
 */
module Listing {
  import opened Prelude
  import Sequences
  import opened Text
  import opened GroupFilter

  datatype Key = Key(id: string, latency: int, testedAt: int, working: bool, protocol: string,
                     source: string, address: string, orderPos: int, storeSeq: int)

  datatype Field = Manual | Latency | TestedAt | Protocol | Source | Address | Fingerprint

  // The sort names the filter accepts; an unknown one sorts by id.
  function FieldOf(sortBy: string): Field {
    if sortBy == "" then Manual
    else if sortBy == "latency" then Latency
    else if sortBy == "tested_at" then TestedAt
    else if sortBy == "protocol" then Protocol
    else if sortBy == "source" then Source
    else if sortBy == "address" then Address
    else Fingerprint
  }

  predicate Measured(k: Key) { k.working && k.testedAt > 0 }

  function CompareInts(a: int, b: int): int { if a < b then -1 else if a > b then 1 else 0 }

  // The user-selected field alone: negative when a comes first.
  function Primary(f: Field, a: Key, b: Key): int {
    match f
    case Manual => 0
    case Latency =>
      if Measured(a) != Measured(b) then (if Measured(a) then -1 else 1)
      else if Measured(a) then CompareInts(a.latency, b.latency)
      else 0
    case TestedAt => CompareInts(a.testedAt, b.testedAt)
    case Protocol => Compare(a.protocol, b.protocol)
    case Source => Compare(a.source, b.source)
    case Address => Compare(a.address, b.address)
    case Fingerprint => Compare(a.id, b.id)
  }

  predicate IdLess(a: Key, b: Key) { Compare(a.id, b.id) < 0 }

  // Positioned keys first in stored order, the rest in store order.
  predicate ManualLess(a: Key, b: Key) {
    if a.orderPos >= 0 && b.orderPos >= 0 then
      (if a.orderPos != b.orderPos then a.orderPos < b.orderPos else IdLess(a, b))
    else if a.orderPos >= 0 then true
    else if b.orderPos >= 0 then false
    else a.storeSeq < b.storeSeq
  }

  predicate Less(f: Field, desc: bool, a: Key, b: Key) {
    if f == Manual then ManualLess(a, b)
    else
      var c := Primary(f, a, b);
      if c != 0 then (if desc then c > 0 else c < 0) else IdLess(a, b)
  }

  // ---- The comparator is a strict total order ----

  lemma PrimaryFlips(f: Field, a: Key, b: Key)
    ensures Primary(f, b, a) == -Primary(f, a, b)
  {
    CompareFlips(a.protocol, b.protocol);
    CompareFlips(a.source, b.source);
    CompareFlips(a.address, b.address);
    CompareFlips(a.id, b.id);
  }

  lemma PrimaryTransitive(f: Field, a: Key, b: Key, c: Key)
    requires Primary(f, a, b) <= 0 && Primary(f, b, c) <= 0
    ensures Primary(f, a, c) <= 0
  {
    match f
    case Protocol => CompareTransitive(a.protocol, b.protocol, c.protocol);
    case Source => CompareTransitive(a.source, b.source, c.source);
    case Address => CompareTransitive(a.address, b.address, c.address);
    case Fingerprint => CompareTransitive(a.id, b.id, c.id);
    case _ =>
  }

  lemma IdLessTransitive(a: Key, b: Key, c: Key)
    requires IdLess(a, b) && IdLess(b, c)
    ensures IdLess(a, c)
  {
    CompareTransitive(a.id, b.id, c.id);
    CompareFlips(a.id, b.id);
    CompareFlips(a.id, c.id);
  }

  /** Irreflexive and asymmetric, for every field and direction. */
  lemma LessIsAsymmetric(f: Field, desc: bool, a: Key, b: Key)
    ensures !(Less(f, desc, a, b) && Less(f, desc, b, a))
    ensures !Less(f, desc, a, a)
  {
    PrimaryFlips(f, a, b);
    PrimaryFlips(f, a, a);
    CompareFlips(a.id, b.id);
    CompareFlips(a.id, a.id);
  }

  lemma ExplicitIsTransitive(f: Field, desc: bool, a: Key, b: Key, c: Key)
    requires f != Manual && Less(f, desc, a, b) && Less(f, desc, b, c)
    ensures Less(f, desc, a, c)
  {
    PrimaryFlips(f, a, b);
    PrimaryFlips(f, b, c);
    PrimaryFlips(f, a, c);
    if desc {
      PrimaryTransitive(f, c, b, a);
    } else {
      PrimaryTransitive(f, a, b, c);
    }
    if Primary(f, a, c) == 0 {
      PrimaryTies(f, a, b, c);
      IdLessTransitive(a, b, c);
    }
  }

  // Between two keys that tie on the field, a key in weak order ties with both.
  lemma PrimaryTies(f: Field, a: Key, b: Key, c: Key)
    requires Primary(f, a, c) == 0
    requires (Primary(f, a, b) <= 0 && Primary(f, b, c) <= 0) || (Primary(f, a, b) >= 0 && Primary(f, b, c) >= 0)
    ensures Primary(f, a, b) == 0 && Primary(f, b, c) == 0
  {
    PrimaryFlips(f, a, b);
    PrimaryFlips(f, b, c);
    PrimaryFlips(f, a, c);
    if Primary(f, a, b) <= 0 && Primary(f, b, c) <= 0 {
      PrimaryTransitive(f, b, c, a);
      PrimaryTransitive(f, c, a, b);
    } else {
      PrimaryTransitive(f, a, c, b);
      PrimaryTransitive(f, b, a, c);
    }
  }

  lemma ManualIsTransitive(a: Key, b: Key, c: Key)
    requires ManualLess(a, b) && ManualLess(b, c)
    ensures ManualLess(a, c)
  {
    if a.orderPos == b.orderPos == c.orderPos && a.orderPos >= 0 { IdLessTransitive(a, b, c); }
  }

  /** Transitive, for every field and direction. */
  lemma LessIsTransitive(f: Field, desc: bool, a: Key, b: Key, c: Key)
    requires Less(f, desc, a, b) && Less(f, desc, b, c)
    ensures Less(f, desc, a, c)
  {
    if f == Manual { ManualIsTransitive(a, b, c); } else { ExplicitIsTransitive(f, desc, a, b, c); }
  }

  /** Total on distinct ids; the manual order also needs distinct store positions. */
  lemma LessIsTotal(f: Field, desc: bool, a: Key, b: Key)
    requires a.id != b.id && (f == Manual ==> a.storeSeq != b.storeSeq)
    ensures Less(f, desc, a, b) || Less(f, desc, b, a)
  {
    PrimaryFlips(f, a, b);
    CompareFlips(a.id, b.id);
  }

  // ---- Sorting ----

  predicate Comparable(f: Field, a: Key, b: Key) {
    a.id != b.id && (f == Manual ==> a.storeSeq != b.storeSeq)
  }

  predicate Apart(f: Field, ks: seq<Key>) {
    forall i, j | 0 <= i < j < |ks| :: Comparable(f, ks[i], ks[j])
  }

  predicate Ascending(f: Field, desc: bool, ks: seq<Key>) {
    forall i, j | 0 <= i < j < |ks| :: Less(f, desc, ks[i], ks[j])
  }

  // A stable sort: each key after every earlier key it does not precede.
  function Insert(f: Field, desc: bool, ks: seq<Key>, k: Key): seq<Key> {
    if ks == [] || !Less(f, desc, k, ks[|ks| - 1]) then ks + [k]
    else Insert(f, desc, ks[..|ks| - 1], k) + [ks[|ks| - 1]]
  }

  function Sort(f: Field, desc: bool, ks: seq<Key>): seq<Key> {
    if ks == [] then [] else Insert(f, desc, Sort(f, desc, ks[..|ks| - 1]), ks[|ks| - 1])
  }

  lemma {:induction false} InsertPermutes(f: Field, desc: bool, ks: seq<Key>, k: Key)
    ensures multiset(Insert(f, desc, ks, k)) == multiset(ks) + multiset{k}
  {
    if ks != [] {
      var init := ks[..|ks| - 1];
      assert ks == init + [ks[|ks| - 1]];
      InsertPermutes(f, desc, init, k);
    }
  }

  lemma {:induction false} InsertSorts(f: Field, desc: bool, ks: seq<Key>, k: Key)
    requires Ascending(f, desc, ks) && forall i | 0 <= i < |ks| :: Comparable(f, ks[i], k)
    ensures Ascending(f, desc, Insert(f, desc, ks, k))
  {
    if ks != [] {
      var init, last := ks[..|ks| - 1], ks[|ks| - 1];
      if Less(f, desc, k, last) {
        InsertSorts(f, desc, init, k);
        LastOfInsert(f, desc, init, k, last);
      } else {
        LessIsTotal(f, desc, last, k);
        forall i | 0 <= i < |init| ensures Less(f, desc, ks[i], k) { LessIsTransitive(f, desc, ks[i], last, k); }
      }
    }
  }

  lemma LastOfInsert(f: Field, desc: bool, init: seq<Key>, k: Key, last: Key)
    requires Less(f, desc, k, last) && forall x | x in init :: Less(f, desc, x, last)
    ensures forall x | x in Insert(f, desc, init, k) :: Less(f, desc, x, last)
  {
    InsertPermutes(f, desc, init, k);
    forall x | x in Insert(f, desc, init, k) ensures Less(f, desc, x, last) {
      assert x in multiset(Insert(f, desc, init, k));
    }
  }

  /** Sorting keys with distinct ids yields their permutation in strictly ascending order. */
  lemma {:induction false} SortSorts(f: Field, desc: bool, ks: seq<Key>)
    requires Apart(f, ks)
    ensures multiset(Sort(f, desc, ks)) == multiset(ks)
    ensures Ascending(f, desc, Sort(f, desc, ks))
  {
    if ks != [] {
      var init, last := ks[..|ks| - 1], ks[|ks| - 1];
      assert ks == init + [last];
      SortSorts(f, desc, init);
      var sorted := Sort(f, desc, init);
      forall i | 0 <= i < |sorted| ensures Comparable(f, sorted[i], last) {
        assert sorted[i] in multiset(sorted);
        assert sorted[i] in init;
      }
      InsertSorts(f, desc, sorted, last);
      InsertPermutes(f, desc, sorted, last);
    }
  }

  /** There is only one strictly ascending arrangement of given keys. */
  lemma {:induction false} AscendingIsUnique(f: Field, desc: bool, a: seq<Key>, b: seq<Key>)
    requires Ascending(f, desc, a) && Ascending(f, desc, b) && multiset(a) == multiset(b)
    ensures a == b
    decreases |a|
  {
    assert |a| == |multiset(a)| == |multiset(b)| == |b|;
    if a != [] {
      var n := |a| - 1;
      LastsAgree(f, desc, a, b);
      WithoutLast(a);
      WithoutLast(b);
      AscendingIsUnique(f, desc, a[..n], b[..n]);
    }
  }

  lemma WithoutLast(a: seq<Key>)
    requires a != []
    ensures a == a[..|a| - 1] + [a[|a| - 1]]
    ensures multiset(a[..|a| - 1]) == multiset(a) - multiset{a[|a| - 1]}
  {
    assert a == a[..|a| - 1] + [a[|a| - 1]];
  }

  // Everything is the last key or before it.
  lemma LastIsGreatest(f: Field, desc: bool, a: seq<Key>, k: Key)
    requires Ascending(f, desc, a) && k in a
    ensures k == a[|a| - 1] || Less(f, desc, k, a[|a| - 1])
  {
    var i :| 0 <= i < |a| && a[i] == k;
  }

  lemma LastsAgree(f: Field, desc: bool, a: seq<Key>, b: seq<Key>)
    requires Ascending(f, desc, a) && Ascending(f, desc, b) && multiset(a) == multiset(b)
    requires |a| == |b| > 0
    ensures a[|a| - 1] == b[|b| - 1]
  {
    var x, y := a[|a| - 1], b[|b| - 1];
    assert x in multiset(b) && y in multiset(a);
    LastIsGreatest(f, desc, b, x);
    LastIsGreatest(f, desc, a, y);
    LessIsAsymmetric(f, desc, x, y);
  }

  // ---- Filtering the store ----

  datatype Filter = Filter(protocol: string, status: string, source: string, backend: string, group: string,
                           ids: seq<string>, sortBy: string, desc: bool)

  // The filter's tests, apart from the text query, which `hit` answers.
  predicate Wanted(c: Collections, q: Filter, hit: Record -> bool, now: int, r: Record) {
    && (q.ids != [] ==> r.id in q.ids)
    && (q.protocol != "" ==> r.protocol == q.protocol)
    && (q.status == "working" ==> r.testedAt > 0 && r.working)
    && (q.status == "failed" ==> r.testedAt > 0 && !r.working)
    && (q.status == "untested" ==> r.testedAt == 0)
    && (q.source != "" ==> r.source == q.source)
    && (q.backend != "" ==> r.backend == q.backend)
    && Accepts(c, q.group, r, now)
    && hit(r)
  }

  // The manual position of an id, consulted only without an explicit sort.
  function PositionOf(q: Filter, order: map<string, int>, id: string): int {
    if q.sortBy == "" && id in order then order[id] else -1
  }

  function KeyOf(q: Filter, order: map<string, int>, r: Record, n: int): Key {
    var id := if r.id == "" then r.key else r.id;
    Key(id, r.latency, r.testedAt, r.working, r.protocol, r.source, r.address, PositionOf(q, order, id), n)
  }

  // The matches of one store iteration; None is a record that does not decode.
  function Collect(c: Collections, q: Filter, hit: Record -> bool, now: int, order: map<string, int>,
                   store: seq<Option<Record>>): seq<Key>
  {
    if store == [] then []
    else
      var last := store[|store| - 1];
      Collect(c, q, hit, now, order, store[..|store| - 1]) +
      if last.Some? && Wanted(c, q, hit, now, last.value) then [KeyOf(q, order, last.value, |store|)] else []
  }

  // ---- Pages ----

  datatype Page = Page(offset: int, total: nat, items: seq<Key>, hasMore: bool)

  function PageSize(limit: int): (n: nat)
    ensures n > 0
  {
    if limit <= 0 || limit > 1000 then 100 else limit
  }

  function Window(keys: seq<Key>, offset: nat, limit: int): seq<Key> {
    var end := offset + PageSize(limit);
    if offset >= |keys| then [] else keys[offset..if end > |keys| then |keys| else end]
  }

  // The keys whose records can still be read by their id.
  function LiveOf(keys: seq<Key>, live: string -> bool): seq<Key> {
    Sequences.Filter(keys, (k: Key) => live(k.id))
  }

  // The page of a window: records that cannot be read are skipped, and whether there is more
  // is told from the items left.
  function PageAt(keys: seq<Key>, live: string -> bool, offset: int, limit: int): Page {
    var o := if offset < 0 then 0 else offset;
    var items := LiveOf(Window(keys, o, limit), live);
    Page(o, |keys|, items, o + |items| < |keys|)
  }

  // ---- Reading by fixed strides ----

  function ReadStrides(keys: seq<Key>, live: string -> bool, offset: nat, limit: int): seq<Key>
    decreases |keys| - offset
  {
    if offset >= |keys| then []
    else PageAt(keys, live, offset, limit).items + ReadStrides(keys, live, offset + PageSize(limit), limit)
  }

  // The live keys from an offset on: those of its window, and those behind.
  lemma WindowSplits(keys: seq<Key>, live: string -> bool, offset: nat, limit: int)
    requires offset < |keys|
    ensures var next := offset + PageSize(limit);
      LiveOf(keys[offset..], live) ==
      LiveOf(Window(keys, offset, limit), live) + if next < |keys| then LiveOf(keys[next..], live) else []
  {
    var next := offset + PageSize(limit);
    if next < |keys| {
      assert keys[offset..] == keys[offset..next] + keys[next..];
      Sequences.FilterConcat(keys[offset..next], keys[next..], (k: Key) => live(k.id));
    } else {
      assert keys[offset..|keys|] == keys[offset..];
    }
  }

  lemma StrideStep(keys: seq<Key>, live: string -> bool, offset: nat, limit: int)
    requires offset < |keys|
    ensures var next := offset + PageSize(limit);
      ReadStrides(keys, live, offset, limit) ==
      LiveOf(Window(keys, offset, limit), live) + if next < |keys| then ReadStrides(keys, live, next, limit) else []
  {
  }

  lemma Joined(x: seq<Key>, a: seq<Key>, b: seq<Key>, read: seq<Key>, rest: seq<Key>)
    requires x == a + b && read == a + rest && rest == b
    ensures read == x
  {
  }

  /** Pages a page size apart give every live key from there on, once and in order. */
  lemma {:induction false} StridesReadAllLive(keys: seq<Key>, live: string -> bool, offset: nat, limit: int)
    requires offset <= |keys|
    ensures ReadStrides(keys, live, offset, limit) == LiveOf(keys[offset..], live)
    decreases |keys| - offset
  {
    if offset < |keys| {
      var next := offset + PageSize(limit);
      var window := LiveOf(Window(keys, offset, limit), live);
      var behind := if next < |keys| then LiveOf(keys[next..], live) else [];
      var rest := if next < |keys| then ReadStrides(keys, live, next, limit) else [];
      StrideStep(keys, live, offset, limit);
      WindowSplits(keys, live, offset, limit);
      if next < |keys| { StridesReadAllLive(keys, live, next, limit); }
      Joined(LiveOf(keys[offset..], live), window, behind, ReadStrides(keys, live, offset, limit), rest);
    }
  }

  // ---- Reading on from the items received ----

  // How far a reader is who continues behind the items it received, as long as there is more.
  datatype Reading = Reading(offset: nat, read: seq<Key>, more: bool)

  // The reader asks a pager for the page at an offset.
  function Turn(page: nat -> Page, r: Reading): Reading {
    var p := page(r.offset);
    if r.more then Reading(r.offset + |p.items|, r.read + p.items, p.hasMore) else r
  }

  // After n pages.
  function ReadPages(page: nat -> Page, n: nat): Reading {
    if n == 0 then Reading(0, [], true) else Turn(page, ReadPages(page, n - 1))
  }

  // The pages of one sorted listing.
  function Pager(keys: seq<Key>, live: string -> bool, limit: int): nat -> Page {
    (o: nat) => PageAt(keys, live, o, limit)
  }

  predicate AllLive(keys: seq<Key>, live: string -> bool) { forall k | k in keys :: live(k.id) }

  // A page never has more items than its window, and says there is more while keys are left.
  lemma PageCounts(keys: seq<Key>, live: string -> bool, limit: int, o: nat)
    requires o <= |keys|
    ensures var p := Pager(keys, live, limit)(o);
      o + |p.items| <= |keys| && (p.hasMore <==> o + |p.items| < |keys|)
  {
    Sequences.FilterSize(Window(keys, o, limit), (k: Key) => live(k.id));
  }

  // The offset counts the items; a reader that is done received as many as there are keys.
  lemma {:induction false} ReadingCounts(keys: seq<Key>, live: string -> bool, limit: int, n: nat)
    ensures var r := ReadPages(Pager(keys, live, limit), n);
      && |r.read| == r.offset <= |keys|
      && (!r.more ==> r.offset == |keys|)
      && (n > 0 && r.more ==> r.offset < |keys|)
  {
    if n > 0 {
      ReadingCounts(keys, live, limit, n - 1);
      PageCounts(keys, live, limit, ReadPages(Pager(keys, live, limit), n - 1).offset);
    }
  }

  lemma {:induction false} ReadsLiveKeys(keys: seq<Key>, live: string -> bool, limit: int, n: nat, k: Key)
    requires k in ReadPages(Pager(keys, live, limit), n).read
    ensures k in keys && live(k.id)
  {
    var before := ReadPages(Pager(keys, live, limit), n - 1);
    if k in before.read {
      ReadsLiveKeys(keys, live, limit, n - 1, k);
    } else {
      Sequences.FilterMember(Window(keys, before.offset, limit), (k: Key) => live(k.id), k);
    }
  }

  lemma WindowExtends(keys: seq<Key>, limit: int, o: nat, window: seq<Key>)
    requires o <= |keys| && window == Window(keys, o, limit)
    ensures o + |window| <= |keys| && keys[..o] + window == keys[..o + |window|]
    ensures o < |keys| ==> window != []
    ensures forall k | k in window :: k in keys
  {
  }

  // With every key live each page is the whole window.
  lemma WholePage(keys: seq<Key>, live: string -> bool, limit: int, o: nat, window: seq<Key>)
    requires window == Window(keys, o, limit) && forall k | k in window :: live(k.id)
    ensures Pager(keys, live, limit)(o).items == window
  {
    Sequences.FilterSize(window, (k: Key) => live(k.id));
  }

  // Each page is the part of the keys behind its offset, and not empty while keys are left.
  predicate Continues(keys: seq<Key>, o: nat, p: Page)
    requires o <= |keys|
  {
    && o + |p.items| <= |keys| && keys[..o] + p.items == keys[..o + |p.items|]
    && (o < |keys| ==> p.items != [])
    && (p.hasMore <==> o + |p.items| < |keys|)
  }

  ghost predicate Whole(keys: seq<Key>, page: nat -> Page) {
    forall o: nat | o <= |keys| :: Continues(keys, o, page(o))
  }

  lemma LivePagesAreWhole(keys: seq<Key>, live: string -> bool, limit: int)
    requires AllLive(keys, live)
    ensures Whole(keys, Pager(keys, live, limit))
  {
    forall o: nat | o <= |keys| ensures Continues(keys, o, Pager(keys, live, limit)(o)) {
      var window := Window(keys, o, limit);
      WindowExtends(keys, limit, o, window);
      WholePage(keys, live, limit, o, window);
    }
  }

  lemma {:induction false} WholeReading(keys: seq<Key>, page: nat -> Page, n: nat)
    requires Whole(keys, page)
    ensures var r := ReadPages(page, n);
      && r.offset <= |keys| && r.read == keys[..r.offset] && (r.more ==> r.offset >= n)
      && (!r.more ==> r.offset == |keys|)
  {
    if n > 0 {
      WholeReading(keys, page, n - 1);
      var r := ReadPages(page, n - 1);
      assert Continues(keys, r.offset, page(r.offset));
    }
  }

  predicate Done(keys: seq<Key>, live: string -> bool, r: Reading) { !r.more && r.read == LiveOf(keys, live) }

  // The reader ends, and what it read are the live keys, each once and in order.
  ghost predicate ReadsExactly(keys: seq<Key>, live: string -> bool, limit: int) {
    exists n: nat :: Done(keys, live, ReadPages(Pager(keys, live, limit), n))
  }

  /**
    A reader who continues behind the items it received reads exactly the live keys if and
    only if every key is live.
   */
  lemma FollowingReadsExactly(keys: seq<Key>, live: string -> bool, limit: int)
    ensures ReadsExactly(keys, live, limit) <==> AllLive(keys, live)
  {
    Sequences.FilterSize(keys, (k: Key) => live(k.id));
    if AllLive(keys, live) {
      LivePagesAreWhole(keys, live, limit);
      WholeReading(keys, Pager(keys, live, limit), |keys| + 1);
      assert keys[..|keys|] == keys;
      assert Done(keys, live, ReadPages(Pager(keys, live, limit), |keys| + 1));
    }
    if n: nat :| Done(keys, live, ReadPages(Pager(keys, live, limit), n)) { ReadingCounts(keys, live, limit, n); }
  }

  /** If it ends although some key is not live, it read a key twice. */
  lemma EndsWithRepeat(keys: seq<Key>, live: string -> bool, limit: int, n: nat)
    requires !ReadPages(Pager(keys, live, limit), n).more && !AllLive(keys, live)
    ensures !Sequences.Distinct(ReadPages(Pager(keys, live, limit), n).read)
  {
    var r, p := ReadPages(Pager(keys, live, limit), n), (k: Key) => live(k.id);
    ReadingCounts(keys, live, limit, n);
    Sequences.FilterSize(keys, p);
    forall k | k in r.read ensures k in LiveOf(keys, live) {
      ReadsLiveKeys(keys, live, limit, n, k);
      Sequences.FilterMember(keys, p, k);
    }
    if Sequences.Distinct(r.read) { Sequences.DistinctFits(r.read, LiveOf(keys, live)); }
  }

  /** A page changes nothing, with keys left, exactly when its window holds no live key. */
  lemma StuckTurn(keys: seq<Key>, live: string -> bool, limit: int, r: Reading)
    requires r.more && r.offset < |keys|
    ensures Turn(Pager(keys, live, limit), r) == r <==> LiveOf(Window(keys, r.offset, limit), live) == []
  {
  }

  /** Such a window stops the reader for good, with more announced. */
  lemma {:induction false} StuckForGood(page: nat -> Page, n: nat, m: nat)
    requires Turn(page, ReadPages(page, n)) == ReadPages(page, n)
    ensures ReadPages(page, n + m) == ReadPages(page, n)
  {
    if m > 0 { StuckForGood(page, n, m - 1); }
  }

  /** Three keys on one page, the second gone: the last one is read twice. */
  lemma GoneKeyRepeatsAnother(a: Key, b: Key, c: Key, live: string -> bool, limit: int)
    requires PageSize(limit) >= 3 && live(a.id) && !live(b.id) && live(c.id)
    ensures ReadPages(Pager([a, b, c], live, limit), 2) == Reading(3, [a, c, c], false)
  {
    var keys, p := [a, b, c], (k: Key) => live(k.id);
    assert Window(keys, 0, limit) == [a] + [b] + [c];
    Sequences.FilterConcat([a] + [b], [c], p);
    Sequences.FilterConcat([a], [b], p);
    assert Sequences.Filter([a], p) == [a] && Sequences.Filter([b], p) == [] && Sequences.Filter([c], p) == [c];
    assert Window(keys, 2, limit) == [c];
    TwoPages(Pager(keys, live, limit), Page(0, 3, [a, c], true), Page(2, 3, [c], false));
  }

  lemma TwoPages(page: nat -> Page, first: Page, second: Page)
    requires page(0) == first && first.hasMore && page(|first.items|) == second
    ensures ReadPages(page, 2) ==
            Reading(|first.items| + |second.items|, first.items + second.items, second.hasMore)
  {
    assert ReadPages(page, 0) == Reading(0, [], true);
    assert ReadPages(page, 1) == Reading(|first.items|, first.items, true);
  }
}
