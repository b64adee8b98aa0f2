/**
  When a cache layer of engine/cache/cache.go must hit and when it must miss, and in which
  order it forgets, told by the operations performed on it.
 */
module CacheHistory {
  import opened Prelude
  import opened RecencyList

  function After(o: Options, maxEntries: int, ops: seq<Op>): Layer { Run(o, Empty(maxEntries), ops) }

  function Answer(o: Options, s: Layer, key: string, gen: nat, now: int): Option<Value> {
    Apply(o, s, Get(key, gen, now)).1
  }

  // The stored value is still within its TTL, if the layer has one.
  predicate Live(o: Options, x: Stored, now: int) { o.ttl > 0 ==> now <= x.at + o.ttl }

  /**
    A Get answers v exactly when the key is still held and its last accepted Put stored v under
    the asked generation, no longer ago than the TTL.
   */
  lemma HitsExactly(o: Options, maxEntries: int, ops: seq<Op>, key: string, gen: nat, now: int, v: Value)
    ensures var x := LastPut(o, Empty(maxEntries), ops, key);
      Answer(o, After(o, maxEntries, ops), key, gen, now) == Some(v) <==>
        && Holds(After(o, maxEntries, ops).list, key)
        && x.Some? && x.value.value == v && x.value.gen == gen && Live(o, x.value, now)
  {
    var s := After(o, maxEntries, ops);
    var e := Lookup(s.list, key);
    if e.Some? { EntriesAreLastPuts(o, maxEntries, ops, e.value); }
  }

  /** After its TTL a stored value is never answered again, under any generation. */
  lemma ExpiredNeverHits(o: Options, maxEntries: int, ops: seq<Op>, key: string, gen: nat, now: int)
    requires o.ttl > 0 && LastPut(o, Empty(maxEntries), ops, key).Some?
    requires now > LastPut(o, Empty(maxEntries), ops, key).value.at + o.ttl
    ensures Answer(o, After(o, maxEntries, ops), key, gen, now) == None
  {
    var r := Answer(o, After(o, maxEntries, ops), key, gen, now);
    if r.Some? { HitsExactly(o, maxEntries, ops, key, gen, now, r.value); }
  }

  // ---- What is held ----

  // The operations that take a held key out of the layer, apart from evictions.
  predicate Forgets(o: Options, s: Layer, op: Op, key: string) {
    match op
    case Get(k, gen, now) => k == key && Apply(o, s, op).1 == None
    case Invalidate(k) => k == key
    case Clear => true
    case _ => false
  }

  predicate Resizes(op: Op) { op.Put? || op.SetMaxEntries? }

  lemma HoldsMember(list: seq<Entry>, key: string)
    ensures Holds(list, key) <==> exists e :: e in list && e.key == key
  {
    if e :| e in list && e.key == key {
      var i :| 0 <= i < |list| && list[i] == e;
      assert list[i].key == key;
    }
    if Holds(list, key) {
      var i :| 0 <= i < |list| && list[i].key == key;
      assert list[i] in list;
    }
  }

  lemma DropHolds(list: seq<Entry>, drop: string, key: string)
    ensures Holds(Drop(list, drop), key) <==> Holds(list, key) && key != drop
  {
    DropMembers(list, drop);
    HoldsMember(list, key);
    HoldsMember(Drop(list, drop), key);
  }

  lemma FrontHolds(e: Entry, list: seq<Entry>, key: string)
    ensures Holds([e] + list, key) <==> e.key == key || Holds(list, key)
  {
    HoldsMember([e] + list, key);
    HoldsMember(list, key);
    assert e in [e] + list;
  }

  /** An accepted Put leaves its key held, whatever has to be evicted for it. */
  lemma PutIsHeld(o: Options, s: Layer, op: Op)
    requires Accepted(s, op)
    ensures Holds(Apply(o, s, op).0.list, op.key)
  {
    var list := Apply(o, s, op).0.list;
    assert list[0].key == op.key;
  }

  /** Nothing but an accepted Put makes a key held. */
  lemma OnlyPutsBringIn(o: Options, s: Layer, op: Op, key: string)
    requires Holds(Apply(o, s, op).0.list, key) && !(Accepted(s, op) && op.key == key)
    ensures Holds(s.list, key)
  {
    var list := Apply(o, s, op).0.list;
    HoldsMember(list, key);
    HoldsMember(s.list, key);
    var e :| e in list && e.key == key;
    match op
    case Get(k, gen, now) => DropMembers(s.list, k);
    case Put(k, value, gen, now) => DropMembers(s.list, k);
    case Invalidate(k) => DropMembers(s.list, k);
    case _ =>
  }

  /** A missed, invalidated or cleared key is gone. */
  lemma ForgottenIsGone(o: Options, s: Layer, op: Op, key: string)
    requires Forgets(o, s, op, key)
    ensures !Holds(Apply(o, s, op).0.list, key)
  {
    DropHolds(s.list, key, key);
    var e := Lookup(s.list, key);
  }

  /** An operation that neither forgets the key nor can overflow the layer leaves it held. */
  lemma OthersKeep(o: Options, s: Layer, op: Op, key: string)
    requires Holds(s.list, key) && !Forgets(o, s, op, key) && !Resizes(op)
    ensures Holds(Apply(o, s, op).0.list, key)
  {
    match op
    case Get(k, gen, now) =>
      var e := Lookup(s.list, k);
      DropHolds(s.list, k, key);
      if e.Some? { FrontHolds(e.value, Drop(s.list, k), key); }
    case Invalidate(k) => DropHolds(s.list, k, key);
  }

  /** What was just stored is answered under its generation for the whole TTL, and then no more. */
  lemma PutThenGet(o: Options, maxEntries: int, ops: seq<Op>, put: Op, gen: nat, now: int)
    requires Accepted(After(o, maxEntries, ops), put)
    ensures Answer(o, After(o, maxEntries, ops + [put]), put.key, gen, now) ==
            if gen == put.gen && (o.ttl > 0 ==> now <= put.now + o.ttl) then Some(put.value) else None
  {
    var done := ops + [put];
    assert done[..|ops|] == ops;
    PutIsHeld(o, After(o, maxEntries, ops), put);
    HitsExactly(o, maxEntries, done, put.key, gen, now, put.value);
    var r := Answer(o, After(o, maxEntries, done), put.key, gen, now);
    if r.Some? { HitsExactly(o, maxEntries, done, put.key, gen, now, r.value); }
  }

  // ---- The order of forgetting ----

  // A use of a key: an accepted Put, or a Get that hits.
  predicate IsUse(o: Options, s: Layer, op: Op) { Accepted(s, op) || (op.Get? && Apply(o, s, op).1.Some?) }

  predicate Uses(o: Options, s: Layer, op: Op, key: string) { IsUse(o, s, op) && op.key == key }

  // The place of the last use of key in the history, from 1; 0 if there is none.
  function LastUse(o: Options, maxEntries: int, ops: seq<Op>, key: string): (n: nat)
    ensures n <= |ops|
  {
    if ops == [] then 0
    else
      var before, op := ops[..|ops| - 1], ops[|ops| - 1];
      if Uses(o, After(o, maxEntries, before), op, key) then |ops| else LastUse(o, maxEntries, before, key)
  }

  // Positions of a list ordered by a rank of their keys, highest first.
  ghost predicate Falling(list: seq<Entry>, rank: string -> int) {
    forall i, j | 0 <= i < j < |list| :: rank(list[i].key) > rank(list[j].key)
  }

  lemma {:induction false} DropFalls(list: seq<Entry>, key: string, rank: string -> int)
    requires Falling(list, rank)
    ensures Falling(Drop(list, key), rank)
    decreases |list|
  {
    if list != [] {
      var rest := Drop(list[1..], key);
      DropFalls(list[1..], key, rank);
      DropMembers(list[1..], key);
      forall j | 0 <= j < |rest| ensures rank(list[0].key) > rank(rest[j].key) {
        assert rest[j] in list[1..];
        var i :| 0 <= i < |list[1..]| && list[1..][i] == rest[j];
        assert list[i + 1] == rest[j];
      }
    }
  }

  // A new first entry, ranked above all, on top of the others.
  lemma FrontFalls(list: seq<Entry>, e: Entry, rank: string -> int, rank': string -> int, top: int)
    requires Falling(list, rank) && rank'(e.key) == top
    requires forall k :: k != e.key ==> rank'(k) == rank(k) < top
    ensures Falling([e] + Drop(list, e.key), rank')
  {
    var rest := Drop(list, e.key);
    DropFalls(list, e.key, rank);
    DropMembers(list, e.key);
    forall j | 0 <= j < |rest| ensures rest[j].key != e.key { assert rest[j] in rest; }
  }

  // Keys in a list, most recently used first.
  ghost predicate ByUse(o: Options, maxEntries: int, ops: seq<Op>, list: seq<Entry>) {
    forall i, j | 0 <= i < j < |list| ::
      LastUse(o, maxEntries, ops, list[i].key) > LastUse(o, maxEntries, ops, list[j].key)
  }

  // The list an operation leaves before anything is evicted.
  function Touched(o: Options, s: Layer, op: Op): seq<Entry> {
    match op
    case Put(key, _, _, _) => if s.maxEntries == 0 then s.list else [NewEntry(o, s.list, op)] + Drop(s.list, key)
    case SetMaxEntries(_) => s.list
    case _ => Apply(o, s, op).0.list
  }

  lemma RestIsEvicted(o: Options, s: Layer, op: Op)
    ensures Apply(o, s, op).0.list <= Touched(o, s, op)
  {
  }

  // Only the used key moves, to the front.
  lemma TouchedMoves(o: Options, s: Layer, op: Op)
    ensures var list := Touched(o, s, op);
      if IsUse(o, s, op) then
        |list| > 0 && list[0].key == op.key && list == [list[0]] + Drop(s.list, op.key)
      else list == s.list || list == [] || ((op.Get? || op.Invalidate?) && list == Drop(s.list, op.key))
  {
  }

  lemma LastUseMoves(o: Options, maxEntries: int, ops: seq<Op>, op: Op, key: string)
    ensures LastUse(o, maxEntries, ops + [op], key) ==
            if Uses(o, After(o, maxEntries, ops), op, key) then |ops| + 1 else LastUse(o, maxEntries, ops, key)
  {
    assert (ops + [op])[..|ops|] == ops;
  }

  lemma TouchedByUse(o: Options, maxEntries: int, ops: seq<Op>, op: Op)
    requires ByUse(o, maxEntries, ops, After(o, maxEntries, ops).list)
    ensures ByUse(o, maxEntries, ops + [op], Touched(o, After(o, maxEntries, ops), op))
  {
    var s := After(o, maxEntries, ops);
    var list := Touched(o, s, op);
    var rank := (k: string) => LastUse(o, maxEntries, ops, k) as int;
    var rank' := (k: string) => LastUse(o, maxEntries, ops + [op], k) as int;
    forall k ensures rank'(k) == if Uses(o, s, op, k) then |ops| + 1 else rank(k) {
      LastUseMoves(o, maxEntries, ops, op, k);
    }
    TouchedMoves(o, s, op);
    assert Falling(s.list, rank);
    if IsUse(o, s, op) {
      FrontFalls(s.list, list[0], rank, rank', |ops| + 1);
    } else if op.Get? || op.Invalidate? {
      DropFalls(s.list, op.key, rank);
    }
    assert Falling(list, rank');
  }

  lemma PrefixByUse(o: Options, maxEntries: int, ops: seq<Op>, short: seq<Entry>, list: seq<Entry>)
    requires ByUse(o, maxEntries, ops, list) && short <= list
    ensures ByUse(o, maxEntries, ops, short)
  {
    assert forall i | 0 <= i < |short| :: short[i] == list[i];
  }

  /** After any operations the layer holds its keys by last use, the most recent first. */
  lemma {:induction false} HeldByLastUse(o: Options, maxEntries: int, ops: seq<Op>)
    ensures ByUse(o, maxEntries, ops, After(o, maxEntries, ops).list)
    decreases |ops|
  {
    if ops != [] {
      var before, op := ops[..|ops| - 1], ops[|ops| - 1];
      var s := After(o, maxEntries, before);
      assert ops == before + [op];
      HeldByLastUse(o, maxEntries, before);
      TouchedByUse(o, maxEntries, before, op);
      RestIsEvicted(o, s, op);
      PrefixByUse(o, maxEntries, ops, Apply(o, s, op).0.list, Touched(o, s, op));
    }
  }

  lemma TouchedKeeps(o: Options, s: Layer, op: Op, key: string)
    requires Holds(s.list, key) && Resizes(op)
    ensures Holds(Touched(o, s, op), key)
  {
    if op.Put? && s.maxEntries > 0 {
      DropHolds(s.list, op.key, key);
      FrontHolds(NewEntry(o, s.list, op), Drop(s.list, op.key), key);
    }
  }

  /**
    Eviction is least recently used first: a key that a Put or a smaller bound pushes out was
    last used before every key that stays.
   */
  lemma EvictsLeastRecent(o: Options, maxEntries: int, ops: seq<Op>, op: Op, gone: string, kept: string)
    requires var s := After(o, maxEntries, ops);
      && Resizes(op) && Holds(s.list, gone) && !Holds(Apply(o, s, op).0.list, gone)
      && Holds(Apply(o, s, op).0.list, kept)
    ensures LastUse(o, maxEntries, ops + [op], gone) < LastUse(o, maxEntries, ops + [op], kept)
  {
    var s := After(o, maxEntries, ops);
    var all, left := Touched(o, s, op), Apply(o, s, op).0.list;
    HeldByLastUse(o, maxEntries, ops);
    TouchedByUse(o, maxEntries, ops, op);
    RestIsEvicted(o, s, op);
    TouchedKeeps(o, s, op, gone);
    var i :| 0 <= i < |left| && left[i].key == kept;
    var j :| 0 <= j < |all| && all[j].key == gone;
    assert forall k | 0 <= k < |left| :: left[k] == all[k];
    assert left[i] == all[i];
  }

  // ---- How much is evicted ----

  // A layer's content within its bounds; one entry is never too heavy.
  predicate Fits(s: Layer, maxBytes: int, list: seq<Entry>) {
    && (s.maxEntries == 0 || |list| <= s.maxEntries)
    && (maxBytes <= 0 || Bytes(list) <= maxBytes || |list| <= 1)
  }

  lemma {:induction false} KeptIsLongest(s: Layer, maxBytes: int, list: seq<Entry>, m: nat)
    requires Kept(s.maxEntries, maxBytes, list) < m <= |list|
    ensures !Fits(s, maxBytes, list[..m])
    decreases |list|
  {
    var init := list[..|list| - 1];
    if m < |list| {
      KeptIsLongest(s, maxBytes, init, m);
      assert init[..m] == list[..m];
    } else {
      assert list[..m] == list;
    }
  }

  lemma {:induction false} TailAt(list: seq<Entry>, n: nat, i: nat)
    requires n <= |list| && i < |list| - n
    ensures Tail(list, n)[i] == list[|list| - 1 - i].value
    decreases |list|
  {
    if i > 0 { TailAt(list[..|list| - 1], n, i - 1); }
  }

  // Reported behind what was reported before: the values of `all` from the oldest down to n.
  ghost predicate ReportedFrom(was: seq<Value>, now: seq<Value>, all: seq<Entry>, n: nat) {
    && |now| == |was| + |all| - n && was <= now
    && forall i | |was| <= i < |now| :: now[i] == all[|all| - 1 - (i - |was|)].value
  }

  // The first n of `all` are left, and the others reported if anyone listens.
  ghost predicate CutTo(o: Options, s: Layer, all: seq<Entry>, s': Layer, n: nat) {
    && n <= |all| && s'.list == all[..n]
    && if o.notifies then ReportedFrom(s.evicted, s'.evicted, all, n) else s'.evicted == s.evicted
  }

  lemma TailReports(was: seq<Value>, all: seq<Entry>, n: nat)
    requires n <= |all|
    ensures ReportedFrom(was, was + Tail(all, n), all, n)
  {
    var now := was + Tail(all, n);
    forall i | |was| <= i < |now| ensures now[i] == all[|all| - 1 - (i - |was|)].value { TailAt(all, n, i - |was|); }
  }

  lemma TrimmedCuts(o: Options, s: Layer, all: seq<Entry>)
    requires s.list == all
    ensures CutTo(o, s, all, Trimmed(o, s), Kept(s.maxEntries, o.maxBytes, all))
  {
    TailReports(s.evicted, all, Kept(s.maxEntries, o.maxBytes, all));
    assert s.evicted + [] == s.evicted;
  }

  /**
    A Put or a new bound evicts only as needed: what stays is the longest run of the most
    recent entries that fits, found from the oldest end, and each other is reported once.
   */
  lemma EvictsOnlyAsNeeded(o: Options, s: Layer, op: Op)
    requires Accepted(s, op) || op.SetMaxEntries?
    ensures var all, s' := Touched(o, s, op), Apply(o, s, op).0;
      exists n: nat :: CutTo(o, s, all, s', n) && Fits(s', o.maxBytes, all[..n])
                       && forall m: nat | n < m <= |all| :: !Fits(s', o.maxBytes, all[..m])
  {
    var all, s' := Touched(o, s, op), Apply(o, s, op).0;
    var full := s.(list := all, maxEntries := s'.maxEntries);
    var n := Kept(full.maxEntries, o.maxBytes, all);
    assert s' == Trimmed(o, full);
    TrimmedCuts(o, full, all);
    assert CutTo(o, s, all, s', n);
    forall m: nat | n < m <= |all| ensures !Fits(s', o.maxBytes, all[..m]) { KeptIsLongest(full, o.maxBytes, all, m); }
  }

  /** The entry bound is what SetMaxEntries last asked for, and never negative. */
  lemma BoundMoves(o: Options, s: Layer, op: Op)
    ensures Apply(o, s, op).0.maxEntries ==
            if op.SetMaxEntries? then if op.n >= 0 then op.n else 0 else s.maxEntries
  {
  }
}
