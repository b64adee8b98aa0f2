/**
  A cache layer as a plain recency list, newest entry first: what engine/cache/cache.go
  promises of every sequence of operations.
 */
module RecencyList {
  import opened Prelude

  // The layer never looks into a value.
  type Value = int

  datatype Entry = Entry(key: string, value: Value, weight: int, version: nat, expiresAt: Option<int>)

  // Weigh, MaxBytes, TTL and OnEvict of a layer; MaxEntries can change at run time.
  datatype Options = Options(weigh: Value -> int, maxBytes: int, ttl: int, notifies: bool)

  datatype Layer = Layer(
    maxEntries: nat,
    list: seq<Entry>,
    evicted: seq<Value>)       // the OnEvict calls, in order

  datatype Op =
    | Get(key: string, gen: nat, now: int)
    | Put(key: string, value: Value, gen: nat, now: int)
    | Invalidate(key: string)
    | Clear
    | SetMaxEntries(n: int)

  predicate Holds(list: seq<Entry>, key: string) {
    exists i :: 0 <= i < |list| && list[i].key == key
  }

  ghost predicate Distinct(list: seq<Entry>) {
    forall i, j | 0 <= i < j < |list| :: list[i].key != list[j].key
  }

  function Lookup(list: seq<Entry>, key: string): (r: Option<Entry>)
    ensures r.Some? <==> Holds(list, key)
    ensures r.Some? ==> r.value in list && r.value.key == key
  {
    if list == [] then None
    else if list[0].key == key then Some(list[0])
    else
      assert forall i | 1 <= i < |list| :: list[i] == list[1..][i - 1];
      Lookup(list[1..], key)
  }

  function Drop(list: seq<Entry>, key: string): seq<Entry> {
    if list == [] then []
    else if list[0].key == key then Drop(list[1..], key)
    else [list[0]] + Drop(list[1..], key)
  }

  lemma {:induction false} DropMembers(list: seq<Entry>, key: string)
    ensures forall e :: e in Drop(list, key) <==> e in list && e.key != key
    decreases |list|
  {
    if list != [] {
      DropMembers(list[1..], key);
      assert forall e :: e in list <==> e == list[0] || e in list[1..];
    }
  }

  function Bytes(list: seq<Entry>): int {
    if list == [] then 0 else Bytes(list[..|list| - 1]) + list[|list| - 1].weight
  }

  predicate Overflows(maxEntries: nat, maxBytes: int, list: seq<Entry>) {
    || (maxEntries > 0 && |list| > maxEntries)
    || (maxBytes > 0 && Bytes(list) > maxBytes && |list| > 1)
  }

  // How many of the newest entries survive evictOverflow.
  function Kept(maxEntries: nat, maxBytes: int, list: seq<Entry>): (n: nat)
    ensures n <= |list| && !Overflows(maxEntries, maxBytes, list[..n])
    ensures |list| > 0 ==> n > 0
  {
    if Overflows(maxEntries, maxBytes, list) then
      assert forall n | 0 <= n <= |list| - 1 :: list[..|list| - 1][..n] == list[..n];
      Kept(maxEntries, maxBytes, list[..|list| - 1])
    else
      assert list[..|list|] == list;
      |list|
  }

  // The values behind position n, oldest first.
  function Tail(list: seq<Entry>, n: nat): (r: seq<Value>)
    requires n <= |list|
    ensures |r| == |list| - n
    decreases |list|
  {
    if |list| == n then [] else [list[|list| - 1].value] + Tail(list[..|list| - 1], n)
  }

  function Calls(o: Options, values: seq<Value>): seq<Value> {
    if o.notifies then values else []
  }

  predicate Stale(e: Entry, gen: nat, now: int) {
    (e.expiresAt.Some? && now > e.expiresAt.value) || e.version != gen
  }

  function Trimmed(o: Options, s: Layer): Layer {
    var n := Kept(s.maxEntries, o.maxBytes, s.list);
    s.(list := s.list[..n], evicted := s.evicted + Calls(o, Tail(s.list, n)))
  }

  function Removed(o: Options, s: Layer, e: Entry): Layer {
    s.(list := Drop(s.list, e.key), evicted := s.evicted + Calls(o, [e.value]))
  }

  function NewEntry(o: Options, list: seq<Entry>, op: Op): Entry
    requires op.Put?
  {
    var prior := Lookup(list, op.key);
    Entry(op.key, op.value, o.weigh(op.value), op.gen,
          if o.ttl > 0 then Some(op.now + o.ttl) else if prior.Some? then prior.value.expiresAt else None)
  }

  // One operation on the recency list, and what Get answers.
  function Apply(o: Options, s: Layer, op: Op): (Layer, Option<Value>) {
    match op
    case Get(key, gen, now) =>
      var e := Lookup(s.list, key);
      if e.None? then (s, None)
      else if Stale(e.value, gen, now) then (Removed(o, s, e.value), None)
      else (s.(list := [e.value] + Drop(s.list, key)), Some(e.value.value))
    case Put(key, _, _, _) =>
      if s.maxEntries == 0 then (s, None)
      else (Trimmed(o, s.(list := [NewEntry(o, s.list, op)] + Drop(s.list, key))), None)
    case Invalidate(key) =>
      var e := Lookup(s.list, key);
      (if e.None? then s else Removed(o, s, e.value), None)
    case Clear => (s.(list := [], evicted := s.evicted + Calls(o, Values(s.list))), None)
    case SetMaxEntries(n) => (Trimmed(o, s.(maxEntries := if n < 0 then 0 else n)), None)
  }

  function Values(list: seq<Entry>): (r: seq<Value>)
    ensures |r| == |list|
  {
    if list == [] then [] else [list[0].value] + Values(list[1..])
  }

  function Run(o: Options, s: Layer, ops: seq<Op>): Layer {
    if ops == [] then s else Apply(o, Run(o, s, ops[..|ops| - 1]), ops[|ops| - 1]).0
  }

  // ---- Bounds ----

  ghost predicate NonNegative(list: seq<Entry>) {
    forall e | e in list :: e.weight >= 0
  }

  // What holds after every operation.
  ghost predicate Bounded(o: Options, s: Layer) {
    Distinct(s.list) && NonNegative(s.list) && !Overflows(s.maxEntries, o.maxBytes, s.list)
  }

  lemma {:induction false} BytesAppend(a: seq<Entry>, b: seq<Entry>)
    ensures Bytes(a + b) == Bytes(a) + Bytes(b)
    decreases |b|
  {
    if b == [] {
      assert a + b == a;
    } else {
      BytesAppend(a, b[..|b| - 1]);
      assert (a + b)[..|a + b| - 1] == a + b[..|b| - 1];
    }
  }

  lemma {:induction false} DropAbsent(list: seq<Entry>, key: string)
    requires !Holds(list, key)
    ensures Drop(list, key) == list
    decreases |list|
  {
    if list != [] {
      assert list[0].key != key;
      assert !Holds(list[1..], key) by {
        forall i | 0 <= i < |list[1..]| ensures list[1..][i].key != key { assert list[1..][i] == list[i + 1]; }
      }
      DropAbsent(list[1..], key);
    }
  }

  // With distinct keys, dropping a key removes one position.
  lemma {:induction false} DropAt(list: seq<Entry>, key: string, i: nat)
    requires Distinct(list) && i < |list| && list[i].key == key
    ensures Drop(list, key) == list[..i] + list[i + 1..]
    ensures Lookup(list, key) == Some(list[i])
    decreases |list|
  {
    var rest := list[1..];
    if i == 0 {
      assert !Holds(rest, key) by {
        forall j | 0 <= j < |rest| ensures rest[j].key != key { assert rest[j] == list[j + 1]; }
      }
      DropAbsent(rest, key);
    } else {
      assert rest[i - 1] == list[i];
      assert Distinct(rest);
      DropAt(rest, key, i - 1);
      assert [list[0]] + (rest[..i - 1] + rest[i..]) == list[..i] + list[i + 1..];
    }
  }

  lemma BytesParts(list: seq<Entry>, a: seq<Entry>, e: Entry, b: seq<Entry>)
    requires list == a + [e] + b
    ensures Bytes(a + b) == Bytes(list) - e.weight
  {
    BytesAppend(a, b);
    BytesAppend(a + [e], b);
    assert (a + [e])[..|a|] == a;
  }

  lemma BytesWithout(list: seq<Entry>, i: nat)
    requires i < |list|
    ensures Bytes(list[..i] + list[i + 1..]) == Bytes(list) - list[i].weight
  {
    BytesParts(list, list[..i], list[i], list[i + 1..]);
  }

  // Size and weight after dropping a key.
  lemma DropSize(list: seq<Entry>, key: string)
    requires Distinct(list)
    ensures Distinct(Drop(list, key))
    ensures match Lookup(list, key)
      case None => Drop(list, key) == list
      case Some(e) => |Drop(list, key)| == |list| - 1 && Bytes(Drop(list, key)) == Bytes(list) - e.weight
  {
    if Holds(list, key) {
      var i :| 0 <= i < |list| && list[i].key == key;
      DropAt(list, key, i);
      BytesWithout(list, i);
    } else {
      DropAbsent(list, key);
    }
  }

  // ---- Every operation keeps the bounds ----

  lemma RemovedKeepsBounds(o: Options, s: Layer, e: Entry)
    requires Bounded(o, s) && Lookup(s.list, e.key) == Some(e)
    ensures Bounded(o, Removed(o, s, e))
  {
    DropSize(s.list, e.key);
    DropMembers(s.list, e.key);
  }

  lemma TrimmedKeepsBounds(o: Options, s: Layer)
    requires Distinct(s.list) && NonNegative(s.list)
    ensures Bounded(o, Trimmed(o, s))
  {
  }

  lemma FrontKeepsDistinct(list: seq<Entry>, e: Entry)
    requires Distinct(list)
    ensures Distinct([e] + Drop(list, e.key))
  {
    var rest := Drop(list, e.key);
    DropSize(list, e.key);
    DropMembers(list, e.key);
    forall i | 0 <= i < |rest| ensures rest[i].key != e.key { assert rest[i] in rest; }
  }

  lemma FrontKeepsWeights(list: seq<Entry>, e: Entry)
    requires NonNegative(list) && e.weight >= 0
    ensures NonNegative([e] + Drop(list, e.key))
  {
    DropMembers(list, e.key);
  }

  lemma FrontKeepsSize(list: seq<Entry>, e: Entry)
    requires Distinct(list) && Lookup(list, e.key) == Some(e)
    ensures |[e] + Drop(list, e.key)| == |list| && Bytes([e] + Drop(list, e.key)) == Bytes(list)
  {
    DropSize(list, e.key);
    BytesAppend([e], Drop(list, e.key));
  }

  lemma ApplyKeepsBounds(o: Options, s: Layer, op: Op)
    requires Bounded(o, s) && Weighs(o)
    ensures Bounded(o, Apply(o, s, op).0)
  {
    match op
    case Get(key, gen, now) =>
      var e := Lookup(s.list, key);
      if e.Some? {
        RemovedKeepsBounds(o, s, e.value);
        FrontKeepsDistinct(s.list, e.value);
        FrontKeepsWeights(s.list, e.value);
        FrontKeepsSize(s.list, e.value);
      }
    case Put(key, value, gen, now) =>
      var e := NewEntry(o, s.list, op);
      FrontKeepsDistinct(s.list, e);
      FrontKeepsWeights(s.list, e);
      TrimmedKeepsBounds(o, s.(list := [e] + Drop(s.list, key)));
    case Invalidate(key) =>
      var e := Lookup(s.list, key);
      if e.Some? { RemovedKeepsBounds(o, s, e.value); }
    case Clear =>
    case SetMaxEntries(n) =>
      TrimmedKeepsBounds(o, s.(maxEntries := if n < 0 then 0 else n));
  }

  function Empty(maxEntries: int): Layer {
    Layer(if maxEntries < 0 then 0 else maxEntries, [], [])
  }

  /**
    After any operations keys are distinct and a positive entry bound holds; and if weights
    are not negative, the byte bound holds or at most one entry is left.
   */
  lemma {:induction false} AlwaysBounded(o: Options, maxEntries: int, ops: seq<Op>)
    ensures var s := Run(o, Empty(maxEntries), ops);
      && Distinct(s.list)
      && (s.maxEntries > 0 ==> |s.list| <= s.maxEntries)
      && (Weighs(o) && o.maxBytes > 0 ==> Bytes(s.list) <= o.maxBytes || |s.list| <= 1)
      && (Weighs(o) ==> Bounded(o, s))
    decreases |ops|
  {
    if ops != [] {
      var before, op := Run(o, Empty(maxEntries), ops[..|ops| - 1]), ops[|ops| - 1];
      AlwaysBounded(o, maxEntries, ops[..|ops| - 1]);
      ApplyKeepsCount(o, before, op);
      if Weighs(o) { ApplyKeepsBounds(o, before, op); }
    }
  }

  ghost predicate Weighs(o: Options) { forall v :: o.weigh(v) >= 0 }

  ghost predicate Counted(s: Layer) {
    Distinct(s.list) && (s.maxEntries > 0 ==> |s.list| <= s.maxEntries)
  }

  // The entry bound does not depend on weights.
  lemma ApplyKeepsCount(o: Options, s: Layer, op: Op)
    requires Counted(s)
    ensures Counted(Apply(o, s, op).0)
  {
    match op
    case Get(key, gen, now) =>
      DropSize(s.list, key);
      var e := Lookup(s.list, key);
      if e.Some? { FrontKeepsDistinct(s.list, e.value); }
    case Put(key, value, gen, now) => FrontKeepsDistinct(s.list, NewEntry(o, s.list, op));
    case Invalidate(key) => DropSize(s.list, key);
    case _ =>
  }

  // The entry an operation takes out without trimming afterwards: an invalidated one, or a
  // stale one a Get meets.
  function TakenOut(s: Layer, op: Op): Option<Entry> {
    match op
    case Invalidate(key) => Lookup(s.list, key)
    case Get(key, gen, now) =>
      var e := Lookup(s.list, key);
      if e.Some? && Stale(e.value, gen, now) then e else None
    case _ => None
  }

  lemma TakenOutIsDropped(o: Options, s: Layer, op: Op)
    requires Distinct(s.list) && TakenOut(s, op).Some?
    ensures var e, after := TakenOut(s, op).value, Apply(o, s, op).0;
      && after.maxEntries == s.maxEntries && |after.list| == |s.list| - 1
      && Bytes(after.list) == Bytes(s.list) - e.weight
  {
    var e := TakenOut(s, op).value;
    var i :| 0 <= i < |s.list| && s.list[i] == e;
    DropAt(s.list, e.key, i);
    BytesWithout(s.list, i);
  }

  /**
    When an operation breaks a byte bound that held: exactly when it takes out an entry whose
    negative weight is greater than the room left, and at least two entries stay.
   */
  lemma ByteBoundBreaksExactly(o: Options, s: Layer, op: Op)
    requires Counted(s) && !Overflows(s.maxEntries, o.maxBytes, s.list)
    ensures var after := Apply(o, s, op).0;
      Overflows(after.maxEntries, o.maxBytes, after.list) <==>
        && o.maxBytes > 0 && TakenOut(s, op).Some? && |s.list| > 2
        && -TakenOut(s, op).value.weight > o.maxBytes - Bytes(s.list)
  {
    if TakenOut(s, op).Some? {
      TakenOutIsDropped(o, s, op);
    } else if op.Get? {
      var e := Lookup(s.list, op.key);
      if e.Some? { FrontKeepsSize(s.list, e.value); }
    }
  }

  const SIGNED := Options((v: Value) => v, 5, 0, false)

  // Three entries of weights 4, -3 and 4, and then without the second.
  function SignedRun(): seq<Op> {
    [Put("a", 4, 0, 0)] + [Put("b", -3, 0, 0)] + [Put("c", 4, 0, 0)] + [Invalidate("b")]
  }

  /** A run that breaks the byte bound: two entries of 8 bytes under a bound of 5. */
  lemma SignedRunOverflows()
    ensures Overflows(8, SIGNED.maxBytes, Run(SIGNED, Empty(8), SignedRun()).list)
  {
    var ops := [Put("a", 4, 0, 0)] + [Put("b", -3, 0, 0)] + [Put("c", 4, 0, 0)];
    SignedPuts();
    var s := Run(SIGNED, Empty(8), ops);
    RunSnoc(SIGNED, Empty(8), ops, Invalidate("b"));
    assert s.list[1].key == "b" && Lookup(s.list, "b") == Some(s.list[1]);
    ByteBoundBreaksExactly(SIGNED, s, Invalidate("b"));
  }

  function Signed(key: string, v: int): Entry { Entry(key, v, v, 0, None) }

  lemma SignedPuts()
    ensures var s := Run(SIGNED, Empty(8), [Put("a", 4, 0, 0)] + [Put("b", -3, 0, 0)] + [Put("c", 4, 0, 0)]);
      && s == Layer(8, [Signed("c", 4), Signed("b", -3), Signed("a", 4)], [])
      && Bytes(s.list) == 5 && Counted(s)
  {
    var a, b, c := Put("a", 4, 0, 0), Put("b", -3, 0, 0), Put("c", 4, 0, 0);
    var l1, l2 := [Signed("a", 4)], [Signed("b", -3), Signed("a", 4)];
    assert [] + [a] == [a];
    RunSnoc(SIGNED, Empty(8), [], a);
    FrontPut(Empty(8), "a", 4);
    RunSnoc(SIGNED, Empty(8), [a], b);
    BytesOne(Signed("a", 4));
    BytesMore(Signed("b", -3), l1);
    FrontPut(Layer(8, l1, []), "b", -3);
    RunSnoc(SIGNED, Empty(8), [a] + [b], c);
    BytesMore(Signed("c", 4), l2);
    FrontPut(Layer(8, l2, []), "c", 4);
  }

  lemma RunSnoc(o: Options, s: Layer, ops: seq<Op>, op: Op)
    ensures Run(o, s, ops + [op]) == Apply(o, Run(o, s, ops), op).0
  {
    assert (ops + [op])[..|ops|] == ops;
  }

  lemma BytesOne(e: Entry)
    ensures Bytes([e]) == e.weight
  {
    assert [e][..0] == [];
  }

  lemma BytesMore(e: Entry, list: seq<Entry>)
    ensures Bytes([e] + list) == e.weight + Bytes(list)
  {
    BytesAppend([e], list);
    BytesOne(e);
  }

  // A new key that fits goes to the front.
  lemma FrontPut(s: Layer, key: string, v: int)
    requires s.maxEntries == 8 && |s.list| < 8 && !Holds(s.list, key) && v + Bytes(s.list) <= 5
    ensures Apply(SIGNED, s, Put(key, v, 0, 0)).0 == s.(list := [Signed(key, v)] + s.list)
  {
    var list := [Signed(key, v)] + s.list;
    DropAbsent(s.list, key);
    BytesMore(Signed(key, v), s.list);
    assert list[..|list|] == list && Tail(list, |list|) == [];
  }

  /** A bound of zero evicts nothing that fits the byte bound, and then drops every Put. */
  lemma ZeroBoundFreezes(o: Options, s: Layer, op: Op)
    requires !Overflows(0, o.maxBytes, s.list) && op.Put?
    ensures var z := Apply(o, s, SetMaxEntries(0)).0;
      z.list == s.list && z.evicted == s.evicted && Apply(o, z, op).0 == z
  {
    assert s.list[..|s.list|] == s.list && Tail(s.list, |s.list|) == [];
  }

  // ---- A hit returns the last accepted Put ----

  predicate Accepted(s: Layer, op: Op) { op.Put? && s.maxEntries > 0 }

  // What an accepted Put stored, and when.
  datatype Stored = Stored(value: Value, gen: nat, at: int)

  // The last Put of key that the layer accepted.
  function LastPut(o: Options, s0: Layer, ops: seq<Op>, key: string): Option<Stored> {
    if ops == [] then None
    else
      var before, op := ops[..|ops| - 1], ops[|ops| - 1];
      if Accepted(Run(o, s0, before), op) && op.key == key then Some(Stored(op.value, op.gen, op.now))
      else LastPut(o, s0, before, key)
  }

  // An entry that holds what was stored, and lives for the TTL if there is one.
  predicate Carries(o: Options, e: Entry, x: Stored) {
    && e.value == x.value && e.version == x.gen && e.weight == o.weigh(x.value)
    && e.expiresAt == if o.ttl > 0 then Some(x.at + o.ttl) else None
  }

  predicate Undated(o: Options, list: seq<Entry>) { o.ttl <= 0 ==> forall e | e in list :: e.expiresAt == None }

  // Nothing but an accepted Put brings in an entry.
  lemma EntriesComeFromPuts(o: Options, s: Layer, op: Op, e: Entry)
    requires Undated(o, s.list) && e in Apply(o, s, op).0.list
    ensures if Accepted(s, op) && op.key == e.key then Carries(o, e, Stored(op.value, op.gen, op.now))
            else e in s.list
  {
    match op
    case Get(key, gen, now) => DropMembers(s.list, key);
    case Put(key, value, gen, now) => DropMembers(s.list, key);
    case Invalidate(key) => DropMembers(s.list, key);
    case _ =>
  }

  lemma {:induction false} AlwaysUndated(o: Options, maxEntries: int, ops: seq<Op>)
    ensures Undated(o, Run(o, Empty(maxEntries), ops).list)
    decreases |ops|
  {
    if ops != [] {
      var before, op := ops[..|ops| - 1], ops[|ops| - 1];
      var s := Run(o, Empty(maxEntries), before);
      AlwaysUndated(o, maxEntries, before);
      forall e | e in Apply(o, s, op).0.list && o.ttl <= 0 ensures e.expiresAt == None {
        EntriesComeFromPuts(o, s, op, e);
      }
    }
  }

  lemma {:induction false} EntriesAreLastPuts(o: Options, maxEntries: int, ops: seq<Op>, e: Entry)
    requires e in Run(o, Empty(maxEntries), ops).list
    ensures LastPut(o, Empty(maxEntries), ops, e.key).Some?
    ensures Carries(o, e, LastPut(o, Empty(maxEntries), ops, e.key).value)
    decreases |ops|
  {
    if ops != [] {
      var before, op := ops[..|ops| - 1], ops[|ops| - 1];
      var s := Run(o, Empty(maxEntries), before);
      AlwaysUndated(o, maxEntries, before);
      EntriesComeFromPuts(o, s, op, e);
      if !(Accepted(s, op) && op.key == e.key) { EntriesAreLastPuts(o, maxEntries, before, e); }
    }
  }

  /** A hit answers with the last accepted Put of that key, stored under that generation. */
  lemma HitIsLastPut(o: Options, maxEntries: int, ops: seq<Op>, key: string, gen: nat, now: int, v: Value)
    requires Apply(o, Run(o, Empty(maxEntries), ops), Get(key, gen, now)).1 == Some(v)
    ensures exists t :: LastPut(o, Empty(maxEntries), ops, key) == Some(Stored(v, gen, t))
  {
    var e := Lookup(Run(o, Empty(maxEntries), ops).list, key).value;
    EntriesAreLastPuts(o, maxEntries, ops, e);
  }

  // ---- Conservation of stored values ----

  function One(b: bool): nat { if b then 1 else 0 }

  predicate Overwrites(s: Layer, op: Op) { Accepted(s, op) && Holds(s.list, op.key) }

  lemma StepConserves(o: Options, s: Layer, op: Op)
    requires o.notifies && Distinct(s.list)
    ensures var s' := Apply(o, s, op).0;
      |s'.list| + |s'.evicted| + One(Overwrites(s, op)) == |s.list| + |s.evicted| + One(Accepted(s, op))
  {
    match op
    case Get(key, gen, now) => DropSize(s.list, key);
    case Put(key, value, gen, now) => DropSize(s.list, key);
    case Invalidate(key) => DropSize(s.list, key);
    case _ =>
  }

  function TotalAccepted(o: Options, s0: Layer, ops: seq<Op>): nat {
    if ops == [] then 0
    else TotalAccepted(o, s0, ops[..|ops| - 1]) + One(Accepted(Run(o, s0, ops[..|ops| - 1]), ops[|ops| - 1]))
  }

  function TotalOverwrites(o: Options, s0: Layer, ops: seq<Op>): nat {
    if ops == [] then 0
    else TotalOverwrites(o, s0, ops[..|ops| - 1]) + One(Overwrites(Run(o, s0, ops[..|ops| - 1]), ops[|ops| - 1]))
  }

  /** Every accepted Put is live, was handed to OnEvict, or was overwritten in place. */
  lemma {:induction false} PutsAreAccountedFor(o: Options, maxEntries: int, ops: seq<Op>)
    requires o.notifies
    ensures var s := Run(o, Empty(maxEntries), ops);
      && Distinct(s.list)
      && TotalAccepted(o, Empty(maxEntries), ops)
           == |s.list| + |s.evicted| + TotalOverwrites(o, Empty(maxEntries), ops)
    decreases |ops|
  {
    if ops != [] {
      var before, op := ops[..|ops| - 1], ops[|ops| - 1];
      PutsAreAccountedFor(o, maxEntries, before);
      StepConserves(o, Run(o, Empty(maxEntries), before), op);
      AlwaysBounded(o, maxEntries, ops);
    }
  }
}
