/**
  The persisted manual order of configurations (engine/app/configorderservice.go).
 */
module ManualOrder {
  import opened Prelude
  import opened Sequences

  type Id = string

  const ORDER_MAX := 50_000

  // The stored order without ids that left the store.
  function Prune(order: seq<Id>, existing: seq<Id>): seq<Id> { Filter(order, id => id in existing) }

  // Then the ids the order does not know, in store order.
  function Complete(order: seq<Id>, existing: seq<Id>): seq<Id> {
    var pruned := Prune(order, existing);
    pruned + Filter(existing, id => id !in pruned)
  }

  function Others(s: seq<Id>, id: Id): seq<Id> { Filter(s, x => x != id) }

  function Clamp(to: int, n: nat): nat
    requires n > 0
  {
    if to < 0 then 0 else if to >= n then n - 1 else to
  }

  // ---- Completing the order ----

  lemma PruneMember(order: seq<Id>, existing: seq<Id>, x: Id)
    ensures x in Prune(order, existing) <==> x in order && x in existing
  {
    FilterMember(order, id => id in existing, x);
  }

  /** The completed order names exactly the stored ids. */
  lemma CompleteMembers(order: seq<Id>, existing: seq<Id>, x: Id)
    ensures x in Complete(order, existing) <==> x in existing
  {
    var pruned := Prune(order, existing);
    PruneMember(order, existing, x);
    FilterMember(existing, id => id !in pruned, x);
  }

  lemma ConcatDistinct(a: seq<Id>, b: seq<Id>)
    requires Distinct(b) && forall x | x in b :: x !in a
    ensures Distinct(a + b) <==> Distinct(a)
  {
    if Distinct(a) {
      forall i, j | 0 <= i < j < |a + b| ensures (a + b)[i] != (a + b)[j] {
        if i < |a| <= j { assert b[j - |a|] in b; }
      }
    } else {
      var i, j :| 0 <= i < j < |a| && a[i] == a[j];
      assert (a + b)[i] == (a + b)[j];
    }
  }

  /** It repeats an id exactly when what is left of the stored order does. */
  lemma CompleteDistinct(order: seq<Id>, existing: seq<Id>)
    requires Distinct(existing)
    ensures Distinct(Complete(order, existing)) <==> Distinct(Prune(order, existing))
  {
    var pruned := Prune(order, existing);
    var rest := Filter(existing, id => id !in pruned);
    FilterDistinct(existing, id => id !in pruned);
    forall x | x in rest ensures x !in pruned { FilterMember(existing, id => id !in pruned, x); }
    ConcatDistinct(pruned, rest);
  }

  // ---- Moving ----

  lemma OthersSkips(a: seq<Id>, b: seq<Id>, id: Id)
    ensures Others(a + [id] + b, id) == Others(a + b, id)
  {
    var p := (x: Id) => x != id;
    FilterConcat(a + [id], b, p);
    FilterConcat(a, [id], p);
    FilterConcat(a, b, p);
    assert Filter([id], p) == [];
  }

  /** A move puts the id at the index, keeps the others in order, and permutes. */
  lemma MoveRearranges(s: seq<Id>, from: nat, to: nat)
    requires from < |s| && to < |s|
    ensures var moved := With(Without(s, from), to, s[from]);
      && moved[to] == s[from]
      && multiset(moved) == multiset(s)
      && Others(moved, s[from]) == Others(s, s[from])
  {
    var id, rest := s[from], Without(s, from);
    WithoutPermutes(s, from);
    WithPermutes(rest, to, id);
    OthersSkips(rest[..to], rest[to..], id);
    assert rest[..to] + rest[to..] == rest;
    OthersSkips(s[..from], s[from + 1..], id);
    assert s[..from] + [id] + s[from + 1..] == s;
  }

  // ---- The service ----

  datatype Error = InvalidInput | NotFound | TooLarge | WriteFailed

  // The order a move asks to save.
  function Target(order: seq<Id>, existing: seq<Id>, id: Id, to: int): Result<seq<Id>, Error> {
    var all := Complete(order, existing);
    var from := IndexOf(all, id);
    if id == "" then Err(InvalidInput)
    else if from == |all| then Err(NotFound)
    else Ok(With(Without(all, from), Clamp(to, |all|), id))
  }

  /**
    A move succeeds exactly for a stored, non-empty id. Its result names exactly the stored
    ids, has the moved id at the clamped index and the rest in unchanged relative order, and
    is free of repeats exactly when the pruned stored order is.
   */
  lemma MoveIsPermutation(order: seq<Id>, existing: seq<Id>, id: Id, to: int)
    requires Distinct(existing)
    ensures Target(order, existing, id, to).Ok? <==> id != "" && id in existing
    ensures Target(order, existing, id, to).Ok? ==>
      var moved := Target(order, existing, id, to).value;
      && |moved| > 0 && moved[Clamp(to, |moved|)] == id
      && Others(moved, id) == Others(Complete(order, existing), id)
      && (forall x :: x in moved <==> x in existing)
      && (Distinct(moved) <==> Distinct(Prune(order, existing)))
  {
    var all := Complete(order, existing);
    CompleteMembers(order, existing, id);
    if id != "" && id in existing {
      var moved := Target(order, existing, id, to).value;
      MoveRearranges(all, IndexOf(all, id), Clamp(to, |all|));
      forall x ensures x in moved <==> x in existing {
        CompleteMembers(order, existing, x);
        assert x in moved <==> x in multiset(moved);
        assert x in all <==> x in multiset(all);
      }
      CompleteDistinct(order, existing);
      if Distinct(all) { PermutedDistinct(all, moved); }
      if Distinct(moved) { PermutedDistinct(moved, all); }
    }
  }

  // A call to the service; `writes` says whether the file write succeeds.
  datatype Call = SetOrder(ids: seq<Id>, writes: bool)
                | Move(existing: seq<Id>, id: Id, to: int, writes: bool)

  function Saved(order: seq<Id>, next: seq<Id>, writes: bool): seq<Id> {
    if |next| <= ORDER_MAX && writes then next else order
  }

  function Step(order: seq<Id>, call: Call): seq<Id> {
    match call
    case SetOrder(ids, writes) => Saved(order, Deduped(ids), writes)
    case Move(existing, id, to, writes) =>
      var t := Target(order, existing, id, to);
      if t.Ok? then Saved(order, t.value, writes) else order
  }

  function After(order: seq<Id>, calls: seq<Call>): seq<Id> {
    if calls == [] then order else Step(After(order, calls[..|calls| - 1]), calls[|calls| - 1])
  }

  /** Whatever the calls, an order without repeats stays without repeats. */
  lemma {:induction false} OrderStaysRepeatFree(order: seq<Id>, calls: seq<Call>)
    requires Distinct(order) && forall c | c in calls && c.Move? :: Distinct(c.existing)
    ensures Distinct(After(order, calls))
  {
    if calls != [] {
      var init, last := calls[..|calls| - 1], calls[|calls| - 1];
      assert calls == init + [last];
      OrderStaysRepeatFree(order, init);
      match last
      case SetOrder(ids, _) => DedupedIsDistinct(ids);
      case Move(existing, id, to, _) =>
        assert last in calls;
        MoveIsPermutation(After(order, init), existing, id, to);
        FilterDistinct(After(order, init), id => id in existing);
    }
  }

  class OrderService {
    var order: seq<Id>

    constructor (loaded: seq<Id>)
      ensures order == if |loaded| <= ORDER_MAX then loaded else []
    {
      order := if |loaded| <= ORDER_MAX then loaded else [];
    }

    method Save(next: seq<Id>, writes: bool) returns (error: Option<Error>)
      modifies this
      ensures order == Saved(old(order), next, writes)
      ensures error == None <==> |next| <= ORDER_MAX && writes
    {
      if |next| > ORDER_MAX { return Some(TooLarge); }
      if !writes { return Some(WriteFailed); }
      order := next;
      return None;
    }

    method SetConfigOrder(ids: seq<Id>, writes: bool) returns (error: Option<Error>)
      modifies this
      ensures order == Step(old(order), SetOrder(ids, writes))
      ensures error.Some? ==> order == old(order)
    {
      var cleaned := Dedupe(ids);
      error := Save(cleaned, writes);
    }

    method Filtered(s: seq<Id>, live: set<Id>, wanted: bool, ghost p: Id -> bool) returns (out: seq<Id>)
      requires forall x :: p(x) <==> (x in live) == wanted
      ensures out == Filter(s, p)
    {
      out := [];
      for i := 0 to |s|
        invariant out == Filter(s[..i], p)
      {
        assert s[..i + 1][..i] == s[..i];
        if (s[i] in live) == wanted { out := out + [s[i]]; }
      }
      assert s[..|s|] == s;
    }

    /** Removes the id from the completed order and puts it at the clamped index. */
    method MoveConfig(existing: seq<Id>, id: Id, toIndex: int, writes: bool) returns (error: Option<Error>)
      modifies this
      ensures order == Step(old(order), Move(existing, id, toIndex, writes))
      ensures error.Some? ==> order == old(order)
    {
      if id == "" { return Some(InvalidInput); }
      var pruned := Filtered(order, set x | x in existing, true, x => x in existing);
      var rest := Filtered(existing, set x | x in pruned, false, x => x !in pruned);
      var ordered := pruned + rest;
      assert ordered == Complete(order, existing);
      var from := Locate(ordered, id);
      if from == |ordered| { return Some(NotFound); }
      var to := Clamp(toIndex, |ordered|);
      var moved := ordered[..from] + ordered[from + 1..];
      moved := moved[..to] + [id] + moved[to..];
      error := Save(moved, writes);
    }
  }
}
