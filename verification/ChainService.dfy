/**
  The collections as engine/app/collections.go and engine/app/proxychain.go keep them: fields
  edited in place and written to a sidecar, each method proved against Chains.Apply.
 */
module ChainService {
  import opened Prelude
  import opened Sequences
  import opened Text
  import opened Decimal
  import opened Chains

  lemma {:induction false} FindIsFirst(gs: seq<Group>, id: Id, kind: string, k: nat)
    requires k <= |gs| && forall i | 0 <= i < k :: !(gs[i].id == id && gs[i].kind == kind)
    requires k < |gs| ==> gs[k].id == id && gs[k].kind == kind
    ensures Find(gs, id, kind) == k
  {
    if k > 0 { FindIsFirst(gs[1..], id, kind, k - 1); }
  }

  predicate HasHop(g: Group, id: Id, hop: Id) { g.id == id && g.kind == CHAIN && hop in g.members }

  lemma {:induction false} FindHopIsFirst(gs: seq<Group>, id: Id, hop: Id, k: nat)
    requires k <= |gs| && forall i | 0 <= i < k :: !HasHop(gs[i], id, hop)
    requires k < |gs| ==> HasHop(gs[k], id, hop)
    ensures FindHop(gs, id, hop) == k
  {
    if k > 0 { FindHopIsFirst(gs[1..], id, hop, k - 1); }
  }

  lemma ReorderIsSpliced(ids: seq<Id>, hop: Id, position: int)
    requires hop in ids
    ensures var rest := ids[..IndexOf(ids, hop)] + ids[IndexOf(ids, hop) + 1..];
      var p := if position < 0 || position >= |ids| then |ids| - 1 else position;
      Reordered(ids, hop, position) == rest[..p] + [hop] + rest[p..]
  {
  }

  lemma ReorderCases(s: State, id: Id, hop: Id, position: int, writes: bool)
    requires Find(s.groups, id, CHAIN) < |s.groups| && hop in s.groups[Find(s.groups, id, CHAIN)].members
    ensures var k := Find(s.groups, id, CHAIN);
      Apply(s, ReorderHop(id, hop, position, writes)) ==
      Replace(s, k, s.groups[k].(members := Reordered(s.groups[k].members, hop, position)), writes)
  {
  }

  /** Accepts a hop list exactly when every rule holds for the whole list. */
  method ValidateHopList(ids: seq<Id>, store: set<Id>) returns (ok: bool)
    ensures ok == Accepted(ids, store)
  {
    if |ids| < MIN_HOPS { return false; }
    if |ids| > MAX_HOPS { return false; }
    var seen: set<Id> := {};
    for i := 0 to |ids|
      invariant seen == set id | id in ids[..i]
      invariant Distinct(ids[..i])
      invariant forall id | id in ids[..i] :: id != "" && !HasPrefix(id, CHAIN_PREFIX) && id in store
    {
      assert ids[i] in ids && ids[..i + 1] == ids[..i] + [ids[i]];
      if ids[i] == "" { return false; }
      if HasPrefix(ids[i], CHAIN_PREFIX) { return false; }
      if ids[i] in seen {
        var j :| 0 <= j < i && ids[j] == ids[i];
        return false;
      }
      if ids[i] !in store { return false; }
      seen := seen + {ids[i]};
    }
    assert ids[..|ids|] == ids;
    return true;
  }

  method NextIdFor(gs: seq<Group>, prefix: string) returns (next: int)
    ensures next == NextId(gs, prefix)
  {
    var highest := 0;
    for i := 0 to |gs|
      invariant highest == Highest(gs[..i], prefix)
    {
      assert gs[..i + 1][..i] == gs[..i];
      if !HasPrefix(gs[i].id, prefix) { continue; }
      var n := Atoi(gs[i].id[|prefix|..]);
      if n.Some? && n.value > highest { highest := n.value; }
    }
    assert gs[..|gs|] == gs;
    return Succ(highest);
  }

  method FindGroup(gs: seq<Group>, id: Id, kind: string) returns (k: nat)
    ensures k == Find(gs, id, kind)
  {
    k := 0;
    while k < |gs| && !(gs[k].id == id && gs[k].kind == kind)
      invariant k <= |gs| && forall i | 0 <= i < k :: !(gs[i].id == id && gs[i].kind == kind)
    {
      k := k + 1;
    }
    FindIsFirst(gs, id, kind, k);
  }

  class CollectionsState {
    var groups: seq<Group>
    var nextGroupId: int
    var nextChainId: int
    var disk: seq<Group>
    var futureSchema: bool

    function Abstract(): State
      reads this
    {
      State(groups, nextGroupId, nextChainId, disk, futureSchema)
    }

    /** Starts from the document on disk. */
    constructor (doc: seq<Group>, newer: bool)
      ensures Abstract() == Load(State([], 1, 1, doc, newer))
    {
      groups, nextGroupId, nextChainId, disk, futureSchema := [], 1, 1, doc, newer;
      new;
      LoadCollections();
    }

    method LoadCollections()
      modifies this
      ensures Abstract() == Load(old(Abstract()))
    {
      groups, nextGroupId, nextChainId := [], 1, 1;
      if futureSchema { return; }
      var ids: set<Id> := {};
      for i := 0 to |disk|
        invariant disk == old(disk) && futureSchema == old(futureSchema)
        invariant groups == LoadAll(disk[..i]) && ids == Ids(groups)
      {
        assert disk[..i + 1][..i] == disk[..i];
        var g := disk[i];
        if g.id == "" || g.name == "" || g.id in ids { continue; }
        if g.kind == "" { g := g.(kind := USER); }
        if g.kind != USER && g.kind != CHAIN { continue; }
        if g.kind == USER && !HasPrefix(g.id, USER_PREFIX) { continue; }
        if g.kind == CHAIN && !HasPrefix(g.id, CHAIN_PREFIX) { continue; }
        var members := Dedupe(g.members);
        ids := ids + {g.id};
        groups := groups + [g.(members := members)];
      }
      assert disk[..|disk|] == disk;
      groups := ByName(groups);
      nextGroupId := NextIdFor(groups, USER_PREFIX);
      nextChainId := NextIdFor(groups, CHAIN_PREFIX);
    }

    method SaveCollections(writes: bool) returns (o: Outcome)
      modifies this`disk
      ensures (Abstract(), o) == Save(old(Abstract()), writes)
    {
      if futureSchema || !writes { return NotSaved; }
      disk := groups;
      return Outcome.Saved;
    }

    method CreateProxyChain(name: string, ids: seq<Id>, store: set<Id>, taken: bool, writes: bool) returns (o: Outcome)
      modifies this
      ensures (Abstract(), o) == Apply(old(Abstract()), CreateChain(name, ids, store, taken, writes))
    {
      if name == "" || |name| > NAME_MAX { return Refused; }
      var ok := ValidateHopList(ids, store);
      if !ok || taken { return Refused; }
      var id := CHAIN_PREFIX + Format(nextChainId);
      nextChainId := Succ(nextChainId);
      groups := ByName(groups + [Group(id, CHAIN, name, ids)]);
      o := SaveCollections(writes);
    }

    method DeleteProxyChain(id: Id, writes: bool) returns (o: Outcome)
      modifies this
      ensures (Abstract(), o) == Apply(old(Abstract()), DeleteChain(id, writes))
    {
      var k := FindGroup(groups, id, CHAIN);
      if k == |groups| { return Refused; }
      groups := groups[..k] + groups[k + 1..];
      o := SaveCollections(writes);
    }

    method AddChainHop(id: Id, hop: Id, position: int, store: set<Id>, writes: bool) returns (o: Outcome)
      modifies this
      ensures (Abstract(), o) == Apply(old(Abstract()), AddHop(id, hop, position, store, writes))
    {
      if hop == "" { return Refused; }
      var k := FindGroup(groups, id, CHAIN);
      if k == |groups| { return Refused; }
      var g := groups[k];
      if |g.members| >= MAX_HOPS { return Refused; }
      if hop in g.members { return Refused; }
      var ok := ValidateHopList(g.members + [hop], store);
      if !ok { return Refused; }
      var p := if position < 0 || position > |g.members| then |g.members| else position;
      var hops := g.members[..p] + [hop];
      hops := hops + g.members[p..];
      groups := groups[k := g.(members := hops)];
      o := SaveCollections(writes);
    }

    method RemoveChainHop(id: Id, hop: Id, writes: bool) returns (o: Outcome)
      modifies this
      ensures (Abstract(), o) == Apply(old(Abstract()), RemoveHop(id, hop, writes))
    {
      var k := 0;
      while k < |groups| && !(groups[k].id == id && groups[k].kind == CHAIN && hop in groups[k].members)
        invariant k <= |groups| && forall i | 0 <= i < k :: !HasHop(groups[i], id, hop)
      {
        k := k + 1;
      }
      FindHopIsFirst(groups, id, hop, k);
      if k == |groups| { return Refused; }
      var g := groups[k];
      if |g.members| - 1 < MIN_HOPS { return Refused; }
      var j := Sequences.Locate(g.members, hop);
      groups := groups[k := g.(members := g.members[..j] + g.members[j + 1..])];
      o := SaveCollections(writes);
    }

    method ReorderChainHop(id: Id, hop: Id, position: int, writes: bool) returns (o: Outcome)
      modifies this
      ensures (Abstract(), o) == Apply(old(Abstract()), ReorderHop(id, hop, position, writes))
    {
      var k := FindGroup(groups, id, CHAIN);
      if k == |groups| { return Refused; }
      var g := groups[k];
      var j := Sequences.Locate(g.members, hop);
      if j == |g.members| { return Refused; }
      var p := if position < 0 || position >= |g.members| then |g.members| - 1 else position;
      var rest := g.members[..j] + g.members[j + 1..];
      var hops := rest[..p] + [hop] + rest[p..];
      ReorderIsSpliced(g.members, hop, position);
      assert hops == Reordered(g.members, hop, position);
      ReorderCases(Abstract(), id, hop, position, writes);
      groups := groups[k := g.(members := hops)];
      o := SaveCollections(writes);
    }

    method AddToUserGroup(id: Id, member: Id, writes: bool) returns (o: Outcome)
      modifies this
      ensures (Abstract(), o) == Apply(old(Abstract()), AddMember(id, member, writes))
    {
      if member == "" { return Refused; }
      var k := FindGroup(groups, id, USER);
      if k == |groups| { return Refused; }
      if member in groups[k].members { return Outcome.Saved; }
      groups := groups[k := groups[k].(members := groups[k].members + [member])];
      o := SaveCollections(writes);
    }
  }
}
