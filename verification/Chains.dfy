/**
  User groups and proxy chains (engine/app/collections.go, engine/app/proxychain.go): the
  records, what each edit does to them, and what loading the sidecar makes of a document.
 */
module Chains {
  import opened Prelude
  import opened Sequences
  import opened Text
  import opened Decimal

  type Id = string

  const USER := "user"
  const CHAIN := "proxy_chain"
  const USER_PREFIX := "g-"
  const CHAIN_PREFIX := "pc-"
  const MIN_HOPS := 2
  const MAX_HOPS := 4
  const NAME_MAX := 64

  // A record of the sidecar; `kind` is the stored text.
  datatype Group = Group(id: Id, kind: string, name: string, members: seq<Id>)

  /**
    The collections in memory, the two id counters, and the document on disk. `newer` says
    that the document was written by a later version, so that every save is refused.
   */
  datatype State = State(groups: seq<Group>, nextGroup: int, nextChain: int, disk: seq<Group>, newer: bool)

  // Refused by validation, applied but not written, or applied and written.
  datatype Outcome = Refused | NotSaved | Saved

  datatype Edit =
    | CreateChain(name: string, ids: seq<Id>, store: set<Id>, taken: bool, writes: bool)
    | RenameChain(id: Id, name: string, writes: bool)
    | DeleteChain(id: Id, writes: bool)
    | AddHop(id: Id, hop: Id, position: int, store: set<Id>, writes: bool)
    | RemoveHop(id: Id, hop: Id, writes: bool)
    | ReorderHop(id: Id, hop: Id, position: int, writes: bool)
    | CreateGroup(name: string, taken: bool, writes: bool)
    | RenameGroup(id: Id, name: string, writes: bool)
    | DeleteGroup(id: Id, writes: bool)
    | AddMember(id: Id, member: Id, writes: bool)
    | RemoveMember(id: Id, member: Id, writes: bool)
    | Reload

  // ---- Hop lists ----

  // What a chain must be: two to four distinct hops, none empty, none itself a chain.
  predicate ValidHops(ids: seq<Id>) {
    && MIN_HOPS <= |ids| <= MAX_HOPS
    && Distinct(ids)
    && forall id | id in ids :: id != "" && !HasPrefix(id, CHAIN_PREFIX)
  }

  predicate Accepted(ids: seq<Id>, store: set<Id>) {
    ValidHops(ids) && forall id | id in ids :: id in store
  }

  // A position outside the list means its end.
  function Spot(position: int, n: nat): nat { if position < 0 || position > n then n else position }

  // ---- Finding and replacing records ----

  // The first record with this id and kind, or the length.
  function Find(gs: seq<Group>, id: Id, kind: string): (k: nat)
    ensures k <= |gs| && (k < |gs| ==> gs[k].id == id && gs[k].kind == kind)
  {
    if gs == [] then 0 else if gs[0].id == id && gs[0].kind == kind then 0 else 1 + Find(gs[1..], id, kind)
  }

  // The first such record that also has the hop.
  function FindHop(gs: seq<Group>, id: Id, hop: Id): (k: nat)
    ensures k <= |gs| && (k < |gs| ==> gs[k].id == id && gs[k].kind == CHAIN && hop in gs[k].members)
  {
    if gs == [] then 0
    else if gs[0].id == id && gs[0].kind == CHAIN && hop in gs[0].members then 0
    else 1 + FindHop(gs[1..], id, hop)
  }

  function InsertByName(gs: seq<Group>, g: Group): seq<Group> {
    if gs == [] || Compare(g.name, gs[|gs| - 1].name) >= 0 then gs + [g]
    else InsertByName(gs[..|gs| - 1], g) + [gs[|gs| - 1]]
  }

  function ByName(gs: seq<Group>): seq<Group> {
    if gs == [] then [] else InsertByName(ByName(gs[..|gs| - 1]), gs[|gs| - 1])
  }

  // ---- Saving and loading ----

  function Save(s: State, writes: bool): (State, Outcome) {
    if s.newer || !writes then (s, NotSaved) else (s.(disk := s.groups), Saved)
  }

  function Ids(gs: seq<Group>): set<Id> { set g | g in gs :: g.id }

  function Migrated(g: Group): Group { if g.kind == "" then g.(kind := USER) else g }

  predicate KindAgrees(g: Group) {
    (g.kind == USER && HasPrefix(g.id, USER_PREFIX)) || (g.kind == CHAIN && HasPrefix(g.id, CHAIN_PREFIX))
  }

  predicate Loadable(before: seq<Group>, g: Group) {
    g.id != "" && g.name != "" && g.id !in Ids(before) && KindAgrees(Migrated(g))
  }

  function LoadAll(doc: seq<Group>): seq<Group> {
    if doc == [] then []
    else
      var before, g := LoadAll(doc[..|doc| - 1]), doc[|doc| - 1];
      if Loadable(before, g) then before + [Migrated(g).(members := Deduped(g.members))] else before
  }

  function Suffix(g: Group, prefix: string): Option<int> {
    if HasPrefix(g.id, prefix) then Atoi(g.id[|prefix|..]) else None
  }

  function Highest(gs: seq<Group>, prefix: string): (h: int)
    ensures 0 <= h <= MAX_INT
  {
    if gs == [] then 0
    else
      var before, n := Highest(gs[..|gs| - 1], prefix), Suffix(gs[|gs| - 1], prefix);
      if n.Some? && n.value > before then n.value else before
  }

  function NextId(gs: seq<Group>, prefix: string): int { Succ(Highest(gs, prefix)) }

  // The collections after the sidecar was read afresh.
  function Load(s: State): State {
    if s.newer then State([], 1, 1, s.disk, true)
    else
      var gs := ByName(LoadAll(s.disk));
      State(gs, NextId(gs, USER_PREFIX), NextId(gs, CHAIN_PREFIX), s.disk, false)
  }

  // ---- Edits ----

  predicate NameFits(name: string) { 0 < |name| <= NAME_MAX }

  function Replace(s: State, k: nat, g: Group, writes: bool): (State, Outcome)
    requires k < |s.groups|
  {
    Save(s.(groups := s.groups[k := g]), writes)
  }

  function Drop(s: State, k: nat, writes: bool): (State, Outcome)
    requires k < |s.groups|
  {
    Save(s.(groups := s.groups[..k] + s.groups[k + 1..]), writes)
  }

  function Rename(s: State, id: Id, kind: string, name: string, writes: bool): (State, Outcome) {
    var k := Find(s.groups, id, kind);
    if name == "" || k == |s.groups| then (s, Refused)
    else Replace(s, k, s.groups[k].(name := name), writes)
  }

  function Delete(s: State, id: Id, kind: string, writes: bool): (State, Outcome) {
    var k := Find(s.groups, id, kind);
    if k == |s.groups| then (s, Refused) else Drop(s, k, writes)
  }

  function Added(ids: seq<Id>, hop: Id, position: int): seq<Id> { With(ids, Spot(position, |ids|), hop) }

  function Reordered(ids: seq<Id>, hop: Id, position: int): seq<Id>
    requires hop in ids
  {
    var rest := Without(ids, IndexOf(ids, hop));
    With(rest, Spot(position, |rest|), hop)
  }

  function Apply(s: State, e: Edit): (State, Outcome) {
    match e
    case CreateChain(name, ids, store, taken, writes) =>
      if !NameFits(name) || !Accepted(ids, store) || taken then (s, Refused)
      else
        var g := Group(CHAIN_PREFIX + Format(s.nextChain), CHAIN, name, ids);
        Save(s.(groups := ByName(s.groups + [g]), nextChain := Succ(s.nextChain)), writes)
    case RenameChain(id, name, writes) => Rename(s, id, CHAIN, name, writes)
    case DeleteChain(id, writes) => Delete(s, id, CHAIN, writes)
    case AddHop(id, hop, position, store, writes) =>
      var k := Find(s.groups, id, CHAIN);
      if hop == "" || k == |s.groups| then (s, Refused)
      else
        var g := s.groups[k];
        if |g.members| >= MAX_HOPS || hop in g.members || !Accepted(g.members + [hop], store) then (s, Refused)
        else Replace(s, k, g.(members := Added(g.members, hop, position)), writes)
    case RemoveHop(id, hop, writes) =>
      var k := FindHop(s.groups, id, hop);
      if k == |s.groups| || |s.groups[k].members| - 1 < MIN_HOPS then (s, Refused)
      else
        var g := s.groups[k];
        Replace(s, k, g.(members := Without(g.members, IndexOf(g.members, hop))), writes)
    case ReorderHop(id, hop, position, writes) =>
      var k := Find(s.groups, id, CHAIN);
      if k == |s.groups| || hop !in s.groups[k].members then (s, Refused)
      else Replace(s, k, s.groups[k].(members := Reordered(s.groups[k].members, hop, position)), writes)
    case CreateGroup(name, taken, writes) =>
      if !NameFits(name) || taken then (s, Refused)
      else
        var g := Group(USER_PREFIX + Format(s.nextGroup), USER, name, []);
        Save(s.(groups := ByName(s.groups + [g]), nextGroup := Succ(s.nextGroup)), writes)
    case RenameGroup(id, name, writes) => Rename(s, id, USER, name, writes)
    case DeleteGroup(id, writes) => Delete(s, id, USER, writes)
    case AddMember(id, member, writes) =>
      var k := Find(s.groups, id, USER);
      if member == "" || k == |s.groups| then (s, Refused)
      else if member in s.groups[k].members then (s, Saved)
      else Replace(s, k, s.groups[k].(members := s.groups[k].members + [member]), writes)
    case RemoveMember(id, member, writes) =>
      var k := Find(s.groups, id, USER);
      if k == |s.groups| then (s, Refused)
      else
        var g := s.groups[k];
        var i := IndexOf(g.members, member);
        Replace(s, k, if i < |g.members| then g.(members := Without(g.members, i)) else g, writes)
    case Reload => (Load(s), Saved)
  }

  function Run(s: State, es: seq<Edit>): State {
    if es == [] then s else Apply(Run(s, es[..|es| - 1]), es[|es| - 1]).0
  }
}
