/**
  What each edit of a group or chain does, and when it is refused, in terms of the record it
  names (engine/app/collections.go, engine/app/proxychain.go).
 */
module ChainEdits {
  import opened Prelude
  import opened Sequences
  import opened Text
  import opened Decimal
  import opened Chains
  import opened ChainRules

  // The record with this id and kind.
  predicate Named(s: State, id: Id, kind: string, g: Group) { g in s.groups && g.id == id && g.kind == kind }

  ghost predicate Exists(s: State, id: Id, kind: string) { exists g :: Named(s, id, kind, g) }

  lemma {:induction false} FindsIt(gs: seq<Group>, g: Group)
    requires g in gs
    ensures Find(gs, g.id, g.kind) < |gs|
  {
    if !(gs[0].id == g.id && gs[0].kind == g.kind) {
      assert gs == [gs[0]] + gs[1..];
      FindsIt(gs[1..], g);
    }
  }

  lemma {:induction false} FindsHop(gs: seq<Group>, g: Group, hop: Id)
    requires g in gs && g.kind == CHAIN && hop in g.members
    ensures FindHop(gs, g.id, hop) < |gs|
  {
    if !(gs[0].id == g.id && gs[0].kind == CHAIN && hop in gs[0].members) {
      assert gs == [gs[0]] + gs[1..];
      FindsHop(gs[1..], g, hop);
    }
  }

  lemma OneOfAnId(gs: seq<Group>, a: Group, b: Group)
    requires UniqueIds(gs) && a in gs && b in gs && a.id == b.id
    ensures a == b
  {
    var i :| 0 <= i < |gs| && gs[i] == a;
    var j :| 0 <= j < |gs| && gs[j] == b;
  }

  lemma FoundIsNamed(s: State, id: Id, kind: string)
    ensures Exists(s, id, kind) <==> Find(s.groups, id, kind) < |s.groups|
    ensures UniqueIds(s.groups) ==>
            forall g | Named(s, id, kind, g) :: s.groups[Find(s.groups, id, kind)] == g
  {
    var k := Find(s.groups, id, kind);
    if k < |s.groups| { assert Named(s, id, kind, s.groups[k]); }
    forall g | Named(s, id, kind, g) ensures k < |s.groups| { FindsIt(s.groups, g); }
    forall g | UniqueIds(s.groups) && Named(s, id, kind, g) ensures k < |s.groups| && s.groups[k] == g {
      FindsIt(s.groups, g);
      OneOfAnId(s.groups, g, s.groups[k]);
    }
  }

  // One record gives way to another in its place, or to none; the others stay as they were.
  predicate Swapped(gs: seq<Group>, gs': seq<Group>, g: Group, g': Group) {
    exists k :: 0 <= k < |gs| && gs[k] == g && gs' == gs[k := g']
  }

  predicate Gone(gs: seq<Group>, gs': seq<Group>, g: Group) {
    exists k :: 0 <= k < |gs| && gs[k] == g && gs' == gs[..k] + gs[k + 1..]
  }

  // What an edit leaves of the counters.
  predicate SameCounters(s: State, s': State) { s'.nextGroup == s.nextGroup && s'.nextChain == s.nextChain }

  // ---- Renaming and deleting ----

  function KindOf(e: Edit): string {
    if e.RenameChain? || e.DeleteChain? || e.AddHop? || e.RemoveHop? || e.ReorderHop? then CHAIN else USER
  }

  /** Renaming is refused exactly for an empty name or an unknown record, and changes the name of that record only. */
  lemma RenameExactly(s: State, e: Edit)
    requires UniqueIds(s.groups) && (e.RenameChain? || e.RenameGroup?)
    ensures Apply(s, e).1 == Refused <==> e.name == "" || !Exists(s, e.id, KindOf(e))
    ensures forall g | Named(s, e.id, KindOf(e), g) && e.name != "" ::
              Swapped(s.groups, Apply(s, e).0.groups, g, g.(name := e.name))
    ensures SameCounters(s, Apply(s, e).0)
  {
    FoundIsNamed(s, e.id, KindOf(e));
    assert Apply(s, e) == Rename(s, e.id, KindOf(e), e.name, e.writes);
  }

  /** Deleting is refused exactly for an unknown record, and takes out that record only. */
  lemma DeleteExactly(s: State, e: Edit)
    requires UniqueIds(s.groups) && (e.DeleteChain? || e.DeleteGroup?)
    ensures Apply(s, e).1 == Refused <==> !Exists(s, e.id, KindOf(e))
    ensures forall g | Named(s, e.id, KindOf(e), g) :: Gone(s.groups, Apply(s, e).0.groups, g)
    ensures SameCounters(s, Apply(s, e).0)
  {
    FoundIsNamed(s, e.id, KindOf(e));
    assert Apply(s, e) == Delete(s, e.id, KindOf(e), e.writes);
  }

  // ---- Hops ----

  // A chain that takes one more hop.
  predicate TakesHop(g: Group, hop: Id, store: set<Id>) {
    && 1 <= |g.members| <= 3 && Distinct(g.members) && hop !in g.members
    && forall h | h in g.members + [hop] :: h != "" && !HasPrefix(h, "pc-") && h in store
  }

  lemma TakesHopMeans(g: Group, hop: Id, store: set<Id>)
    ensures TakesHop(g, hop, store) <==>
            hop != "" && |g.members| < MAX_HOPS && hop !in g.members && Accepted(g.members + [hop], store)
  {
    var all := g.members + [hop];
    assert hop in all;
    if Distinct(all) {
      forall i, j | 0 <= i < j < |g.members| ensures g.members[i] != g.members[j] { assert all[i] != all[j]; }
    }
  }

  /**
    A hop is added exactly when the chain takes it, at the asked place or, outside the list,
    at its end.
   */
  lemma AddHopExactly(s: State, e: Edit, g: Group)
    requires UniqueIds(s.groups) && e.AddHop? && Named(s, e.id, CHAIN, g)
    ensures Apply(s, e).1 != Refused <==> TakesHop(g, e.hop, e.store)
    ensures Apply(s, e).1 != Refused ==>
            var p := if 0 <= e.position <= |g.members| then e.position else |g.members|;
            Swapped(s.groups, Apply(s, e).0.groups, g, g.(members := g.members[..p] + [e.hop] + g.members[p..]))
  {
    FoundIsNamed(s, e.id, CHAIN);
    TakesHopMeans(g, e.hop, e.store);
  }

  /** A hop is removed exactly when the chain has it and keeps two. */
  lemma RemoveHopExactly(s: State, e: Edit, g: Group)
    requires UniqueIds(s.groups) && e.RemoveHop? && Named(s, e.id, CHAIN, g)
    ensures Apply(s, e).1 != Refused <==> e.hop in g.members && |g.members| >= 3
    ensures Apply(s, e).1 != Refused ==>
            exists p :: 0 <= p < |g.members| && g.members[p] == e.hop
                        && Swapped(s.groups, Apply(s, e).0.groups, g, g.(members := Without(g.members, p)))
  {
    var k := FindHop(s.groups, e.id, e.hop);
    if k < |s.groups| { OneOfAnId(s.groups, g, s.groups[k]); }
    if e.hop in g.members { FindsHop(s.groups, g, e.hop); }
    if Apply(s, e).1 != Refused { assert g.members[IndexOf(g.members, e.hop)] == e.hop; }
  }

  /**
    A hop is moved exactly when the chain has it: it is taken out and put back at the asked
    place of the remaining list or, outside it, at its end.
   */
  lemma ReorderHopExactly(s: State, e: Edit, g: Group)
    requires UniqueIds(s.groups) && e.ReorderHop? && Named(s, e.id, CHAIN, g)
    ensures Apply(s, e).1 != Refused <==> e.hop in g.members
    ensures Apply(s, e).1 != Refused ==>
            exists p :: 0 <= p < |g.members| && g.members[p] == e.hop &&
              var rest := g.members[..p] + g.members[p + 1..];
              var q := if 0 <= e.position <= |rest| then e.position else |rest|;
              Swapped(s.groups, Apply(s, e).0.groups, g, g.(members := rest[..q] + [e.hop] + rest[q..]))
  {
    FoundIsNamed(s, e.id, CHAIN);
    if e.hop in g.members { assert g.members[IndexOf(g.members, e.hop)] == e.hop; }
  }

  /** Edits of hops name a chain that exists. */
  lemma HopEditsNeedChain(s: State, e: Edit)
    requires (e.AddHop? || e.RemoveHop? || e.ReorderHop?) && !Exists(s, e.id, CHAIN)
    ensures Apply(s, e) == (s, Refused)
  {
    FoundIsNamed(s, e.id, CHAIN);
    if e.RemoveHop? {
      var k := FindHop(s.groups, e.id, e.hop);
      if k < |s.groups| {
        assert Named(s, e.id, CHAIN, s.groups[k]);
      }
    }
  }

  // ---- Members ----

  /** A member is added once, at the end; a second addition changes nothing. */
  lemma AddMemberExactly(s: State, e: Edit)
    requires UniqueIds(s.groups) && e.AddMember?
    ensures Apply(s, e).1 == Refused <==> e.member == "" || !Exists(s, e.id, USER)
    ensures forall g | Named(s, e.id, USER, g) && e.member != "" ::
              if e.member in g.members then Apply(s, e).0 == s
              else Swapped(s.groups, Apply(s, e).0.groups, g, g.(members := g.members + [e.member]))
  {
    FoundIsNamed(s, e.id, USER);
  }

  /** Removing a member takes it out of its group and of no other. */
  lemma RemoveMemberExactly(s: State, e: Edit, g: Group)
    requires UniqueIds(s.groups) && e.RemoveMember? && Named(s, e.id, USER, g)
    ensures Apply(s, e).1 != Refused
    ensures e.member !in g.members ==> Apply(s, e).0.groups == s.groups
    ensures e.member in g.members ==>
            exists p :: 0 <= p < |g.members| && g.members[p] == e.member
                        && Swapped(s.groups, Apply(s, e).0.groups, g, g.(members := Without(g.members, p)))
  {
    FoundIsNamed(s, e.id, USER);
    if e.member in g.members { assert g.members[IndexOf(g.members, e.member)] == e.member; }
  }

  // ---- Creating ----

  // A hop list a new chain may have.
  predicate LawfulHops(ids: seq<Id>, store: set<Id>) {
    && 2 <= |ids| <= 4
    && (forall i, j | 0 <= i < j < |ids| :: ids[i] != ids[j])
    && forall h | h in ids :: h != "" && !HasPrefix(h, "pc-") && h in store
  }

  predicate NamesAscend(gs: seq<Group>) {
    forall i, j | 0 <= i < j < |gs| :: Compare(gs[i].name, gs[j].name) <= 0
  }

  lemma {:induction false} InsertByNameAscends(gs: seq<Group>, g: Group)
    requires NamesAscend(gs)
    ensures NamesAscend(InsertByName(gs, g))
  {
    if gs != [] {
      var init, last := gs[..|gs| - 1], gs[|gs| - 1];
      CompareFlips(g.name, last.name);
      if Compare(g.name, last.name) < 0 {
        InsertByNameAscends(init, g);
        MembersOfInsert(init, g);
        var all := InsertByName(init, g);
        forall i | 0 <= i < |all| ensures Compare(all[i].name, last.name) <= 0 { assert all[i] in all; }
      } else {
        forall i | 0 <= i < |gs| ensures Compare(gs[i].name, g.name) <= 0 {
          if i < |gs| - 1 { CompareTransitive(gs[i].name, last.name, g.name); }
        }
      }
    }
  }

  lemma {:induction false} ByNameAscends(gs: seq<Group>)
    ensures NamesAscend(ByName(gs))
  {
    if gs != [] {
      ByNameAscends(gs[..|gs| - 1]);
      InsertByNameAscends(ByName(gs[..|gs| - 1]), gs[|gs| - 1]);
    }
  }

  // The collections with one more record, listed by name.
  ghost predicate Listed(gs: seq<Group>, gs': seq<Group>, g: Group) {
    multiset(gs') == multiset(gs) + multiset{g} && NamesAscend(gs')
  }

  lemma ListedByName(gs: seq<Group>, g: Group)
    ensures Listed(gs, ByName(gs + [g]), g)
  {
    ByNameKeeps(gs + [g]);
    ByNameAscends(gs + [g]);
  }

  /**
    A chain is created exactly under a free name of 1 to 64 characters with lawful hops: one
    record with the next number is added, and the list is sorted by name.
   */
  lemma CreateChainExactly(s: State, e: Edit)
    requires e.CreateChain?
    ensures Apply(s, e).1 != Refused <==> 1 <= |e.name| <= 64 && !e.taken && LawfulHops(e.ids, e.store)
    ensures Apply(s, e).1 != Refused ==>
      && Listed(s.groups, Apply(s, e).0.groups, Group("pc-" + Format(s.nextChain), "proxy_chain", e.name, e.ids))
      && Apply(s, e).0.nextGroup == s.nextGroup
  {
    ListedByName(s.groups, Group("pc-" + Format(s.nextChain), "proxy_chain", e.name, e.ids));
  }

  /** A group is created exactly under a free name of 1 to 64 characters, without members. */
  lemma CreateGroupExactly(s: State, e: Edit)
    requires e.CreateGroup?
    ensures Apply(s, e).1 != Refused <==> 1 <= |e.name| <= 64 && !e.taken
    ensures Apply(s, e).1 != Refused ==>
      && Listed(s.groups, Apply(s, e).0.groups, Group("g-" + Format(s.nextGroup), "user", e.name, []))
      && Apply(s, e).0.nextChain == s.nextChain
  {
    ListedByName(s.groups, Group("g-" + Format(s.nextGroup), "user", e.name, []));
  }

  // ---- Loading ----

  // A record that loading keeps if its id is new: known kind, matching id, not nameless.
  predicate Sound(g: Group) {
    && g.name != ""
    && ((g.kind in {"", "user"} && HasPrefix(g.id, "g-")) || (g.kind == "proxy_chain" && HasPrefix(g.id, "pc-")))
  }

  // The first record of each id that is sound.
  ghost predicate FirstSound(doc: seq<Group>, i: nat) {
    i < |doc| && Sound(doc[i]) && forall j | 0 <= j < i :: Sound(doc[j]) ==> doc[j].id != doc[i].id
  }

  // What a record becomes: an empty kind is a user group, and members are kept once.
  function Cleaned(g: Group): Group { Group(g.id, if g.kind == "" then "user" else g.kind, g.name, Deduped(g.members)) }

  lemma SoundMeans(g: Group)
    ensures Sound(g) <==> g.id != "" && g.name != "" && KindAgrees(Migrated(g))
  {
  }

  // The first sound records of a longer document: those of the shorter, and the last if its id is new.
  lemma FirstSoundStays(init: seq<Group>, last: Group, i: nat)
    requires i < |init|
    ensures FirstSound(init + [last], i) <==> FirstSound(init, i)
  {
    assert forall j | 0 <= j < |init| :: (init + [last])[j] == init[j];
  }

  lemma LastIsFirstSound(init: seq<Group>, last: Group)
    ensures FirstSound(init + [last], |init|) <==> Loadable(LoadAll(init), last)
  {
    LoadedIdsExactly(init, last.id);
    SoundMeans(last);
    NoneBefore(init, last, LoadAll(init));
  }

  lemma NoneBefore(init: seq<Group>, last: Group, loaded: seq<Group>)
    requires last.id in Ids(loaded) <==> exists i :: 0 <= i < |init| && Sound(init[i]) && init[i].id == last.id
    ensures FirstSound(init + [last], |init|) <==> Sound(last) && last.id !in Ids(loaded)
  {
    var doc := init + [last];
    assert forall j | 0 <= j < |init| :: doc[j] == init[j];
  }

  lemma {:induction false} LoadAllExactly(doc: seq<Group>, g: Group)
    ensures g in LoadAll(doc) <==> exists i: nat :: FirstSound(doc, i) && g == Cleaned(doc[i])
    decreases |doc|
  {
    if doc != [] {
      var n: nat := |doc| - 1;
      var init, last := doc[..n], doc[n];
      assert doc == init + [last];
      LoadAllExactly(init, g);
      LastIsFirstSound(init, last);
      if g in LoadAll(init) {
        var i: nat :| FirstSound(init, i) && g == Cleaned(init[i]);
        FirstSoundStays(init, last, i);
        assert doc[i] == init[i];
      }
      if i: nat :| FirstSound(doc, i) && g == Cleaned(doc[i]) {
        if i < n { FirstSoundStays(init, last, i); }
        assert i < n ==> doc[i] == init[i];
      }
    }
  }

  lemma {:induction false} LoadedIdsExactly(doc: seq<Group>, id: Id)
    ensures id in Ids(LoadAll(doc)) <==> exists i :: 0 <= i < |doc| && Sound(doc[i]) && doc[i].id == id
    decreases |doc|
  {
    if doc != [] {
      var init, last := doc[..|doc| - 1], doc[|doc| - 1];
      LoadedIdsExactly(init, id);
      assert forall i | 0 <= i < |init| :: doc[i] == init[i];
      if last.id == id && Sound(last) { assert doc[|doc| - 1] == last; }
    }
  }

  /** Loading keeps exactly the first sound record of each id, cleaned, and lists them by name. */
  lemma LoadExactly(s: State)
    requires !s.newer
    ensures forall g :: g in Load(s).groups <==> exists i: nat :: FirstSound(s.disk, i) && g == Cleaned(s.disk[i])
    ensures NamesAscend(Load(s).groups)
  {
    ByNameKeeps(LoadAll(s.disk));
    ByNameAscends(LoadAll(s.disk));
    forall g ensures g in Load(s).groups <==> exists i: nat :: FirstSound(s.disk, i) && g == Cleaned(s.disk[i]) {
      LoadAllExactly(s.disk, g);
    }
  }
}
