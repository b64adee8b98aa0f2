/**
  What every run of group and chain edits keeps: valid chains, unique ids also across
  reloads, and nothing lost between saving and loading.
 */
module ChainRules {
  import opened Prelude
  import opened Sequences
  import opened Text
  import opened Decimal
  import opened Chains

  // What loading guarantees of a record; `strict` adds what the edits guarantee of a chain.
  predicate GroupOk(strict: bool, g: Group) {
    && g.id != "" && g.name != "" && KindAgrees(g)
    && Distinct(g.members) && "" !in g.members
    && (strict && g.kind == CHAIN ==> ValidHops(g.members))
  }

  predicate UniqueIds(gs: seq<Group>) { forall i, j | 0 <= i < j < |gs| :: gs[i].id != gs[j].id }

  predicate AllOk(strict: bool, gs: seq<Group>) { forall g | g in gs :: GroupOk(strict, g) }

  predicate Orderly(strict: bool, gs: seq<Group>) { UniqueIds(gs) && AllOk(strict, gs) }

  predicate SuffixBelow(g: Group, prefix: string, next: int) {
    Suffix(g, prefix).Some? ==> Suffix(g, prefix).value < next
  }

  // Every number in the list with this prefix is below the counter.
  predicate Below(gs: seq<Group>, prefix: string, next: int) {
    forall g | g in gs :: SuffixBelow(g, prefix, next)
  }

  predicate Numbered(gs: seq<Group>, nextGroup: int, nextChain: int) {
    Below(gs, USER_PREFIX, nextGroup) && Below(gs, CHAIN_PREFIX, nextChain)
  }

  // The invariant, for the records in memory and for those a reload would find; b bounds
  // the counters.
  predicate Inv(strict: bool, s: State, b: int) {
    && Orderly(strict, s.groups)
    && Numbered(s.groups, s.nextGroup, s.nextChain)
    && 1 <= s.nextGroup <= b && 1 <= s.nextChain <= b
    && (!s.newer ==> AllOk(strict, LoadAll(s.disk)) && Numbered(LoadAll(s.disk), s.nextGroup, s.nextChain))
  }

  // ---- Replacing, dropping, adding ----

  lemma NumberedGrows(gs: seq<Group>, a: int, c: int, a': int, c': int)
    requires Numbered(gs, a, c) && a <= a' && c <= c'
    ensures Numbered(gs, a', c')
  {
  }

  lemma SaveKeeps(strict: bool, s: State, writes: bool, b: int)
    requires Inv(strict, s, b)
    ensures Inv(strict, Save(s, writes).0, b)
  {
    LoadAllIsIdentity(strict, s.groups);
  }

  lemma ReplaceKeeps(strict: bool, s: State, k: nat, g: Group, writes: bool, b: int)
    requires Inv(strict, s, b) && k < |s.groups| && GroupOk(strict, g) && g.id == s.groups[k].id
    ensures Inv(strict, Replace(s, k, g, writes).0, b)
  {
    var gs, was := s.groups[k := g], s.groups[k];
    assert was in s.groups;
    forall x | x in gs
      ensures GroupOk(strict, x)
      ensures SuffixBelow(x, USER_PREFIX, s.nextGroup) && SuffixBelow(x, CHAIN_PREFIX, s.nextChain)
    {
      if x != g { assert x in s.groups; }
    }
    SaveKeeps(strict, s.(groups := gs), writes, b);
  }

  lemma DropKeeps(strict: bool, s: State, k: nat, writes: bool, b: int)
    requires Inv(strict, s, b) && k < |s.groups|
    ensures Inv(strict, Drop(s, k, writes).0, b)
  {
    var gs := s.groups[..k] + s.groups[k + 1..];
    assert forall x | x in gs :: x in s.groups;
    SaveKeeps(strict, s.(groups := gs), writes, b);
  }

  lemma {:induction false} InsertByNamePermutes(gs: seq<Group>, g: Group)
    ensures multiset(InsertByName(gs, g)) == multiset(gs) + multiset{g}
  {
    if gs != [] {
      assert gs == gs[..|gs| - 1] + [gs[|gs| - 1]];
      InsertByNamePermutes(gs[..|gs| - 1], g);
    }
  }

  lemma MembersOfInsert(gs: seq<Group>, g: Group)
    ensures forall x :: x in InsertByName(gs, g) <==> x in gs || x == g
  {
    InsertByNamePermutes(gs, g);
    forall x ensures x in InsertByName(gs, g) <==> x in gs || x == g {
      assert x in InsertByName(gs, g) <==> x in multiset(InsertByName(gs, g));
    }
  }

  lemma {:induction false} InsertByNameUnique(gs: seq<Group>, g: Group)
    requires UniqueIds(gs) && forall x | x in gs :: x.id != g.id
    ensures UniqueIds(InsertByName(gs, g))
  {
    if gs != [] && Compare(g.name, gs[|gs| - 1].name) < 0 {
      var init, last := gs[..|gs| - 1], gs[|gs| - 1];
      InsertByNameUnique(init, g);
      MembersOfInsert(init, g);
      assert forall x | x in InsertByName(init, g) :: x.id != last.id;
    }
  }

  lemma {:induction false} ByNameKeeps(gs: seq<Group>)
    ensures multiset(ByName(gs)) == multiset(gs)
    ensures forall x :: x in ByName(gs) <==> x in gs
  {
    if gs != [] {
      var init, last := gs[..|gs| - 1], gs[|gs| - 1];
      assert gs == init + [last];
      ByNameKeeps(init);
      InsertByNamePermutes(ByName(init), last);
      MembersOfInsert(ByName(init), last);
    }
  }

  lemma {:induction false} ByNameUnique(gs: seq<Group>)
    requires UniqueIds(gs)
    ensures UniqueIds(ByName(gs))
  {
    if gs != [] {
      var init := gs[..|gs| - 1];
      ByNameUnique(init);
      ByNameKeeps(init);
      InsertByNameUnique(ByName(init), gs[|gs| - 1]);
    }
  }

  // A number at or above the counter is not in the list.
  lemma FreshId(gs: seq<Group>, prefix: string, n: int)
    requires Below(gs, prefix, n) && Fits(n)
    ensures forall g | g in gs :: g.id != prefix + Format(n)
  {
    AtoiOfFormat(n);
    assert (prefix + Format(n))[|prefix|..] == Format(n);
    forall g | g in gs ensures g.id != prefix + Format(n) { assert SuffixBelow(g, prefix, n); }
  }

  lemma NewIdSuffix(g: Group, prefix: string, n: int)
    requires g.id == prefix + Format(n) && Fits(n)
    ensures Suffix(g, prefix) == Some(n)
  {
    AtoiOfFormat(n);
    assert g.id[|prefix|..] == Format(n);
  }

  // A user id never reads as a chain id or the other way round.
  lemma PrefixesAreDisjoint(g: Group)
    ensures !(HasPrefix(g.id, USER_PREFIX) && HasPrefix(g.id, CHAIN_PREFIX))
  {
    assert USER_PREFIX[0] == 'g' && CHAIN_PREFIX[0] == 'p';
  }

  lemma AddKeeps(strict: bool, gs: seq<Group>, g: Group, nextGroup: int, nextChain: int)
    requires Orderly(strict, gs) && GroupOk(strict, g) && Numbered(gs + [g], nextGroup, nextChain)
    requires forall x | x in gs :: x.id != g.id
    ensures Orderly(strict, ByName(gs + [g])) && Numbered(ByName(gs + [g]), nextGroup, nextChain)
  {
    ByNameKeeps(gs + [g]);
    ByNameUnique(gs + [g]);
  }

  lemma CreateKeeps(strict: bool, s: State, g: Group, b: int)
    requires Inv(strict, s, b) && b < MAX_INT && GroupOk(strict, g)
    requires g.id == (if g.kind == CHAIN then CHAIN_PREFIX + Format(s.nextChain) else USER_PREFIX + Format(s.nextGroup))
    ensures var t := s.(groups := ByName(s.groups + [g]));
      Inv(strict, if g.kind == CHAIN then t.(nextChain := s.nextChain + 1) else t.(nextGroup := s.nextGroup + 1), b + 1)
  {
    PrefixesAreDisjoint(g);
    var prefix := if g.kind == CHAIN then CHAIN_PREFIX else USER_PREFIX;
    var n := if g.kind == CHAIN then s.nextChain else s.nextGroup;
    FreshId(s.groups, prefix, n);
    NewIdSuffix(g, prefix, n);
    if g.kind == CHAIN {
      AddKeeps(strict, s.groups, g, s.nextGroup, s.nextChain + 1);
    } else {
      AddKeeps(strict, s.groups, g, s.nextGroup + 1, s.nextChain);
    }
  }

  // ---- Hop lists ----

  lemma DistinctWithout(ids: seq<Id>, k: nat)
    requires Distinct(ids) && k < |ids|
    ensures Distinct(Without(ids, k)) && forall x :: x in Without(ids, k) <==> x in ids && x != ids[k]
  {
    forall x ensures x in Without(ids, k) <==> x in ids && x != ids[k] {
      if x in ids && x != ids[k] {
        var i :| 0 <= i < |ids| && ids[i] == x;
        assert Without(ids, k)[if i < k then i else i - 1] == x;
      }
    }
  }

  lemma DistinctWith(ids: seq<Id>, k: nat, id: Id)
    requires Distinct(ids) && k <= |ids| && id !in ids
    ensures Distinct(With(ids, k, id)) && forall x :: x in With(ids, k, id) <==> x in ids || x == id
  {
    assert ids == ids[..k] + ids[k..];
  }

  /** Taking out the hop that was put in restores the list. */
  lemma RemoveUndoesAdd(ids: seq<Id>, hop: Id, position: int)
    requires hop !in ids
    ensures hop in Added(ids, hop, position)
    ensures Without(Added(ids, hop, position), IndexOf(Added(ids, hop, position), hop)) == ids
    ensures Added(ids, hop, position)[Spot(position, |ids|)] == hop
  {
    var k := Spot(position, |ids|);
    var added := Added(ids, hop, position);
    assert ids == ids[..k] + ids[k..] && added[k] == hop;
    var i := IndexOf(added, hop);
    forall j | 0 <= j < |added| && j != k ensures added[j] in ids {
      assert added[j] == if j < k then ids[j] else ids[j - 1];
    }
  }

  /** Reordering moves one hop and leaves the others in their order. */
  lemma ReorderMovesOne(ids: seq<Id>, hop: Id, position: int)
    requires Distinct(ids) && hop in ids
    ensures var moved := Reordered(ids, hop, position);
      && multiset(moved) == multiset(ids)
      && hop in moved
      && moved[Spot(position, |ids| - 1)] == hop
      && Without(moved, IndexOf(moved, hop)) == Without(ids, IndexOf(ids, hop))
  {
    var i := IndexOf(ids, hop);
    var rest := Without(ids, i);
    DistinctWithout(ids, i);
    WithoutPermutes(ids, i);
    WithPermutes(rest, Spot(position, |rest|), hop);
    RemoveUndoesAdd(rest, hop, position);
    assert Reordered(ids, hop, position) == Added(rest, hop, position);
  }

  lemma AddedIsValid(ids: seq<Id>, hop: Id, position: int)
    requires ValidHops(ids + [hop])
    ensures ValidHops(Added(ids, hop, position))
  {
    var k, all := Spot(position, |ids|), ids + [hop];
    forall i, j | 0 <= i < j < |ids| ensures ids[i] != ids[j] {
      assert all[i] == ids[i] && all[j] == ids[j];
    }
    forall x | x in ids ensures x != hop {
      var i :| 0 <= i < |ids| && ids[i] == x;
      assert all[i] != all[|ids|];
    }
    DistinctWith(ids, k, hop);
    assert hop in all && forall x | x in ids :: x in all;
  }

  lemma ReorderedKeeps(ids: seq<Id>, hop: Id, position: int)
    requires Distinct(ids) && hop in ids
    ensures var moved := Reordered(ids, hop, position);
      Distinct(moved) && |moved| == |ids| && forall x :: x in moved <==> x in ids
  {
    var rest := Without(ids, IndexOf(ids, hop));
    DistinctWithout(ids, IndexOf(ids, hop));
    DistinctWith(rest, Spot(position, |rest|), hop);
  }

  // ---- Every edit ----

  lemma HopEditKeeps(strict: bool, s: State, e: Edit, b: int)
    requires Inv(strict, s, b) && (e.AddHop? || e.RemoveHop? || e.ReorderHop?)
    ensures Inv(strict, Apply(s, e).0, b)
  {
    match e
    case AddHop(id, hop, position, store, writes) =>
      var k := Find(s.groups, id, CHAIN);
      if Apply(s, e).1 != Refused {
        var g := s.groups[k];
        AddedIsValid(g.members, hop, position);
        assert g in s.groups;
        ReplaceKeeps(strict, s, k, g.(members := Added(g.members, hop, position)), writes, b);
      }
    case RemoveHop(id, hop, writes) =>
      var k := FindHop(s.groups, id, hop);
      if Apply(s, e).1 != Refused {
        var g := s.groups[k];
        assert g in s.groups;
        var i := IndexOf(g.members, hop);
        DistinctWithout(g.members, i);
        ReplaceKeeps(strict, s, k, g.(members := Without(g.members, i)), writes, b);
      }
    case ReorderHop(id, hop, position, writes) =>
      var k := Find(s.groups, id, CHAIN);
      if Apply(s, e).1 != Refused {
        var g := s.groups[k];
        assert g in s.groups;
        ReorderedKeeps(g.members, hop, position);
        ReplaceKeeps(strict, s, k, g.(members := Reordered(g.members, hop, position)), writes, b);
      }
  }

  lemma RenameKeeps(strict: bool, s: State, id: Id, kind: string, name: string, writes: bool, b: int)
    requires Inv(strict, s, b)
    ensures Inv(strict, Rename(s, id, kind, name, writes).0, b)
  {
    var k := Find(s.groups, id, kind);
    if name != "" && k < |s.groups| {
      assert s.groups[k] in s.groups;
      ReplaceKeeps(strict, s, k, s.groups[k].(name := name), writes, b);
    }
  }

  lemma DeleteKeeps(strict: bool, s: State, id: Id, kind: string, writes: bool, b: int)
    requires Inv(strict, s, b)
    ensures Inv(strict, Delete(s, id, kind, writes).0, b)
  {
    var k := Find(s.groups, id, kind);
    if k < |s.groups| { DropKeeps(strict, s, k, writes, b); }
  }

  lemma MemberEditKeeps(strict: bool, s: State, e: Edit, b: int)
    requires Inv(strict, s, b) && (e.AddMember? || e.RemoveMember?)
    ensures Inv(strict, Apply(s, e).0, b)
  {
    var k := Find(s.groups, e.id, USER);
    if k < |s.groups| {
      var g := s.groups[k];
      assert g in s.groups && g.kind != CHAIN;
      match e
      case AddMember(id, member, writes) =>
        if member != "" && member !in g.members {
          ReplaceKeeps(strict, s, k, g.(members := g.members + [member]), writes, b);
        }
      case RemoveMember(id, member, writes) =>
        var i := IndexOf(g.members, member);
        if i < |g.members| {
          DistinctWithout(g.members, i);
          ReplaceKeeps(strict, s, k, g.(members := Without(g.members, i)), writes, b);
        } else {
          ReplaceKeeps(strict, s, k, g, writes, b);
        }
    }
  }

  lemma CreateEditKeeps(strict: bool, s: State, e: Edit, b: int)
    requires Inv(strict, s, b) && b < MAX_INT && (e.CreateChain? || e.CreateGroup?)
    ensures Inv(strict, Apply(s, e).0, b + 1)
  {
    if Apply(s, e).1 == Refused {
      InvGrows(strict, s, b);
    } else {
      match e
      case CreateChain(name, ids, store, taken, writes) =>
        var g := Group(CHAIN_PREFIX + Format(s.nextChain), CHAIN, name, ids);
        CreateKeeps(strict, s, g, b);
        SaveKeeps(strict, s.(groups := ByName(s.groups + [g]), nextChain := s.nextChain + 1), writes, b + 1);
      case CreateGroup(name, taken, writes) =>
        var g := Group(USER_PREFIX + Format(s.nextGroup), USER, name, []);
        CreateKeeps(strict, s, g, b);
        SaveKeeps(strict, s.(groups := ByName(s.groups + [g]), nextGroup := s.nextGroup + 1), writes, b + 1);
    }
  }

  lemma InvGrows(strict: bool, s: State, b: int)
    requires Inv(strict, s, b)
    ensures Inv(strict, s, b + 1)
  {
  }

  // ---- Loading ----

  // Loading an orderly document drops and changes nothing.
  lemma {:induction false} LoadAllIsIdentity(strict: bool, doc: seq<Group>)
    requires Orderly(strict, doc)
    ensures LoadAll(doc) == doc
  {
    if doc != [] {
      var init, g := doc[..|doc| - 1], doc[|doc| - 1];
      assert doc == init + [g];
      LoadAllIsIdentity(strict, init);
      assert GroupOk(strict, g);
      DedupedIsIdentity(g.members);
      assert Loadable(init, g);
    }
  }

  lemma {:induction false} HighestDominates(gs: seq<Group>, prefix: string, g: Group)
    requires g in gs && Suffix(g, prefix).Some?
    ensures Highest(gs, prefix) >= Suffix(g, prefix).value
  {
    var init, last := gs[..|gs| - 1], gs[|gs| - 1];
    assert gs == init + [last];
    if g in init { HighestDominates(init, prefix, g); }
  }

  lemma {:induction false} HighestBelow(gs: seq<Group>, prefix: string, b: int)
    requires Below(gs, prefix, b) && 1 <= b
    ensures Highest(gs, prefix) < b
  {
    if gs != [] {
      var init, last := gs[..|gs| - 1], gs[|gs| - 1];
      assert forall g | g in init :: g in gs;
      assert last in gs && SuffixBelow(last, prefix, b);
      HighestBelow(init, prefix, b);
    }
  }

  /** Whatever document is on disk, what is loaded has unique ids that fit their kind. */
  lemma {:induction false} AnyDocumentLoadsClean(doc: seq<Group>)
    ensures UniqueIds(LoadAll(doc)) && AllOk(false, LoadAll(doc))
  {
    if doc != [] {
      var init, g := doc[..|doc| - 1], doc[|doc| - 1];
      AnyDocumentLoadsClean(init);
      DedupedIsDistinct(g.members);
      var before := LoadAll(init);
      assert forall x | x in before :: x.id in Ids(before);
    }
  }

  // Counters derived from the highest number are above every number in the list.
  lemma LoadedNumbers(gs: seq<Group>, prefix: string)
    requires Highest(gs, prefix) < MAX_INT
    ensures NextId(gs, prefix) == Highest(gs, prefix) + 1 && Below(gs, prefix, NextId(gs, prefix))
  {
    forall g | g in gs ensures SuffixBelow(g, prefix, NextId(gs, prefix)) {
      if Suffix(g, prefix).Some? { HighestDominates(gs, prefix, g); }
    }
  }

  // A document none of whose numbers is the greatest integer.
  predicate Roomy(doc: seq<Group>) {
    Highest(ByName(LoadAll(doc)), USER_PREFIX) < MAX_INT && Highest(ByName(LoadAll(doc)), CHAIN_PREFIX) < MAX_INT
  }

  lemma LoadEstablishes(strict: bool, s: State, b: int)
    requires !s.newer && Roomy(s.disk) && AllOk(strict, LoadAll(s.disk))
    requires Load(s).nextGroup <= b && Load(s).nextChain <= b
    ensures Inv(strict, Load(s), b)
  {
    var doc := LoadAll(s.disk);
    AnyDocumentLoadsClean(s.disk);
    ByNameKeeps(doc);
    ByNameUnique(doc);
    LoadedNumbers(ByName(doc), USER_PREFIX);
    LoadedNumbers(ByName(doc), CHAIN_PREFIX);
  }

  /** From any document at all, whatever its chains look like, the invariant holds at the start. */
  lemma AnyDocumentStarts(doc: seq<Group>, newer: bool)
    requires Roomy(doc)
    ensures var s := Load(State([], 1, 1, doc, newer));
      Inv(false, s, if s.nextGroup < s.nextChain then s.nextChain else s.nextGroup)
  {
    AnyDocumentLoadsClean(doc);
    if !newer {
      var s := Load(State([], 1, 1, doc, newer));
      var b := if s.nextGroup < s.nextChain then s.nextChain else s.nextGroup;
      LoadEstablishes(false, State([], 1, 1, doc, newer), b);
    }
  }

  lemma LoadKeeps(strict: bool, s: State, b: int)
    requires Inv(strict, s, b) && b <= MAX_INT
    ensures Inv(strict, Load(s), b)
  {
    if !s.newer {
      var gs := ByName(LoadAll(s.disk));
      ByNameKeeps(LoadAll(s.disk));
      HighestBelow(gs, USER_PREFIX, s.nextGroup);
      HighestBelow(gs, CHAIN_PREFIX, s.nextChain);
      LoadEstablishes(strict, s, b);
    }
  }

  /** Reading a saved sidecar back gives exactly the records written to it. */
  lemma ReloadIsLossless(s: State)
    requires Orderly(false, s.disk) && !s.newer
    ensures multiset(Load(s).groups) == multiset(s.disk)
  {
    LoadAllIsIdentity(false, s.disk);
    ByNameKeeps(s.disk);
  }

  lemma EditKeeps(strict: bool, s: State, e: Edit, b: int)
    requires Inv(strict, s, b) && b < MAX_INT
    ensures Inv(strict, Apply(s, e).0, b + 1)
  {
    match e
    case CreateChain(_, _, _, _, _) => CreateEditKeeps(strict, s, e, b);
    case CreateGroup(_, _, _) => CreateEditKeeps(strict, s, e, b);
    case _ =>
      OtherEditKeeps(strict, s, e, b);
      InvGrows(strict, Apply(s, e).0, b);
  }

  lemma OtherEditKeeps(strict: bool, s: State, e: Edit, b: int)
    requires Inv(strict, s, b) && b < MAX_INT && !e.CreateChain? && !e.CreateGroup?
    ensures Inv(strict, Apply(s, e).0, b)
  {
    match e
    case RenameChain(id, name, writes) => RenameKeeps(strict, s, id, CHAIN, name, writes, b);
    case DeleteChain(id, writes) => DeleteKeeps(strict, s, id, CHAIN, writes, b);
    case RenameGroup(id, name, writes) => RenameKeeps(strict, s, id, USER, name, writes, b);
    case DeleteGroup(id, writes) => DeleteKeeps(strict, s, id, USER, writes, b);
    case AddMember(_, _, _) => MemberEditKeeps(strict, s, e, b);
    case RemoveMember(_, _, _) => MemberEditKeeps(strict, s, e, b);
    case Reload => LoadKeeps(strict, s, b);
    case _ => HopEditKeeps(strict, s, e, b);
  }

  // The document is the old one or the records of an orderly state.
  lemma EditSaves(strict: bool, s: State, e: Edit, b: int)
    requires Inv(strict, s, b) && b < MAX_INT
    ensures Apply(s, e).0.disk == s.disk || Orderly(strict, Apply(s, e).0.disk)
  {
    EditKeeps(strict, s, e, b);
  }

  /**
    Over any run of fewer than 2^63 edits, failed saves and reloads: ids stay unique, in
    memory and in every document written, and the counters stay above every number in
    memory and above every number a reload would find. With `strict`, every chain keeps two
    to four distinct, non-nested hops throughout.
   */
  lemma {:induction false} RunsStayOrderly(strict: bool, s: State, es: seq<Edit>, b: int)
    requires Inv(strict, s, b) && b + |es| <= MAX_INT
    ensures Inv(strict, Run(s, es), b + |es|)
    ensures Run(s, es).disk == s.disk || Orderly(strict, Run(s, es).disk)
  {
    if es != [] {
      var n := |es| - 1;
      RunsStayOrderly(strict, s, es[..n], b);
      EditKeeps(strict, Run(s, es[..n]), es[n], b + n);
      EditSaves(strict, Run(s, es[..n]), es[n], b + n);
    }
  }

  /** An edit refused by validation changes nothing, in memory or on disk. */
  lemma RefusedChangesNothing(s: State, e: Edit)
    requires Apply(s, e).1 == Refused
    ensures Apply(s, e).0 == s
  {
  }

  // An addition of a member the group already has.
  predicate Idle(s: State, e: Edit) {
    e.AddMember? &&
    var k := Find(s.groups, e.id, USER);
    k < |s.groups| && e.member in s.groups[k].members
  }

  /**
    An edit whose write fails is reported as not saved, and yet it stays in memory exactly as
    if it had been saved; only the document is the old one.
   */
  lemma FailedSaveKeepsEdit(s: State, e: Edit)
    requires !e.Reload? && !e.writes
    ensures var ((t, o), (t', o')) := (Apply(s, e), Apply(s, e.(writes := true)));
      && t == t'.(disk := s.disk)
      && (o == Refused <==> o' == Refused)
      && (o != Refused && !Idle(s, e) ==> o == NotSaved)
  {
  }

  /** The next edit that is saved takes all of memory to disk, unsaved edits included. */
  lemma SaveTakesEverything(s: State, e: Edit)
    requires !e.Reload? && Apply(s, e).1 == Saved && !Idle(s, e)
    ensures Apply(s, e).0.disk == Apply(s, e).0.groups
  {
  }

  // ---- When an id comes back ----

  predicate NoReload(es: seq<Edit>) { forall i | 0 <= i < |es| :: !es[i].Reload? }

  lemma EditCounts(s: State, e: Edit)
    requires !e.Reload? && s.nextGroup < MAX_INT && s.nextChain < MAX_INT
    ensures Apply(s, e).0.nextGroup >= s.nextGroup && Apply(s, e).0.nextChain >= s.nextChain
  {
  }

  lemma {:induction false} CountersGrow(strict: bool, s: State, es: seq<Edit>, b: int)
    requires Inv(strict, s, b) && b + |es| < MAX_INT && NoReload(es)
    ensures Run(s, es).nextGroup >= s.nextGroup && Run(s, es).nextChain >= s.nextChain
  {
    if es != [] {
      var n := |es| - 1;
      CountersGrow(strict, s, es[..n], b);
      RunsStayOrderly(strict, s, es[..n], b);
      EditCounts(Run(s, es[..n]), es[n]);
    }
  }

  lemma FormatsDiffer(prefix: string, m: int, n: int)
    requires Fits(m) && Fits(n) && m != n
    ensures prefix + Format(m) != prefix + Format(n)
  {
    AtoiOfFormat(m);
    AtoiOfFormat(n);
    assert (prefix + Format(m))[|prefix|..] == Format(m) && (prefix + Format(n))[|prefix|..] == Format(n);
  }

  /** Between two reloads no id is given out twice, even if its record was deleted. */
  lemma GivenOnceBetweenReloads(strict: bool, s: State, e: Edit, es: seq<Edit>, b: int)
    requires Inv(strict, s, b) && b + |es| + 1 < MAX_INT && NoReload(es)
    requires (e.CreateGroup? || e.CreateChain?) && Apply(s, e).1 != Refused
    ensures IdToCome(s, e) != IdToCome(Run(Apply(s, e).0, es), e)
  {
    var s1 := Apply(s, e).0;
    CreationCounts(s, e);
    EditKeeps(strict, s, e, b);
    CountersGrow(strict, s1, es, b + 1);
    RunsStayOrderly(strict, s1, es, b + 1);
    IdsMoveOn(s, s1, Run(s1, es), e);
  }

  // The id the next creation of this kind would give out.
  function IdToCome(s: State, e: Edit): Id {
    if e.CreateGroup? then USER_PREFIX + Format(s.nextGroup) else CHAIN_PREFIX + Format(s.nextChain)
  }

  predicate CountsFit(s: State) { 1 <= s.nextGroup <= MAX_INT && 1 <= s.nextChain <= MAX_INT }

  lemma CreationCounts(s: State, e: Edit)
    requires (e.CreateGroup? || e.CreateChain?) && Apply(s, e).1 != Refused
    requires s.nextGroup < MAX_INT && s.nextChain < MAX_INT
    ensures if e.CreateGroup? then Apply(s, e).0.nextGroup == s.nextGroup + 1
            else Apply(s, e).0.nextChain == s.nextChain + 1
  {
  }

  lemma IdsMoveOn(s: State, s1: State, t: State, e: Edit)
    requires CountsFit(s) && CountsFit(t) && t.nextGroup >= s1.nextGroup && t.nextChain >= s1.nextChain
    requires if e.CreateGroup? then s1.nextGroup == s.nextGroup + 1 else s1.nextChain == s.nextChain + 1
    ensures IdToCome(s, e) != IdToCome(t, e)
  {
    if e.CreateGroup? {
      FormatsDiffer(USER_PREFIX, s.nextGroup, t.nextGroup);
    } else {
      FormatsDiffer(CHAIN_PREFIX, s.nextChain, t.nextChain);
    }
  }

  /**
    A reload sets the counter at or below a number exactly when the document holds no record
    with that number or a higher one; only then can the number be given out again.
   */
  lemma NumberReturns(doc: seq<Group>, prefix: string, n: int)
    requires n >= 1 && Highest(ByName(LoadAll(doc)), prefix) < MAX_INT
    ensures NextId(ByName(LoadAll(doc)), prefix) <= n <==> Below(LoadAll(doc), prefix, n)
  {
    var gs := ByName(LoadAll(doc));
    ByNameKeeps(LoadAll(doc));
    LoadedNumbers(gs, prefix);
    if Below(LoadAll(doc), prefix, n) { HighestBelow(gs, prefix, n); }
  }

  const EMPTY := State([], 1, 1, [], false)

  function NewGroup(n: int, name: string): Group { Group(USER_PREFIX + Format(n), USER, name, []) }

  // The state after a saved creation.
  function Created(s: State, name: string): State {
    var gs := ByName(s.groups + [NewGroup(s.nextGroup, name)]);
    s.(groups := gs, nextGroup := Succ(s.nextGroup), disk := gs)
  }

  lemma CreateStep(s: State, name: string)
    requires NameFits(name) && !s.newer
    ensures Apply(s, CreateGroup(name, false, true)).0 == Created(s, name)
  {
  }

  lemma DeleteStep(s: State, g: Group)
    requires s.groups == [g] && g.kind == USER && !s.newer
    ensures Apply(s, DeleteGroup(g.id, true)).0 == s.(groups := [], disk := [])
  {
  }

  lemma ReloadStep(s: State)
    ensures Apply(s, Reload).0 == Load(s)
  {
  }

  lemma OneGroup(g: Group)
    ensures ByName([] + [g]) == [g]
  {
    assert [g][..0] == [] && [] + [g] == [g];
  }

  lemma RunSnoc(s: State, es: seq<Edit>, e: Edit)
    ensures Run(s, es + [e]) == Apply(Run(s, es), e).0
  {
    assert (es + [e])[..|es|] == es;
  }

  // A creation, then a reload, then a creation.
  lemma CreateReloadCreate(s: State, a: string, b: string)
    requires NameFits(a) && NameFits(b) && !s.newer
    ensures Run(s, [CreateGroup(a, false, true)] + [Reload] + [CreateGroup(b, false, true)])
            == Created(Load(Created(s, a)), b)
  {
    var e := CreateGroup(a, false, true);
    assert [] + [e] == [e];
    RunSnoc(s, [], e);
    RunSnoc(s, [e], Reload);
    RunSnoc(s, [e] + [Reload], CreateGroup(b, false, true));
    CreateStep(s, a);
    ReloadStep(Created(s, a));
    CreateStep(Load(Created(s, a)), b);
  }

  /**
    The id of a deleted group goes to the next group after a reload: create, delete, reload
    leads back to the empty state, where both creations give the same id.
   */
  lemma DeletedIdReturns(a: string, b: string)
    requires NameFits(a) && NameFits(b)
    ensures Run(EMPTY, [CreateGroup(a, false, true)]).groups == [NewGroup(1, a)]
    ensures Run(EMPTY, [CreateGroup(a, false, true)] + [DeleteGroup(NewGroup(1, a).id, true)] + [Reload]) == EMPTY
    ensures Run(EMPTY, [CreateGroup(b, false, true)]).groups == [NewGroup(1, b)]
  {
    FirstGroup(a);
    FirstGroup(b);
    var g, e := NewGroup(1, a), CreateGroup(a, false, true);
    RunSnoc(EMPTY, [e], DeleteGroup(g.id, true));
    DeleteStep(State([g], 2, 1, [g], false), g);
    RunSnoc(EMPTY, [e] + [DeleteGroup(g.id, true)], Reload);
    ReloadStep(State([], 2, 1, [], false));
  }

  lemma FirstGroup(name: string)
    requires NameFits(name)
    ensures Run(EMPTY, [CreateGroup(name, false, true)]) == State([NewGroup(1, name)], 2, 1, [NewGroup(1, name)], false)
  {
    assert [] + [CreateGroup(name, false, true)] == [CreateGroup(name, false, true)];
    RunSnoc(EMPTY, [], CreateGroup(name, false, true));
    CreateStep(EMPTY, name);
    OneGroup(NewGroup(1, name));
  }

  // ---- The end of the integers ----

  /** With a record numbered 2^63 - 1 every load proposes the same, smallest integer. */
  lemma WrappedCounterRepeats(gs: seq<Group>, prefix: string, g: Group)
    requires g in gs && Suffix(g, prefix) == Some(MAX_INT)
    ensures NextId(gs, prefix) == MIN_INT
  {
    HighestDominates(gs, prefix, g);
  }

  lemma OrderlyAdd(gs: seq<Group>, g: Group)
    requires Orderly(false, gs) && GroupOk(false, g) && forall x | x in gs :: x.id != g.id
    ensures Orderly(false, ByName(gs + [g])) && forall x :: x in ByName(gs + [g]) <==> x in gs || x == g
  {
    ByNameKeeps(gs + [g]);
    ByNameUnique(gs + [g]);
  }

  lemma WrappedReload(s: State, g: Group)
    requires Orderly(false, s.disk) && !s.newer && g in s.disk && Suffix(g, USER_PREFIX) == Some(MAX_INT)
    ensures Load(s).nextGroup == MIN_INT && !Load(s).newer && forall x | x in s.disk :: x in Load(s).groups
  {
    LoadAllIsIdentity(false, s.disk);
    ByNameKeeps(s.disk);
    WrappedCounterRepeats(ByName(s.disk), USER_PREFIX, g);
  }

  lemma TwoOfOneId(gs: seq<Group>, a: Group, b: Group)
    requires a in gs && b in gs && a != b && a.id == b.id
    ensures !UniqueIds(gs)
  {
    var i :| 0 <= i < |gs| && gs[i] == a;
    var j :| 0 <= j < |gs| && gs[j] == b;
  }

  lemma WrappedCreations(s: State, g: Group, a: string, b: string)
    requires Orderly(false, s.groups) && !s.newer && s.nextGroup == MIN_INT && a != "" && a != b
    requires g in s.groups && Suffix(g, USER_PREFIX) == Some(MAX_INT)
    requires forall x | x in s.groups :: x.id != NewGroup(MIN_INT, a).id
    ensures !UniqueIds(Created(Load(Created(s, a)), b).groups)
  {
    var ga, gb := NewGroup(MIN_INT, a), NewGroup(MIN_INT, b);
    OrderlyAdd(s.groups, ga);
    WrappedReload(Created(s, a), g);
    var t := Load(Created(s, a));
    ByNameKeeps(t.groups + [gb]);
    TwoOfOneId(Created(t, b).groups, ga, gb);
  }

  /**
    There an id does repeat: create, reload, create leaves two groups with one id, from any
    state whose counter has wrapped.
   */
  lemma WrappedIdRepeats(s: State, g: Group, a: string, b: string)
    requires Orderly(false, s.groups) && !s.newer && s.nextGroup == MIN_INT
    requires g in s.groups && Suffix(g, USER_PREFIX) == Some(MAX_INT)
    requires forall x | x in s.groups :: x.id != NewGroup(MIN_INT, a).id
    requires NameFits(a) && NameFits(b) && a != b
    ensures !UniqueIds(Run(s, [CreateGroup(a, false, true)] + [Reload] + [CreateGroup(b, false, true)]).groups)
  {
    CreateReloadCreate(s, a, b);
    WrappedCreations(s, g, a, b);
  }

  lemma SingleLoads(g: Group, disk: State)
    requires GroupOk(false, g) && disk == State([], 1, 1, [g], false)
    ensures Load(disk).groups == [g]
  {
    LoadAllIsIdentity(false, [g]);
    OneGroup(g);
    assert [] + [g] == [g];
  }

  /** A document whose one group has the last number loads to such a state. */
  lemma LastNumberLoads(g: Group, name: string, disk: State)
    requires name != "" && g == NewGroup(MAX_INT, name) && disk == State([], 1, 1, [g], false)
    ensures Load(disk).groups == [g] && !Load(disk).newer && Load(disk).nextGroup == MIN_INT
    ensures Suffix(g, USER_PREFIX) == Some(MAX_INT) && g.id != USER_PREFIX + Format(MIN_INT)
  {
    NewIdSuffix(g, USER_PREFIX, MAX_INT);
    SingleLoads(g, disk);
    WrappedReload(disk, g);
    FormatsDiffer(USER_PREFIX, MAX_INT, MIN_INT);
  }
}
