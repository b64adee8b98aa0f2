/**
  Group filters: the per-record scan, the set compiled once per listing, and the counts of
  the built-in groups (engine/app/services.go and engine/app/collections.go).
 */
module GroupFilter {
  import opened Prelude
  import opened Text

  const FAST_MS := 400
  const RECENT_MS := 86_400_000
  const USER_PREFIX := "g-"

  datatype Group = Group(id: string, members: seq<string>)

  datatype Collections = Collections(favorites: seq<string>, groups: seq<Group>)

  // A decoded store record: its store key and the fields the filters read.
  datatype Record = Record(key: string, id: string, working: bool, latency: int, testedAt: int,
                           protocol: string, source: string, address: string, backend: string)

  predicate BuiltIn(group: string) {
    group in {"", "all", "working", "untested", "fast", "recently_tested"}
  }

  // The members of the first group with this id.
  function MembersOf(groups: seq<Group>, id: string): Option<seq<string>> {
    if groups == [] then None
    else if groups[0].id == id then Some(groups[0].members)
    else MembersOf(groups[1..], id)
  }

  // What the set compiled for a group holds; None stands for Go's nil map.
  function Compiled(c: Collections, group: string): Option<set<string>> {
    if BuiltIn(group) then None
    else if group == "favorites" then Some(set id | id in c.favorites)
    else if HasPrefix(group, USER_PREFIX) then
      match MembersOf(c.groups, group)
      case Some(m) => Some(set id | id in m)
      case None => None
    else None
  }

  // Whether a group accepts a record, asked of the record and the collections alone.
  predicate Accepts(c: Collections, group: string, r: Record, now: int) {
    if group == "" || group == "all" then true
    else if group == "favorites" then r.id in c.favorites
    else if group == "working" then r.testedAt > 0 && r.working
    else if group == "untested" then r.testedAt == 0
    else if group == "fast" then r.testedAt > 0 && r.working && r.latency <= FAST_MS
    else if group == "recently_tested" then r.testedAt > 0 && now - r.testedAt <= RECENT_MS
    else
      HasPrefix(group, USER_PREFIX) &&
      var m := MembersOf(c.groups, group);
      m.Some? && r.id in m.value
  }

  /** Snapshots the membership a group filter needs, in one pass. */
  method CompileMemberSet(c: Collections, group: string) returns (memberSet: Option<set<string>>)
    ensures memberSet == Compiled(c, group)
  {
    if BuiltIn(group) { return None; }
    if group == "favorites" {
      var all := ToSet(c.favorites);
      return Some(all);
    }
    if HasPrefix(group, USER_PREFIX) {
      for i := 0 to |c.groups|
        invariant MembersOf(c.groups, group) == MembersOf(c.groups[i..], group)
      {
        if c.groups[i].id != group { continue; }
        var all := ToSet(c.groups[i].members);
        return Some(all);
      }
    }
    return None;
  }

  method ToSet(ids: seq<string>) returns (all: set<string>)
    ensures all == set id | id in ids
  {
    all := {};
    for i := 0 to |ids|
      invariant all == set id | id in ids[..i]
    {
      all := all + {ids[i]};
    }
  }

  method Contains(ids: seq<string>, id: string) returns (found: bool)
    ensures found == (id in ids)
  {
    for i := 0 to |ids|
      invariant id !in ids[..i]
    {
      if ids[i] == id { return true; }
    }
    return false;
  }

  /**
    The filter with an optional compiled set. Given the set compiled for the same group, or
    none at all, the answer is what the collections say of the record.
   */
  method Matches(c: Collections, group: string, r: Record, memberSet: Option<set<string>>, now: int)
    returns (ok: bool)
    requires memberSet == None || memberSet == Compiled(c, group)
    ensures ok == Accepts(c, group, r, now)
  {
    if group == "" || group == "all" { return true; }
    if group == "favorites" {
      if memberSet.Some? { return r.id in memberSet.value; }
      ok := Contains(c.favorites, r.id);
      return;
    }
    if group == "working" { return r.testedAt > 0 && r.working; }
    if group == "untested" { return r.testedAt == 0; }
    if group == "fast" { return r.testedAt > 0 && r.working && r.latency <= FAST_MS; }
    if group == "recently_tested" { return r.testedAt > 0 && now - r.testedAt <= RECENT_MS; }
    if HasPrefix(group, USER_PREFIX) {
      if memberSet.Some? { return r.id in memberSet.value; }
      for i := 0 to |c.groups|
        invariant MembersOf(c.groups, group) == MembersOf(c.groups[i..], group)
      {
        if c.groups[i].id != group { continue; }
        ok := Contains(c.groups[i].members, r.id);
        return;
      }
    }
    return false;
  }

  // ---- Counts of the built-in groups ----

  datatype Counts = Counts(all: nat, favorites: nat, working: nat, untested: nat, fast: nat, recent: nat)

  function CountOf(n: Counts, group: string): nat {
    if group == "all" then n.all
    else if group == "favorites" then n.favorites
    else if group == "working" then n.working
    else if group == "untested" then n.untested
    else if group == "fast" then n.fast
    else if group == "recently_tested" then n.recent
    else 0
  }

  const BUILT_IN_IDS := ["all", "favorites", "working", "untested", "fast", "recently_tested"]

  function Bit(b: bool): nat { if b then 1 else 0 }

  // How many records a group filter accepts.
  function Accepted(c: Collections, group: string, rs: seq<Record>, now: int): nat {
    if rs == [] then 0
    else Accepted(c, group, rs[..|rs| - 1], now) + Bit(Accepts(c, group, rs[|rs| - 1], now))
  }

  // Whether the count scan adds one for this record. It reads an empty id as the store key
  // and takes every non-zero stamp for a measurement.
  predicate Counted(c: Collections, group: string, r: Record, now: int) {
    if group == "favorites" then (if r.id == "" then r.key else r.id) in c.favorites
    else if group == "working" then r.testedAt != 0 && r.working
    else if group == "untested" then r.testedAt == 0
    else if group == "fast" then r.testedAt != 0 && r.working && r.latency <= FAST_MS
    else if group == "recently_tested" then r.testedAt != 0 && now - r.testedAt <= RECENT_MS
    else group == "all"
  }

  function Total(c: Collections, group: string, rs: seq<Record>, now: int): nat {
    if rs == [] then 0
    else Total(c, group, rs[..|rs| - 1], now) + Bit(Counted(c, group, rs[|rs| - 1], now))
  }

  /** One scan of the store that fills all six counters. */
  method ScanCounts(c: Collections, rs: seq<Record>, now: int) returns (n: Counts)
    ensures forall g | g in BUILT_IN_IDS :: CountOf(n, g) == Total(c, g, rs, now)
  {
    var favorites := ToSet(c.favorites);
    n := Counts(0, 0, 0, 0, 0, 0);
    for i := 0 to |rs|
      invariant forall g | g in BUILT_IN_IDS :: CountOf(n, g) == Total(c, g, rs[..i], now)
    {
      assert rs[..i + 1][..i] == rs[..i];
      var r := rs[i];
      var id := if r.id == "" then r.key else r.id;
      n := n.(all := n.all + 1);
      if id in favorites { n := n.(favorites := n.favorites + 1); }
      if r.testedAt == 0 {
        n := n.(untested := n.untested + 1);
      } else {
        if r.working { n := n.(working := n.working + 1); }
        if now - r.testedAt <= RECENT_MS { n := n.(recent := n.recent + 1); }
      }
      if r.testedAt != 0 && r.working && r.latency <= FAST_MS { n := n.(fast := n.fast + 1); }
    }
    assert rs[..|rs|] == rs;
  }

  // A record the count takes and the filter does not: a stamp before the epoch, or an
  // empty id whose store key is a favorite.
  predicate Stray(c: Collections, group: string, r: Record, now: int) {
    if group == "favorites" then r.id == "" && r.key in c.favorites
    else if group == "working" then r.testedAt < 0 && r.working
    else if group == "fast" then r.testedAt < 0 && r.working && r.latency <= FAST_MS
    else if group == "recently_tested" then r.testedAt < 0 && now - r.testedAt <= RECENT_MS
    else false
  }

  // The sidecar never holds an empty favorite.
  predicate Clean(c: Collections) { "" !in c.favorites }

  lemma CountedIsAcceptedOrStray(c: Collections, group: string, r: Record, now: int)
    requires Clean(c) && group in BUILT_IN_IDS
    ensures Bit(Counted(c, group, r, now)) == Bit(Accepts(c, group, r, now)) + Bit(Stray(c, group, r, now))
  {
  }

  /**
    A built-in count is never below what its filter returns, and equals it exactly when the
    store holds no stray record for that group.
   */
  lemma {:induction false} CountsMatchTheFilter(c: Collections, group: string, rs: seq<Record>, now: int)
    requires Clean(c) && group in BUILT_IN_IDS
    ensures Total(c, group, rs, now) >= Accepted(c, group, rs, now)
    ensures Total(c, group, rs, now) == Accepted(c, group, rs, now) <==>
            forall r | r in rs :: !Stray(c, group, r, now)
  {
    if rs != [] {
      var init, last := rs[..|rs| - 1], rs[|rs| - 1];
      assert rs == init + [last];
      CountsMatchTheFilter(c, group, init, now);
      CountedIsAcceptedOrStray(c, group, last, now);
    }
  }
}
