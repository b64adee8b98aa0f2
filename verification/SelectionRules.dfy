/**
  What the fresh-selection loop promises: bounded, trusted, never excluded or cooling
  candidates, recent successes first, and a cooldown that holds across loops.
 */
module SelectionRules {
  import opened Sequences
  import opened Selection

  ghost predicate Ranks(rank: seq<Record> -> seq<Id>) {
    forall rs :: multiset(rank(rs)) == multiset(Ids(rs))
  }

  predicate DistinctIds(rs: seq<Record>) {
    forall i, j | 0 <= i < j < |rs| :: rs[i].id != rs[j].id
  }

  // ---- Filters, ids and lookups ----

  lemma {:induction false} IdAt(rs: seq<Record>, k: nat)
    requires k < |rs|
    ensures Ids(rs)[k] == rs[k].id
  {
    if k < |rs| - 1 { IdAt(rs[..|rs| - 1], k); }
  }

  lemma IdIn(rs: seq<Record>, id: Id)
    ensures id in Ids(rs) <==> exists r :: r in rs && r.id == id
  {
    if id in Ids(rs) {
      var k :| 0 <= k < |rs| && Ids(rs)[k] == id;
      IdAt(rs, k);
      assert rs[k] in rs;
    }
    if r :| r in rs && r.id == id {
      var k :| 0 <= k < |rs| && rs[k] == r;
      IdAt(rs, k);
    }
  }

  lemma {:induction false} ByIdFinds(rs: seq<Record>, id: Id)
    ensures id in ById(rs) <==> id in Ids(rs)
    ensures id in ById(rs) ==> ById(rs)[id] in rs && ById(rs)[id].id == id
  {
    if rs != [] {
      var init := rs[..|rs| - 1];
      ByIdFinds(init, id);
      assert rs == init + [rs[|rs| - 1]];
    }
  }

  lemma {:induction false} LookupAll(ids: seq<Id>, rs: seq<Record>)
    requires forall id | id in ids :: id in Ids(rs)
    ensures Ids(Lookup(ids, ById(rs))) == ids
    decreases |ids|
  {
    if ids != [] {
      var init, id := ids[..|ids| - 1], ids[|ids| - 1];
      assert ids == init + [id];
      LookupAll(init, rs);
      ByIdFinds(rs, id);
      var found := Lookup(init, ById(rs));
      assert Lookup(ids, ById(rs)) == found + [ById(rs)[id]];
      assert (found + [ById(rs)[id]])[..|found|] == found;
    }
  }

  lemma {:induction false} LookupMember(ids: seq<Id>, rs: seq<Record>, r: Record)
    requires r in Lookup(ids, ById(rs))
    ensures r in rs && r.id in ById(rs) && r == ById(rs)[r.id] && r.id in ids
    decreases |ids|
  {
    var init, id := ids[..|ids| - 1], ids[|ids| - 1];
    assert ids == init + [id];
    ByIdFinds(rs, id);
    if r in Lookup(init, ById(rs)) { LookupMember(init, rs, r); }
  }

  // ---- Recency ----

  predicate Descending(rs: seq<Record>) {
    forall i, j | 0 <= i < j < |rs| :: rs[i].lastSuccessAt >= rs[j].lastSuccessAt
  }

  lemma {:induction false} InsertPermutes(rs: seq<Record>, r: Record)
    ensures multiset(InsertByRecency(rs, r)) == multiset(rs) + multiset{r}
  {
    if rs != [] {
      assert rs == rs[..|rs| - 1] + [rs[|rs| - 1]];
      InsertPermutes(rs[..|rs| - 1], r);
    }
  }

  lemma InsertMembers(rs: seq<Record>, r: Record, x: Record)
    requires x in InsertByRecency(rs, r)
    ensures x in rs || x == r
  {
    InsertPermutes(rs, r);
    assert x in multiset(InsertByRecency(rs, r));
  }

  lemma {:induction false} InsertIsSorted(rs: seq<Record>, r: Record)
    requires Descending(rs)
    ensures Descending(InsertByRecency(rs, r))
  {
    if rs != [] && rs[|rs| - 1].lastSuccessAt < r.lastSuccessAt {
      var init, last := rs[..|rs| - 1], rs[|rs| - 1];
      InsertIsSorted(init, r);
      var s := InsertByRecency(init, r);
      forall k | 0 <= k < |s| ensures s[k].lastSuccessAt >= last.lastSuccessAt { InsertMembers(init, r, s[k]); }
    }
  }

  // Sorting is a permutation, most recent success first.
  lemma {:induction false} ByRecencySorts(rs: seq<Record>)
    ensures multiset(ByRecency(rs)) == multiset(rs) && Descending(ByRecency(rs))
  {
    if rs != [] {
      ByRecencySorts(rs[..|rs| - 1]);
      InsertIsSorted(ByRecency(rs[..|rs| - 1]), rs[|rs| - 1]);
      InsertPermutes(ByRecency(rs[..|rs| - 1]), rs[|rs| - 1]);
      assert rs == rs[..|rs| - 1] + [rs[|rs| - 1]];
    }
  }

  // ---- Merging ----

  predicate Listed(merged: seq<Record>, limit: nat) {
    && |merged| <= limit
    && DistinctIds(merged)
    && forall r | r in merged :: r.id != ""
  }

  lemma AddKeepsListed(merged: seq<Record>, r: Record, limit: nat)
    requires Listed(merged, limit)
    ensures Listed(Add(merged, r, limit), limit)
  {
    forall k | 0 <= k < |merged| ensures merged[k].id in Ids(merged) { IdAt(merged, k); }
  }

  lemma {:induction false} AddAllKeepsListed(merged: seq<Record>, rs: seq<Record>, limit: nat)
    requires Listed(merged, limit)
    ensures Listed(AddAll(merged, rs, limit), limit)
    ensures forall r | r in AddAll(merged, rs, limit) :: r in merged || r in rs
    decreases |rs|
  {
    if rs != [] {
      var init, last := rs[..|rs| - 1], rs[|rs| - 1];
      assert rs == init + [last];
      AddAllKeepsListed(merged, init, limit);
      AddKeepsListed(AddAll(merged, init, limit), last, limit);
    }
  }

  lemma {:induction false} AddAllConcat(merged: seq<Record>, a: seq<Record>, b: seq<Record>, limit: nat)
    ensures AddAll(merged, a + b, limit) == AddAll(AddAll(merged, a, limit), b, limit)
    decreases |b|
  {
    if b == [] {
      assert a + b == a;
    } else {
      var init := b[..|b| - 1];
      AddAllConcat(merged, a, init, limit);
      assert (a + b)[..|a + b| - 1] == a + init;
    }
  }

  lemma {:induction false} AddAllExtends(merged: seq<Record>, rs: seq<Record>, limit: nat)
    ensures merged <= AddAll(merged, rs, limit)
    ensures |merged| >= limit ==> AddAll(merged, rs, limit) == merged
    decreases |rs|
  {
    if rs != [] { AddAllExtends(merged, rs[..|rs| - 1], limit); }
  }

  // An offered record is on the list, by its id, once the list is not full.
  lemma Offered(merged: seq<Record>, rs: seq<Record>, k: nat, limit: nat)
    requires k < |rs| && rs[k].id != ""
    ensures var upto := AddAll(merged, rs[..k + 1], limit);
            |upto| >= limit || rs[k].id in Ids(upto)
    ensures AddAll(merged, rs, limit) == AddAll(AddAll(merged, rs[..k + 1], limit), rs[k + 1..], limit)
  {
    AddAllConcat(merged, rs[..k + 1], rs[k + 1..], limit);
    assert rs[..k + 1] + rs[k + 1..] == rs;
    var before := AddAll(merged, rs[..k], limit);
    assert rs[..k + 1][..k] == rs[..k];
    var upto := AddAll(merged, rs[..k + 1], limit);
    assert upto == Add(before, rs[k], limit);
    if upto == before + [rs[k]] { IdAt(upto, |before|); }
  }

  // A full list, or one that holds the id, stays so.
  lemma IdsExtend(a: seq<Record>, b: seq<Record>, id: Id)
    requires a <= b && id in Ids(a)
    ensures id in Ids(b)
  {
    IdIn(a, id);
    IdIn(b, id);
  }

  predicate AtLeastAsRecent(rs: seq<Record>, r: Record, since: int) {
    forall m | m in rs :: !Unproven(m, since) && m.lastSuccessAt >= r.lastSuccessAt
  }

  predicate CoveredBy(rs: seq<Record>, r: Record, since: int) {
    exists m :: m in rs && m.id == r.id && !Unproven(m, since) && m.lastSuccessAt >= r.lastSuccessAt
  }

  // What was added from the first k + 1 records is proven and at least as recent as the last.
  lemma AddedIsRecent(proven: seq<Record>, since: int, limit: nat, k: nat)
    requires Descending(proven) && k < |proven| && forall m | m in proven :: !Unproven(m, since)
    ensures AtLeastAsRecent(AddAll([], proven[..k + 1], limit), proven[k], since)
  {
    AddAllKeepsListed([], proven[..k + 1], limit);
    forall m | m in AddAll([], proven[..k + 1], limit)
      ensures !Unproven(m, since) && m.lastSuccessAt >= proven[k].lastSuccessAt
    {
      var i :| 0 <= i < k + 1 && proven[..k + 1][i] == m;
      assert m == proven[i];
    }
  }

  lemma ProvenPart(proven: seq<Record>, since: int, limit: nat, k: nat)
    requires Descending(proven) && k < |proven| && proven[k].id != ""
    requires forall m | m in proven :: !Unproven(m, since)
    ensures var list := AddAll([], proven, limit);
      || CoveredBy(list, proven[k], since)
      || (|list| >= limit && AtLeastAsRecent(list, proven[k], since))
  {
    var upto, list := AddAll([], proven[..k + 1], limit), AddAll([], proven, limit);
    AddedIsRecent(proven, since, limit, k);
    AddAllExtends(upto, proven[k + 1..], limit);
    Offered([], proven, k, limit);
    assert upto <= list;
    if |upto| < limit {
      IdIn(upto, proven[k].id);
      var m :| m in upto && m.id == proven[k].id;
      assert m in list;
    }
  }

  /**
    A proven record with an id is left off the shortlist only when the list is full of
    proven records at least as recent, or already holds such a record of the same id.
   */
  lemma RecentSuccessesComeFirst(rs: seq<Record>, since: int, limit: nat, rank: seq<Record> -> seq<Id>, r: Record)
    requires r in rs && r.id != "" && !Unproven(r, since)
    ensures var list := Shortlist(rs, since, limit, rank);
      || CoveredBy(list, r, since)
      || (|list| >= limit && AtLeastAsRecent(list, r, since))
  {
    var proven := Proven(rs, since);
    var sorted := ByRecency(proven);
    ByRecencySorts(proven);
    FilterMember(rs, (r: Record) => !Unproven(r, since), r);
    assert r in multiset(sorted);
    var k :| 0 <= k < |sorted| && sorted[k] == r;
    forall m | m in sorted ensures !Unproven(m, since) {
      assert m in multiset(sorted);
      assert m in proven;
      FilterMember(rs, (r: Record) => !Unproven(r, since), m);
    }
    ProvenPart(sorted, since, limit, k);
    var first := AddAll([], sorted, limit);
    var rest := Rest(rs, since);
    AddAllExtends(first, Lookup(rank(rest), ById(rest)), limit);
    if m :| m in first && m.id == r.id && !Unproven(m, since) && m.lastSuccessAt >= r.lastSuccessAt {
      assert m in Shortlist(rs, since, limit, rank);
    }
  }

  lemma RankedIds(rs: seq<Record>, rank: seq<Record> -> seq<Id>)
    requires Ranks(rank)
    ensures Ids(Lookup(rank(rs), ById(rs))) == rank(rs)
    ensures forall id :: id in rank(rs) <==> id in Ids(rs)
  {
    assert forall id :: id in rank(rs) <==> id in multiset(rank(rs));
    LookupAll(rank(rs), rs);
  }

  /** While the shortlist has room, every record with an id is on it, by its id. */
  lemma NoneLeftOffUnlessFull(rs: seq<Record>, since: int, limit: nat, rank: seq<Record> -> seq<Id>, r: Record)
    requires Ranks(rank) && r in rs && r.id != ""
    ensures var list := Shortlist(rs, since, limit, rank);
      |list| >= limit || r.id in Ids(list)
  {
    var first := AddAll([], ByRecency(Proven(rs, since)), limit);
    var rest := Rest(rs, since);
    var others := Lookup(rank(rest), ById(rest));
    if Unproven(r, since) {
      FilterMember(rs, (r: Record) => Unproven(r, since), r);
      IdIn(rest, r.id);
      RankedIds(rest, rank);
      var k :| 0 <= k < |others| && Ids(others)[k] == r.id;
      IdAt(others, k);
      var upto := AddAll(first, others[..k + 1], limit);
      Offered(first, others, k, limit);
      AddAllExtends(upto, others[k + 1..], limit);
      if |upto| < limit { IdsExtend(upto, AddAll(upto, others[k + 1..], limit), r.id); }
    } else {
      RecentSuccessesComeFirst(rs, since, limit, rank, r);
      IdIn(Shortlist(rs, since, limit, rank), r.id);
    }
  }

  // ---- One loop ----

  ghost predicate Sane(e: Env) { Ranks(e.rankRest) && Ranks(e.rankShort) }

  predicate Cooling(f: Failures, id: Id, now: int) { id in f && now - f[id] < COOLDOWN }

  // A stored record that this loop may pick.
  predicate Eligible(f: Failures, e: Env, r: Record) {
    r in e.scan && r.id != "" && r.id !in e.exclude && !Cooling(f, r.id, e.now) && (r.trusted || e.allowPublic)
  }

  lemma ShortlistMembers(rs: seq<Record>, since: int, limit: nat, rank: seq<Record> -> seq<Id>)
    ensures Listed(Shortlist(rs, since, limit, rank), limit)
    ensures forall r | r in Shortlist(rs, since, limit, rank) :: r in rs
  {
    var proven, rest := Proven(rs, since), Rest(rs, since);
    var sorted, others := ByRecency(proven), Lookup(rank(rest), ById(rest));
    AddAllKeepsListed([], sorted, limit);
    AddAllKeepsListed(AddAll([], sorted, limit), others, limit);
    ByRecencySorts(proven);
    forall r | r in Shortlist(rs, since, limit, rank) ensures r in rs {
      if r in others {
        LookupMember(rank(rest), rest, r);
        FilterMember(rs, (r: Record) => Unproven(r, since), r);
      } else {
        assert r in multiset(sorted);
        FilterMember(rs, (r: Record) => !Unproven(r, since), r);
      }
    }
  }

  lemma ShortIsEligible(f: Failures, e: Env)
    ensures Listed(Short(f, e), Limit(e.shortlist))
    ensures forall r | r in Short(f, e) :: Eligible(f, e, r)
  {
    var pool := Pool(f, e);
    ShortlistMembers(Routable(pool, e.allowPublic), e.since, Limit(e.shortlist), e.rankRest);
    forall r | r in Short(f, e) ensures Eligible(f, e, r) {
      FilterMember(pool, (r: Record) => r.trusted || e.allowPublic, r);
      var cooled := Expire(f, e.now);
      FilterMember(e.scan, (r: Record) => !Excluded(e.exclude, r.id) && r.id !in cooled, r);
    }
  }

  lemma {:induction false} RefreshKeepsIds(short: seq<Record>, all: seq<Record>)
    ensures Ids(Refresh(short, ById(all))) == Ids(short)
  {
    if short != [] {
      var init, last := short[..|short| - 1], short[|short| - 1];
      RefreshKeepsIds(init, all);
      ByIdFinds(all, last.id);
      var r := Refresh(short, ById(all));
      assert r[..|r| - 1] == Refresh(init, ById(all));
    }
  }

  lemma {:induction false} RefreshMember(short: seq<Record>, m: map<Id, Record>, r: Record)
    requires r in Refresh(short, m)
    ensures exists s :: s in short && r == if s.id in m then m[s.id] else s
  {
    var init, last := short[..|short| - 1], short[|short| - 1];
    assert short == init + [last];
    if r in Refresh(init, m) { RefreshMember(init, m, r); } else { assert last in short; }
  }

  // Distinct records have each id once, and a permutation of their ids is as distinct.
  lemma {:induction false} IdsAreDistinct(rs: seq<Record>, id: Id)
    requires DistinctIds(rs)
    ensures multiset(Ids(rs))[id] <= 1
  {
    if rs != [] {
      var init, last := rs[..|rs| - 1], rs[|rs| - 1];
      IdsAreDistinct(init, id);
      IdIn(init, id);
    }
  }

  lemma PermutedIdsDistinct(rs: seq<Record>, ids: seq<Id>, i: nat, j: nat)
    requires DistinctIds(rs) && multiset(ids) == multiset(Ids(rs)) && i < j < |ids|
    ensures ids[i] != ids[j]
  {
    var a, b := ids[..j], ids[j..];
    assert ids == a + b && a[i] == ids[i] && b[0] == ids[j];
    assert multiset(ids) == multiset(a) + multiset(b);
    assert multiset(a)[ids[i]] >= 1 && multiset(b)[ids[j]] >= 1;
    IdsAreDistinct(rs, ids[i]);
  }

  lemma RerankPermutes(all: seq<Record>, short: seq<Record>, rank: seq<Record> -> seq<Id>)
    requires Ranks(rank) && DistinctIds(short)
    ensures multiset(Ids(Rerank(all, short, rank))) == multiset(Ids(short))
    ensures DistinctIds(Rerank(all, short, rank)) && |Rerank(all, short, rank)| == |short|
  {
    var refreshed := Refresh(short, ById(all));
    var ranked := Rerank(all, short, rank);
    RankedIds(refreshed, rank);
    RefreshKeepsIds(short, all);
    assert Ids(ranked) == rank(refreshed);
    assert multiset(Ids(ranked)) == multiset(Ids(short));
    assert |Ids(ranked)| == |multiset(Ids(ranked))|;
    forall i, j | 0 <= i < j < |ranked| ensures ranked[i].id != ranked[j].id {
      PermutedIdsDistinct(short, Ids(ranked), i, j);
      IdAt(ranked, i);
      IdAt(ranked, j);
    }
  }

  // What the loop ranks: distinct, no more than the limit, each standing for an eligible
  // record of the first scan.
  lemma RankedIsEligible(f: Failures, e: Env)
    requires Sane(e)
    ensures DistinctIds(Ranked(f, e)) && |Ranked(f, e)| <= Limit(e.shortlist)
    ensures forall r | r in Ranked(f, e) :: exists s :: s in Short(f, e) && s.id == r.id && Eligible(f, e, s)
  {
    var short, ranked := Short(f, e), Ranked(f, e);
    ShortIsEligible(f, e);
    RerankPermutes(Known(f, e), short, e.rankShort);
    forall r | r in ranked ensures exists s :: s in short && s.id == r.id && Eligible(f, e, s) {
      IdIn(ranked, r.id);
      assert r.id in multiset(Ids(ranked));
      assert r.id in Ids(short);
      IdIn(short, r.id);
    }
  }

  // Attempts go down the ranked list in order; each failed, except a last one that connected.
  predicate InOrder(ranked: seq<Record>, attempted: seq<Record>, failed: seq<Failure>, connected: bool) {
    && attempted <= ranked
    && |failed| == |attempted| - (if connected then 1 else 0)
    && forall k | 0 <= k < |failed| :: failed[k].id == attempted[k].id
  }

  predicate Pickable(ranked: seq<Record>, exclude: seq<Id>) {
    forall r | r in ranked :: r.id != "" && r.id !in exclude
  }

  predicate GoesDown(ranked: seq<Record>, p: Progress) {
    && InOrder(ranked, p.attempted, p.failed, p.verdict.Connected?)
    && (p.verdict == Going ==> p.attempted == ranked)
    && (p.verdict.Connected? ==> p.verdict.chosen in p.attempted)
  }

  lemma TryGoesDown(ranked: seq<Record>, p: Progress, r: Record, exclude: seq<Id>, o: Outcome)
    requires GoesDown(ranked, p) && r.id != "" && r.id !in exclude
    ensures GoesDown(ranked + [r], Try(p, r, exclude, o))
  {
    var q := Try(p, r, exclude, o);
    assert q.attempted == p.attempted || q.attempted == ranked + [r];
    if q.attempted == ranked + [r] { assert (ranked + [r])[|ranked|] == r; }
  }

  // The attempts are a prefix of the ranked list that stops only at a success or a cancellation.
  lemma {:induction false} AttemptsInOrder(f: Failures, ranked: seq<Record>, exclude: seq<Id>, outcome: nat -> Outcome)
    requires Pickable(ranked, exclude)
    ensures GoesDown(ranked, TryAll(f, ranked, exclude, outcome))
    decreases |ranked|
  {
    if ranked != [] {
      var n: nat := |ranked| - 1;
      var init := ranked[..n];
      assert ranked == init + [ranked[n]];
      AttemptsInOrder(f, init, exclude, outcome);
      TryGoesDown(init, TryAll(f, init, exclude, outcome), ranked[n], exclude, outcome(n));
    }
  }

  lemma RankedIsPickable(f: Failures, e: Env)
    requires Sane(e)
    ensures Pickable(Ranked(f, e), e.exclude)
  {
    RankedIsEligible(f, e);
  }

  predicate RanInOrder(ranked: seq<Record>, r: Ran) {
    && InOrder(ranked, r.attempted, r.failed, r.result.Success?)
    && (r.result.Success? ==> r.result.chosen in r.attempted)
  }

  lemma ConcludeInOrder(usable: bool, pool: nat, known: nat, expired: Failures, f: Failures, ranked: seq<Record>,
                        exclude: seq<Id>, outcome: nat -> Outcome)
    requires Pickable(ranked, exclude)
    ensures RanInOrder(ranked, Conclude(usable, pool, known, expired, f, ranked, exclude, outcome))
  {
    AttemptsInOrder(f, ranked, exclude, outcome);
  }

  lemma LoopInOrder(f: Failures, e: Env)
    requires Sane(e)
    ensures RanInOrder(Ranked(f, e), RunLoop(f, e))
  {
    RankedIsPickable(f, e);
    ConcludeInOrder(Routable(Pool(f, e), e.allowPublic) != [], |Pool(f, e)|, |Known(f, e)|,
                    Expire(f, e.now), FailuresAtRank(f, e), Ranked(f, e), e.exclude, e.outcome);
  }

  predicate StandsFor(f: Failures, e: Env, id: Id) {
    exists s :: s in e.scan && s.id == id && Eligible(f, e, s)
  }

  predicate Attempted(r: Ran, id: Id) { exists a :: a in r.attempted && a.id == id }

  predicate Disciplined(f: Failures, e: Env, r: Ran) {
    && |r.attempted| <= Limit(e.shortlist) <= SHORTLIST_LIMIT
    && DistinctIds(r.attempted)
    && (forall a | a in r.attempted :: StandsFor(f, e, a.id))
    && (forall x | x in r.failed :: Attempted(r, x.id))
    && (r.result.Success? ==> r.result.chosen in r.attempted)
  }

  lemma OrderedRunIsDisciplined(f: Failures, e: Env, ranked: seq<Record>, r: Ran)
    requires DistinctIds(ranked) && |ranked| <= Limit(e.shortlist) && RanInOrder(ranked, r)
    requires forall a | a in ranked :: StandsFor(f, e, a.id)
    ensures Disciplined(f, e, r)
  {
    forall x | x in r.failed ensures Attempted(r, x.id) {
      var k :| 0 <= k < |r.failed| && r.failed[k] == x;
      assert r.attempted[k] in r.attempted;
    }
  }

  lemma RankedStandsFor(f: Failures, e: Env)
    requires Sane(e)
    ensures forall a | a in Ranked(f, e) :: StandsFor(f, e, a.id)
  {
    RankedIsEligible(f, e);
  }

  /**
    One loop attempts at most the limit (never more than eight), each id at most once, and
    every attempted id belongs to a scanned record that is trusted or opted into, not
    excluded, and not cooling at the start.
   */
  lemma AttemptsAreEligible(f: Failures, e: Env)
    requires Sane(e)
    ensures Disciplined(f, e, RunLoop(f, e))
  {
    RankedStandsFor(f, e);
    RankedIsEligible(f, e);
    LoopInOrder(f, e);
    OrderedRunIsDisciplined(f, e, Ranked(f, e), RunLoop(f, e));
  }

  lemma {:induction false} OutcomesDecide(f: Failures, ranked: seq<Record>, exclude: seq<Id>, outcome: nat -> Outcome)
    requires forall k: nat | k < |ranked| :: outcome(k) != Cancelled
    ensures !TryAll(f, ranked, exclude, outcome).verdict.Stopped?
    decreases |ranked|
  {
    if ranked != [] { OutcomesDecide(f, ranked[..|ranked| - 1], exclude, outcome); }
  }

  lemma UncancelledLoopAttemptsAll(f: Failures, e: Env)
    requires Sane(e) && !RunLoop(f, e).result.Success?
    requires forall k: nat | k < |Ranked(f, e)| :: e.outcome(k) != Cancelled
    ensures RunLoop(f, e).attempted == Ranked(f, e)
  {
    RankedIsPickable(f, e);
    RankedIsEligible(f, e);
    AttemptsInOrder(FailuresAtRank(f, e), Ranked(f, e), e.exclude, e.outcome);
    OutcomesDecide(FailuresAtRank(f, e), Ranked(f, e), e.exclude, e.outcome);
    var routable := Routable(Pool(f, e), e.allowPublic);
    if routable == [] {
      ShortlistMembers(routable, e.since, Limit(e.shortlist), e.rankRest);
    }
  }

  lemma AllFailed(ranked: seq<Record>, r: Ran, id: Id)
    requires RanInOrder(ranked, r) && r.attempted == ranked && !r.result.Success? && id in Ids(ranked)
    ensures exists x :: x in r.failed && x.id == id
  {
    var k :| 0 <= k < |ranked| && Ids(ranked)[k] == id;
    IdAt(ranked, k);
    assert r.failed[k].id == id;
  }

  lemma RankedKeepsShort(f: Failures, e: Env, id: Id)
    requires Sane(e) && id in Ids(Short(f, e))
    ensures id in Ids(Ranked(f, e))
  {
    ShortIsEligible(f, e);
    RerankPermutes(Known(f, e), Short(f, e), e.rankShort);
    assert id in multiset(Ids(Ranked(f, e)));
  }

  /** A loop that gives up without being cancelled attempted its whole shortlist, and each failed. */
  lemma GivesUpOnlyAfterTryingAll(f: Failures, e: Env, id: Id)
    requires Sane(e) && id in Ids(Short(f, e)) && !RunLoop(f, e).result.Success?
    requires forall k: nat | k < |Ranked(f, e)| :: e.outcome(k) != Cancelled
    ensures exists x :: x in RunLoop(f, e).failed && x.id == id
  {
    RankedKeepsShort(f, e, id);
    UncancelledLoopAttemptsAll(f, e);
    LoopInOrder(f, e);
    AllFailed(Ranked(f, e), RunLoop(f, e), id);
  }

  // ---- Trust ----

  // Where a shortlisted id is known after the reload, its latest record may be used.
  predicate TrustKept(f: Failures, e: Env) {
    var latest := ById(Known(f, e));
    forall s | s in Short(f, e) && s.id in latest :: latest[s.id].trusted || e.allowPublic
  }

  predicate Usable(rs: seq<Record>, allowPublic: bool) { forall r | r in rs :: r.trusted || allowPublic }

  /** What the loop ranks may be used exactly when the trust of its shortlist was kept. */
  lemma RankedIsTrusted(f: Failures, e: Env)
    requires Sane(e)
    ensures Usable(Ranked(f, e), e.allowPublic) <==> TrustKept(f, e)
  {
    var short, latest := Short(f, e), ById(Known(f, e));
    ShortIsEligible(f, e);
    if TrustKept(f, e) {
      forall a | a in Ranked(f, e) ensures a.trusted || e.allowPublic { RankedOrigin(f, e, a); }
    }
    if Usable(Ranked(f, e), e.allowPublic) {
      forall s | s in short && s.id in latest ensures latest[s.id].trusted || e.allowPublic {
        LatestIsRanked(f, e, s);
      }
    }
  }

  lemma RankedOrigin(f: Failures, e: Env, a: Record)
    requires a in Ranked(f, e)
    ensures var latest := ById(Known(f, e));
      exists s :: s in Short(f, e) && a == if s.id in latest then latest[s.id] else s
  {
    var refreshed := Refresh(Short(f, e), ById(Known(f, e)));
    LookupMember(e.rankShort(refreshed), refreshed, a);
    RefreshMember(Short(f, e), ById(Known(f, e)), a);
  }

  lemma LatestIsRanked(f: Failures, e: Env, s: Record)
    requires Sane(e) && s in Short(f, e) && s.id in ById(Known(f, e))
    ensures ById(Known(f, e))[s.id] in Ranked(f, e)
  {
    var short, latest := Short(f, e), ById(Known(f, e));
    var refreshed := Refresh(short, latest);
    ByIdFinds(Known(f, e), s.id);
    IdIn(short, s.id);
    RankedKeepsShort(f, e, s.id);
    IdIn(Ranked(f, e), s.id);
    var r :| r in Ranked(f, e) && r.id == s.id;
    LookupMember(e.rankShort(refreshed), refreshed, r);
    RefreshMember(short, latest, r);
    ShortIsEligible(f, e);
    var s' :| s' in short && r == if s'.id in latest then latest[s'.id] else s';
    ByIdFinds(Known(f, e), s'.id);
  }

  /**
    Unless the user opted in, every record the loop connects to is trusted, as long as the
    trust of the shortlisted records is kept while the loop runs.
   */
  lemma AttemptedRoutesAreTrusted(f: Failures, e: Env)
    requires Sane(e) && TrustKept(f, e)
    ensures Usable(RunLoop(f, e).attempted, e.allowPublic)
  {
    LoopInOrder(f, e);
    RankedIsTrusted(f, e);
  }

  /**
    The reloaded records are not filtered by trust again: a record whose stamp is lowered
    between the scans is attempted without the user's consent.
   */
  lemma LoweredTrustIsAttempted(e: Env, good: Record, bad: Record)
    requires Sane(e) && e.scan == [good] && e.rescan == [bad] && e.exclude == [] && e.tested
    requires good.id == bad.id != "" && good.trusted && !bad.trusted && !e.allowPublic
    requires e.outcome(0) == Verified
    ensures bad in RunLoop(map[], e).attempted
  {
    PoolOfOne(map[], e, good, bad);
    ShortlistOne(good, e.since, Limit(e.shortlist), e.rankRest);
    RerankOne(bad, good, e.rankShort);
    TryOne(FailuresAtRank(map[], e), bad, e.outcome);
  }

  lemma PoolOfOne(f: Failures, e: Env, good: Record, bad: Record)
    requires e.scan == [good] && e.rescan == [bad] && e.exclude == [] && f == map[] && good.trusted && e.tested
    ensures Routable(Pool(f, e), e.allowPublic) == [good] && Known(f, e) == [bad]
  {
    var cooled, later := Expire(f, e.now), FailuresAtRank(f, e);
    SelectOne(good, (r: Record) => !Excluded(e.exclude, r.id) && r.id !in cooled);
    SelectOne(good, (r: Record) => r.trusted || e.allowPublic);
    SelectOne(bad, (r: Record) => !Excluded(e.exclude, r.id) && r.id !in later);
  }

  lemma SelectOne(r: Record, p: Record -> bool)
    ensures Filter([r], p) == if p(r) then [r] else []
  {
    assert [r][..0] == [];
  }

  lemma ShortlistOne(r: Record, since: int, limit: nat, rank: seq<Record> -> seq<Id>)
    requires Ranks(rank) && r.id != "" && limit > 0
    ensures Shortlist([r], since, limit, rank) == [r]
  {
    var list := Shortlist([r], since, limit, rank);
    ShortlistMembers([r], since, limit, rank);
    NoneLeftOffUnlessFull([r], since, limit, rank, r);
    OnlyOne(list, r);
  }

  lemma OnlyOne(list: seq<Record>, r: Record)
    requires list != [] && DistinctIds(list) && forall m | m in list :: m == r
    ensures list == [r]
  {
    forall k | 0 <= k < |list| ensures list[k] == r { assert list[k] in list; }
    assert forall i, j | 0 <= i < j < |list| :: list[i].id != list[j].id;
    assert list[0] == r && (|list| == 1 || list[0].id != list[1].id);
  }

  lemma RerankOne(newer: Record, r: Record, rank: seq<Record> -> seq<Id>)
    requires Ranks(rank) && newer.id == r.id
    ensures Rerank([newer], [r], rank) == [newer]
  {
    RerankPermutes([newer], [r], rank);
    assert ById([newer]) == map[r.id := newer];
    assert Refresh([r], ById([newer])) == [newer];
    var out := Rerank([newer], [r], rank);
    LookupMember(rank([newer]), [newer], out[0]);
  }

  lemma TryOne(f: Failures, r: Record, outcome: nat -> Outcome)
    requires outcome(0) == Verified
    ensures TryAll(f, [r], [], outcome) == Progress([r], [], f, Connected(r))
  {
    assert TryAll(f, [], [], outcome) == Progress([], [], f, Going);
    assert [r][..0] == [];
  }

  /** Only untrusted routes: reported exactly when candidates are left and none may be used. */
  lemma OnlyUntrustedReported(f: Failures, e: Env)
    ensures RunLoop(f, e).result.OnlyUntrusted? <==>
            Pool(f, e) != [] && !e.allowPublic && forall r | r in Pool(f, e) :: !r.trusted
    ensures RunLoop(f, e).result.OnlyUntrusted? ==> RunLoop(f, e).attempted == []
  {
    var pool := Pool(f, e);
    UsableRoutes(pool, e.allowPublic);
    if pool != [] { assert pool[0] in pool; }
  }

  lemma UsableRoutes(pool: seq<Record>, allowPublic: bool)
    ensures Routable(pool, allowPublic) == [] <==> forall r | r in pool :: !r.trusted && !allowPublic
  {
    var routable := Routable(pool, allowPublic);
    if r :| r in pool && (r.trusted || allowPublic) {
      FilterMember(pool, (r: Record) => r.trusted || allowPublic, r);
    }
    if routable != [] {
      FilterMember(pool, (r: Record) => r.trusted || allowPublic, routable[0]);
    }
  }

  // ---- Across loops ----

  // The failure memory before loop k.
  function Before(f: Failures, rs: seq<Ran>, k: nat): Failures
    requires k <= |rs|
  {
    if k == 0 then f else rs[k - 1].failures
  }

  predicate Follows(f: Failures, es: seq<Env>, rs: seq<Ran>, k: nat)
    requires k < |es| == |rs|
  {
    rs[k] == RunLoop(Before(f, rs, k), es[k])
  }

  // The loops of a run, each starting from the memory the last left.
  predicate Chained(f: Failures, es: seq<Env>, rs: seq<Ran>) {
    |rs| == |es| && forall k: nat | k < |es| :: Follows(f, es, rs, k)
  }

  predicate Starts(t: int, r: Ran) { forall x | x in r.failed :: t <= x.at }
  predicate Ends(t: int, r: Ran) { forall x | x in r.failed :: x.at <= t }

  // Loops run one after the other, by a clock that never runs backwards.
  predicate Sequential(es: seq<Env>, rs: seq<Ran>)
    requires |rs| == |es|
  {
    && (forall k | 0 <= k < |es| :: es[k].now <= es[k].later && Starts(es[k].now, rs[k]))
    && (forall i, j | 0 <= i < j < |es| :: es[i].later <= es[j].now && Ends(es[j].now, rs[i]))
  }

  predicate Remembers(f: Failures, x: Failure) { x.id in f && f[x.id] >= x.at }

  lemma {:induction false} TryRemembers(f: Failures, ranked: seq<Record>, exclude: seq<Id>, outcome: nat -> Outcome,
                                        x: Failure)
    requires forall y | y in TryAll(f, ranked, exclude, outcome).failed && y.id == x.id :: y.at >= x.at
    requires Remembers(f, x) || x in TryAll(f, ranked, exclude, outcome).failed
    ensures Remembers(TryAll(f, ranked, exclude, outcome).failures, x)
    decreases |ranked|
  {
    if ranked != [] {
      var n := |ranked| - 1;
      var p := TryAll(f, ranked[..n], exclude, outcome);
      var q := TryAll(f, ranked, exclude, outcome);
      assert p.failed <= q.failed;
      if Remembers(f, x) || x in p.failed {
        TryRemembers(f, ranked[..n], exclude, outcome, x);
      }
      if q.failed != p.failed {
        assert q.failed[|p.failed|] in q.failed;
      }
    }
  }

  lemma ConcludeRemembers(usable: bool, pool: nat, known: nat, expired: Failures, f: Failures, ranked: seq<Record>,
                          exclude: seq<Id>, outcome: nat -> Outcome, x: Failure)
    requires var r := Conclude(usable, pool, known, expired, f, ranked, exclude, outcome);
      || (Remembers(expired, x) && Remembers(f, x) && Starts(x.at, r))
      || (x in r.failed && DistinctIds(ranked) && RanInOrder(ranked, r))
    ensures Remembers(Conclude(usable, pool, known, expired, f, ranked, exclude, outcome).failures, x)
  {
    var r := Conclude(usable, pool, known, expired, f, ranked, exclude, outcome);
    if usable {
      if x in r.failed && DistinctIds(ranked) && RanInOrder(ranked, r) { FailsOnce(ranked, r, x); }
      TryRemembers(f, ranked, exclude, outcome, x);
    }
  }

  lemma FailsOnce(ranked: seq<Record>, r: Ran, x: Failure)
    requires DistinctIds(ranked) && RanInOrder(ranked, r) && x in r.failed
    ensures forall y | y in r.failed && y.id == x.id :: y == x
  {
    var i :| 0 <= i < |r.failed| && r.failed[i] == x;
    forall y | y in r.failed && y.id == x.id ensures y == x {
      var j :| 0 <= j < |r.failed| && r.failed[j] == y;
      assert ranked[i].id == ranked[j].id;
    }
  }

  lemma Unexpired(f: Failures, e: Env, x: Failure)
    requires Remembers(f, x) && e.now - x.at < COOLDOWN && e.later - x.at < COOLDOWN
    ensures Remembers(Expire(f, e.now), x) && Remembers(FailuresAtRank(f, e), x)
  {
  }

  // A loop that starts and reloads within the cooldown keeps the memory of a failure.
  lemma LoopRemembers(f: Failures, e: Env, x: Failure)
    requires Remembers(f, x) && e.now - x.at < COOLDOWN && e.later - x.at < COOLDOWN
    requires Starts(x.at, RunLoop(f, e))
    ensures Remembers(RunLoop(f, e).failures, x)
  {
    Unexpired(f, e, x);
    ConcludeRemembers(Routable(Pool(f, e), e.allowPublic) != [], |Pool(f, e)|, |Known(f, e)|,
                      Expire(f, e.now), FailuresAtRank(f, e), Ranked(f, e), e.exclude, e.outcome, x);
  }

  // The loop that saw the failure remembers it.
  lemma LoopLearns(f: Failures, e: Env, x: Failure)
    requires Sane(e) && x in RunLoop(f, e).failed
    ensures Remembers(RunLoop(f, e).failures, x)
  {
    LoopInOrder(f, e);
    RankedIsEligible(f, e);
    ConcludeRemembers(Routable(Pool(f, e), e.allowPublic) != [], |Pool(f, e)|, |Known(f, e)|,
                      Expire(f, e.now), FailuresAtRank(f, e), Ranked(f, e), e.exclude, e.outcome, x);
  }

  lemma CoolingIsSkipped(f: Failures, e: Env, id: Id)
    requires Sane(e) && Cooling(f, id, e.now)
    ensures !Attempted(RunLoop(f, e), id)
  {
    AttemptsAreEligible(f, e);
  }

  // The failure is remembered by every loop that starts within the cooldown.
  lemma {:induction false} MemoryLasts(f: Failures, es: seq<Env>, rs: seq<Ran>, i: nat, j: nat, x: Failure)
    requires Chained(f, es, rs) && Sequential(es, rs) && i < j < |es| && Sane(es[i])
    requires x in rs[i].failed && es[j].now - x.at < COOLDOWN
    ensures Remembers(Before(f, rs, j), x)
    decreases j
  {
    if j == i + 1 {
      LearnedBy(f, es, rs, i, x);
    } else {
      assert Ends(es[j - 1].now, rs[i]) && Starts(es[j - 1].now, rs[j - 1]);
      MemoryLasts(f, es, rs, i, j - 1, x);
      RememberedBy(f, es, rs, j - 1, x);
    }
  }

  lemma LearnedBy(f: Failures, es: seq<Env>, rs: seq<Ran>, k: nat, x: Failure)
    requires Chained(f, es, rs) && k < |es| && Sane(es[k]) && x in rs[k].failed
    ensures Remembers(rs[k].failures, x)
  {
    assert Follows(f, es, rs, k);
    LoopLearns(Before(f, rs, k), es[k], x);
  }

  lemma RememberedBy(f: Failures, es: seq<Env>, rs: seq<Ran>, k: nat, x: Failure)
    requires Chained(f, es, rs) && k < |es| && Remembers(Before(f, rs, k), x) && Starts(x.at, rs[k])
    requires es[k].now - x.at < COOLDOWN && es[k].later - x.at < COOLDOWN
    ensures Remembers(rs[k].failures, x)
  {
    assert Follows(f, es, rs, k);
    LoopRemembers(Before(f, rs, k), es[k], x);
  }

  /**
    Across loops run one after the other, a candidate that failed is attempted by no loop
    that starts within five minutes of the failure.
   */
  lemma CooldownAcrossLoops(f: Failures, es: seq<Env>, rs: seq<Ran>, i: nat, j: nat, x: Failure)
    requires Chained(f, es, rs) && Sequential(es, rs) && i < j < |es| && Sane(es[i]) && Sane(es[j])
    requires x in rs[i].failed && es[j].now - x.at < COOLDOWN
    ensures !Attempted(rs[j], x.id)
  {
    MemoryLasts(f, es, rs, i, j, x);
    assert Follows(f, es, rs, j);
    CoolingIsSkipped(Before(f, rs, j), es[j], x.id);
  }
}
