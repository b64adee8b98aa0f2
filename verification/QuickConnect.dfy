/**
  The selection loop as engine/app/quickconnect.go writes it, with its failure memory, each
  method proved against the specification in Selection.
 */
module QuickConnect {
  import opened Sequences
  import opened Selection

  lemma {:induction false} DoneStays(f: Failures, ranked: seq<Record>, exclude: seq<Id>, outcome: nat -> Outcome,
                                     k: nat)
    requires k <= |ranked| && TryAll(f, ranked[..k], exclude, outcome).verdict != Going
    ensures TryAll(f, ranked, exclude, outcome) == TryAll(f, ranked[..k], exclude, outcome)
    decreases |ranked| - k
  {
    if k == |ranked| {
      assert ranked[..k] == ranked;
    } else {
      assert ranked[..k + 1][..k] == ranked[..k];
      DoneStays(f, ranked, exclude, outcome, k + 1);
    }
  }

  lemma IdsSnoc(rs: seq<Record>, r: Record)
    ensures Ids(rs + [r]) == Ids(rs) + [r.id]
  {
    assert (rs + [r])[..|rs|] == rs;
  }

  class Selector {
    // When each candidate last failed.
    var failures: Failures

    constructor ()
      ensures failures == map[]
    {
      failures := map[];
    }

    /** Drops expired entries, then the excluded and the cooling records. */
    method FilterCooldowns(rs: seq<Record>, now: int, exclude: seq<Id>) returns (out: seq<Record>)
      modifies this
      ensures failures == Expire(old(failures), now)
      ensures out == Available(rs, failures, exclude)
    {
      failures := map id | id in failures && !(now - failures[id] >= COOLDOWN) :: failures[id];
      var cooled := failures;
      ghost var keep := (r: Record) => !Excluded(exclude, r.id) && r.id !in cooled;
      out := [];
      for i := 0 to |rs|
        invariant failures == cooled && out == Filter(rs[..i], keep)
      {
        FilterSnoc(rs, keep, i);
        if Excluded(exclude, rs[i].id) { continue; }
        if rs[i].id in cooled { continue; }
        out := out + [rs[i]];
      }
      assert rs[..|rs|] == rs;
    }

    /** Keeps the routes automatic selection may use and counts the others. */
    method FilterTrust(rs: seq<Record>, allowPublic: bool) returns (trusted: seq<Record>, untrusted: nat)
      ensures trusted == Routable(rs, allowPublic) && untrusted == |rs| - |trusted|
    {
      ghost var keep := (r: Record) => r.trusted || allowPublic;
      trusted, untrusted := [], 0;
      for i := 0 to |rs|
        invariant trusted == Filter(rs[..i], keep) && untrusted == i - |trusted|
      {
        FilterSnoc(rs, keep, i);
        if rs[i].trusted || allowPublic {
          trusted := trusted + [rs[i]];
          continue;
        }
        untrusted := untrusted + 1;
      }
      assert rs[..|rs|] == rs;
    }

    /** Separates recent verified successes from the rest. */
    method Classify(rs: seq<Record>, since: int) returns (verified: seq<Record>, unverified: seq<Record>)
      ensures verified == Proven(rs, since) && unverified == Rest(rs, since)
    {
      ghost var good, bad := (r: Record) => !Unproven(r, since), (r: Record) => Unproven(r, since);
      verified, unverified := [], [];
      for i := 0 to |rs|
        invariant verified == Filter(rs[..i], good) && unverified == Filter(rs[..i], bad)
      {
        FilterSnoc(rs, good, i);
        FilterSnoc(rs, bad, i);
        if Unproven(rs[i], since) {
          unverified := unverified + [rs[i]];
          continue;
        }
        verified := verified + [rs[i]];
      }
      assert rs[..|rs|] == rs;
    }

    method Index(rs: seq<Record>) returns (m: map<Id, Record>)
      ensures m == ById(rs)
    {
      m := map[];
      for i := 0 to |rs|
        invariant m == ById(rs[..i])
      {
        assert rs[..i + 1][..i] == rs[..i];
        m := m[rs[i].id := rs[i]];
      }
      assert rs[..|rs|] == rs;
    }

    method Resolve(ids: seq<Id>, m: map<Id, Record>) returns (out: seq<Record>)
      ensures out == Lookup(ids, m)
    {
      out := [];
      for i := 0 to |ids|
        invariant out == Lookup(ids[..i], m)
      {
        assert ids[..i + 1][..i] == ids[..i];
        if ids[i] in m { out := out + [m[ids[i]]]; }
      }
      assert ids[..|ids|] == ids;
    }

    // The add closure applied to each record, with its set of seen ids.
    method Merge(start: seq<Record>, rs: seq<Record>, limit: nat, before: set<Id>)
      returns (merged: seq<Record>, seen: set<Id>)
      requires before == set id | id in Ids(start)
      ensures merged == AddAll(start, rs, limit) && seen == set id | id in Ids(merged)
    {
      merged, seen := start, before;
      for i := 0 to |rs|
        invariant merged == AddAll(start, rs[..i], limit) && seen == set id | id in Ids(merged)
      {
        assert rs[..i + 1][..i] == rs[..i];
        var r := rs[i];
        IdsSnoc(merged, r);
        if r.id == "" { continue; }
        if r.id in seen { continue; }
        if |merged| >= limit { continue; }
        seen := seen + {r.id};
        merged := merged + [r];
      }
      assert rs[..|rs|] == rs;
    }

    /** Recent successes first, then ranked candidates, without repeats, up to the limit. */
    method BuildShortlist(rs: seq<Record>, since: int, limit: nat, rank: seq<Record> -> seq<Id>)
      returns (merged: seq<Record>)
      ensures merged == Shortlist(rs, since, limit, rank)
    {
      var verified, unverified := Classify(rs, since);
      verified := ByRecency(verified);
      var byFingerprint := Index(unverified);
      var others := Resolve(rank(unverified), byFingerprint);
      var first, seen := Merge([], verified, limit, {});
      merged, seen := Merge(first, others, limit, seen);
    }

    method RankShortlist(all: seq<Record>, short: seq<Record>, rank: seq<Record> -> seq<Id>)
      returns (out: seq<Record>)
      ensures out == Rerank(all, short, rank)
    {
      var byId := Index(all);
      var refreshed: seq<Record> := [];
      for i := 0 to |short|
        invariant refreshed == Refresh(short[..i], byId)
      {
        assert short[..i + 1][..i] == short[..i];
        refreshed := refreshed + [if short[i].id in byId then byId[short[i].id] else short[i]];
      }
      assert short[..|short|] == short;
      var byFingerprint := Index(refreshed);
      out := Resolve(rank(refreshed), byFingerprint);
    }

    method RecordFailure(id: Id, at: int)
      modifies this
      ensures failures == if id == "" then old(failures) else old(failures)[id := at]
    {
      if id == "" { return; }
      failures := failures[id := at];
    }

    /** Walks the ranked list until a verified connection, a cancellation or the end. */
    method ConnectFirst(ranked: seq<Record>, exclude: seq<Id>, outcome: nat -> Outcome)
      returns (attempted: seq<Record>, failed: seq<Failure>, verdict: Verdict)
      modifies this
      ensures Progress(attempted, failed, failures, verdict) == TryAll(old(failures), ranked, exclude, outcome)
    {
      attempted, failed, verdict := [], [], Going;
      for i := 0 to |ranked|
        invariant verdict == Going
        invariant Progress(attempted, failed, failures, verdict) == TryAll(old(failures), ranked[..i], exclude, outcome)
      {
        assert ranked[..i + 1][..i] == ranked[..i];
        if outcome(i) == Cancelled {
          verdict := Stopped;
          DoneStays(old(failures), ranked, exclude, outcome, i + 1);
          return;
        }
        if Excluded(exclude, ranked[i].id) { continue; }
        attempted := attempted + [ranked[i]];
        if outcome(i) == Verified {
          verdict := Connected(ranked[i]);
          DoneStays(old(failures), ranked, exclude, outcome, i + 1);
          return;
        }
        if ranked[i].id != "" { failed := failed + [Failure(ranked[i].id, outcome(i).at)]; }
        RecordFailure(ranked[i].id, outcome(i).at);
      }
      assert ranked[..|ranked|] == ranked;
    }

    /** The whole selection loop. */
    method Loop(e: Env) returns (r: Ran)
      modifies this
      ensures r == RunLoop(old(failures), e)
      ensures failures == r.failures
    {
      var records := FilterCooldowns(e.scan, e.now, e.exclude);
      var trusted, untrusted := FilterTrust(records, e.allowPublic);
      if |trusted| == 0 {
        if untrusted > 0 { return Ran([], [], failures, OnlyUntrusted(untrusted, |records|)); }
        return Ran([], [], failures, NoViable(0));
      }
      records := trusted;
      var short := BuildShortlist(records, e.since, Limit(e.shortlist), e.rankRest);
      if e.tested { records := FilterCooldowns(e.rescan, e.later, e.exclude); }
      var ranked := RankShortlist(records, short, e.rankShort);
      var attempted, failed, verdict := ConnectFirst(ranked, e.exclude, e.outcome);
      var result := if verdict.Connected? then Success(verdict.chosen, |records|) else NoViable(|records|);
      r := Ran(attempted, failed, failures, result);
    }
  }
}
