/**
  How a fresh-selection loop ends, told by the outcomes of its attempts alone: who is chosen,
  who is recorded as failed, and when the loop gives up.
 */
module SelectionOutcome {
  import opened Sequences
  import opened Selection
  import opened SelectionRules

  // The attempts before n failed, and at n the loop ends: by a verified connection, a
  // cancellation or the end of the list.
  ghost predicate EndsAt(ranked: seq<Record>, outcome: nat -> Outcome, n: nat) {
    && n <= |ranked|
    && (forall k: nat | k < n :: outcome(k).Failed?)
    && (n < |ranked| ==> !outcome(n).Failed?)
  }

  predicate Succeeds(ranked: seq<Record>, outcome: nat -> Outcome, n: nat) {
    n < |ranked| && outcome(n) == Verified
  }

  // Every list of outcomes ends somewhere.
  lemma {:induction false} EndExists(ranked: seq<Record>, outcome: nat -> Outcome) returns (n: nat)
    ensures EndsAt(ranked, outcome, n)
    decreases |ranked|
  {
    if ranked == [] {
      n := 0;
    } else {
      n := EndExists(ranked[..|ranked| - 1], outcome);
      if n == |ranked| - 1 && outcome(n).Failed? { n := n + 1; }
    }
  }

  predicate FailuresOf(ranked: seq<Record>, outcome: nat -> Outcome, n: nat, failed: seq<Failure>)
    requires n <= |ranked|
  {
    && |failed| == n
    && forall k: nat | k < n :: outcome(k).Failed? && failed[k] == Failure(ranked[k].id, outcome(k).at)
  }

  // The attempts and the answer of a walk that ends at n.
  predicate WalkEnds(ranked: seq<Record>, outcome: nat -> Outcome, n: nat, p: Progress)
    requires n <= |ranked|
  {
    && FailuresOf(ranked, outcome, n, p.failed)
    && p.attempted == (if Succeeds(ranked, outcome, n) then ranked[..n + 1] else ranked[..n])
    && p.verdict == if Succeeds(ranked, outcome, n) then Connected(ranked[n])
                    else if n < |ranked| then Stopped else Going
  }

  // A walk that ended before its last record has ended the same way with one more.
  lemma WalkHasEnded(init: seq<Record>, r: Record, exclude: seq<Id>, outcome: nat -> Outcome, n: nat, p: Progress)
    requires n < |init| && !outcome(n).Failed? && WalkEnds(init, outcome, n, p)
    ensures WalkEnds(init + [r], outcome, n, Try(p, r, exclude, outcome(|init|)))
  {
    var ranked := init + [r];
    assert ranked[..n] == init[..n] && ranked[..n + 1] == init[..n + 1] && ranked[n] == init[n];
    assert forall k | 0 <= k < n :: ranked[k] == init[k];
  }

  // A walk still going takes its next record as the outcome says.
  lemma WalkGoesOn(init: seq<Record>, r: Record, exclude: seq<Id>, outcome: nat -> Outcome, n: nat, p: Progress)
    requires r.id != "" && r.id !in exclude && WalkEnds(init, outcome, |init|, p)
    requires n == if outcome(|init|).Failed? then |init| + 1 else |init|
    ensures WalkEnds(init + [r], outcome, n, Try(p, r, exclude, outcome(|init|)))
  {
    var ranked := init + [r];
    assert ranked[..|init|] == init == init[..|init|] && ranked[..|init| + 1] == ranked && ranked[|init|] == r;
    assert forall k | 0 <= k < |init| :: ranked[k] == init[k];
  }

  lemma {:induction false} WalkOutcome(f: Failures, ranked: seq<Record>, exclude: seq<Id>, outcome: nat -> Outcome,
                                       n: nat)
    requires Pickable(ranked, exclude) && EndsAt(ranked, outcome, n)
    ensures WalkEnds(ranked, outcome, n, TryAll(f, ranked, exclude, outcome))
    decreases |ranked|
  {
    if ranked != [] {
      var last: nat := |ranked| - 1;
      var init, r := ranked[..last], ranked[last];
      assert ranked == init + [r];
      WalkOutcome(f, init, exclude, outcome, if n < last then n else last);
      var p := TryAll(f, init, exclude, outcome);
      if n < last {
        WalkHasEnded(init, r, exclude, outcome, n, p);
      } else {
        WalkGoesOn(init, r, exclude, outcome, n, p);
      }
    }
  }

  predicate LoopEnds(ranked: seq<Record>, known: nat, outcome: nat -> Outcome, n: nat, r: Ran)
    requires n <= |ranked|
  {
    && FailuresOf(ranked, outcome, n, r.failed)
    && r.attempted == (if Succeeds(ranked, outcome, n) then ranked[..n + 1] else ranked[..n])
    && r.result == if Succeeds(ranked, outcome, n) then Success(ranked[n], known) else NoViable(known)
  }

  lemma ConcludeOutcome(pool: nat, known: nat, expired: Failures, f: Failures, ranked: seq<Record>,
                        exclude: seq<Id>, outcome: nat -> Outcome, n: nat)
    requires Pickable(ranked, exclude) && EndsAt(ranked, outcome, n)
    ensures LoopEnds(ranked, known, outcome, n, Conclude(true, pool, known, expired, f, ranked, exclude, outcome))
  {
    WalkOutcome(f, ranked, exclude, outcome, n);
  }

  // Some candidate may be used.
  predicate HasRoute(f: Failures, e: Env) { Routable(Pool(f, e), e.allowPublic) != [] }

  /**
    The whole loop by its outcomes: it goes down the ranked list through failures only, stops
    at the first attempt that did not fail, and answers with that very record if it verified.
   */
  lemma LoopOutcome(f: Failures, e: Env, n: nat)
    requires Sane(e) && HasRoute(f, e) && EndsAt(Ranked(f, e), e.outcome, n)
    ensures LoopEnds(Ranked(f, e), |Known(f, e)|, e.outcome, n, RunLoop(f, e))
  {
    RankedIsPickable(f, e);
    ConcludeOutcome(|Pool(f, e)|, |Known(f, e)|, Expire(f, e.now), FailuresAtRank(f, e), Ranked(f, e), e.exclude,
                    e.outcome, n);
  }

  predicate Named(failed: seq<Failure>, id: Id) { exists x :: x in failed && x.id == id }

  lemma LastIsNotFailed(ranked: seq<Record>, known: nat, outcome: nat -> Outcome, n: nat, r: Ran)
    requires DistinctIds(ranked) && n < |ranked| && LoopEnds(ranked, known, outcome, n, r)
    ensures !Named(r.failed, ranked[n].id)
  {
    forall x | x in r.failed ensures x.id != ranked[n].id {
      var k :| 0 <= k < |r.failed| && r.failed[k] == x;
      assert ranked[k].id != ranked[n].id;
    }
  }

  // The chosen record is the last attempted and verified; all before it failed.
  predicate ChoseLast(r: Ran, outcome: nat -> Outcome) {
    && r.result.Success? && |r.attempted| > 0 && |r.failed| == |r.attempted| - 1
    && r.result.chosen == r.attempted[|r.attempted| - 1]
    && outcome(|r.attempted| - 1) == Verified
    && forall k: nat | k < |r.failed| ::
         outcome(k).Failed? && r.failed[k] == Failure(r.attempted[k].id, outcome(k).at)
  }

  lemma SuccessChoseLast(ranked: seq<Record>, known: nat, outcome: nat -> Outcome, n: nat, r: Ran)
    requires DistinctIds(ranked) && n <= |ranked| && LoopEnds(ranked, known, outcome, n, r) && r.result.Success?
    ensures ChoseLast(r, outcome) && !Named(r.failed, r.result.chosen.id)
  {
    LastIsNotFailed(ranked, known, outcome, n, r);
  }

  /**
    The record a successful loop reports is the last it attempted and the only one that
    verified: every earlier attempt failed and is recorded, and the chosen one is not.
   */
  lemma ChosenIsVerified(f: Failures, e: Env)
    requires Sane(e) && RunLoop(f, e).result.Success?
    ensures ChoseLast(RunLoop(f, e), e.outcome) && !Named(RunLoop(f, e).failed, RunLoop(f, e).result.chosen.id)
  {
    var n := EndExists(Ranked(f, e), e.outcome);
    LoopOutcome(f, e, n);
    RankedIsEligible(f, e);
    SuccessChoseLast(Ranked(f, e), |Known(f, e)|, e.outcome, n, RunLoop(f, e));
  }

  // The first attempt that does not fail verifies.
  ghost predicate SomeVerifies(ranked: seq<Record>, outcome: nat -> Outcome) {
    exists n: nat :: n < |ranked| && outcome(n) == Verified && forall k: nat | k < n :: outcome(k).Failed?
  }

  /** A loop with a usable candidate succeeds exactly when some ranked candidate verifies before a cancellation. */
  lemma SucceedsExactly(f: Failures, e: Env)
    requires Sane(e)
    ensures RunLoop(f, e).result.Success? <==> HasRoute(f, e) && SomeVerifies(Ranked(f, e), e.outcome)
  {
    if HasRoute(f, e) {
      var n := EndExists(Ranked(f, e), e.outcome);
      LoopOutcome(f, e, n);
    }
  }

  /**
    A loop that finds no viable route without being cancelled met no verified outcome, and
    its failures are those of the whole ranked list.
   */
  lemma NoViableMeansNoneVerified(f: Failures, e: Env)
    requires Sane(e) && HasRoute(f, e) && RunLoop(f, e).result.NoViable?
    requires forall k: nat | k < |Ranked(f, e)| :: e.outcome(k) != Cancelled
    ensures forall k: nat | k < |Ranked(f, e)| :: e.outcome(k).Failed?
    ensures FailuresOf(Ranked(f, e), e.outcome, |Ranked(f, e)|, RunLoop(f, e).failed)
  {
    var n := EndExists(Ranked(f, e), e.outcome);
    LoopOutcome(f, e, n);
  }

  /** A loop that stops early without a success was cancelled there. */
  lemma EarlyStopIsCancellation(f: Failures, e: Env)
    requires Sane(e) && HasRoute(f, e) && !RunLoop(f, e).result.Success?
    requires |RunLoop(f, e).attempted| < |Ranked(f, e)|
    ensures e.outcome(|RunLoop(f, e).attempted|) == Cancelled
  {
    var n := EndExists(Ranked(f, e), e.outcome);
    LoopOutcome(f, e, n);
  }

  // ---- What the loop remembers ----

  predicate Keeps(f: Failures, f': Failures, failed: seq<Failure>, id: Id) {
    && (id in f' <==> id in f || Named(failed, id))
    && (id in f' && !Named(failed, id) ==> f'[id] == f[id])
  }

  lemma {:induction false} WalkKeeps(f: Failures, ranked: seq<Record>, exclude: seq<Id>, outcome: nat -> Outcome,
                                     id: Id)
    ensures var p := TryAll(f, ranked, exclude, outcome); Keeps(f, p.failures, p.failed, id)
    decreases |ranked|
  {
    if ranked != [] {
      var n: nat := |ranked| - 1;
      var p, q := TryAll(f, ranked[..n], exclude, outcome), TryAll(f, ranked, exclude, outcome);
      WalkKeeps(f, ranked[..n], exclude, outcome, id);
      if q.failed != p.failed {
        assert q.failed[|p.failed|] in q.failed;
        assert forall x | x in q.failed :: x in p.failed || x == q.failed[|p.failed|];
      }
    }
  }

  /** The memory after a loop: what had not expired, and the failures it met. */
  lemma LoopRemembersExactly(f: Failures, e: Env, id: Id)
    requires HasRoute(f, e)
    ensures Keeps(FailuresAtRank(f, e), RunLoop(f, e).failures, RunLoop(f, e).failed, id)
  {
    WalkKeeps(FailuresAtRank(f, e), Ranked(f, e), e.exclude, e.outcome, id);
  }

  // ---- Candidates ----

  /** Candidates are the scanned records that are neither excluded nor failed in the last five minutes. */
  lemma PoolExactly(f: Failures, e: Env, r: Record)
    ensures r in Pool(f, e) <==>
            && r in e.scan
            && (r.id == "" || r.id !in e.exclude)
            && (r.id in f ==> e.now >= f[r.id] + 300_000_000_000)
  {
    var cooled := Expire(f, e.now);
    FilterMember(e.scan, (r: Record) => !Excluded(e.exclude, r.id) && r.id !in cooled, r);
  }

  /** A loop has a route exactly when some candidate is trusted or the user opted in. */
  lemma HasRouteExactly(f: Failures, e: Env)
    ensures HasRoute(f, e) <==> exists r :: r in Pool(f, e) && (r.trusted || e.allowPublic)
  {
    UsableRoutes(Pool(f, e), e.allowPublic);
  }

  /** The requested limit holds between one and eight, and is eight otherwise. */
  lemma LimitMeans(shortlist: int)
    ensures 1 <= Limit(shortlist) <= 8
    ensures Limit(shortlist) == shortlist || (Limit(shortlist) == 8 && !(1 <= shortlist <= 8))
  {
  }

  /**
    A success counts as recent unless a later test failed within the hour: milliseconds in
    the record, nanoseconds on the clock.
   */
  lemma ProvenExactly(rs: seq<Record>, since: int, r: Record)
    ensures r in Proven(rs, since) <==>
            && r in rs && r.lastSuccessAt > 0
            && (r.failureStreak > 0 && r.testedAt > r.lastSuccessAt ==>
                  since >= (r.lastSuccessAt + 3_600_000) * 1_000_000)
  {
    FilterMember(rs, (r: Record) => !Unproven(r, since), r);
  }
}
