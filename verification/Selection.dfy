/**
  The fresh-selection loop of Quick Connect and recovery (engine/app/quickconnect.go): the
  specification. The clock, the store scans, ranking and the outcome of each connection
  attempt are inputs; ranking is any permutation of the ids it is given.
 */
module Selection {
  import opened Sequences
  type Id = string

  // Instants are nanoseconds; the record's own stamps are milliseconds.
  const MILLISECOND := 1_000_000
  const HOUR := 3_600_000 * MILLISECOND
  const COOLDOWN := 300_000 * MILLISECOND
  const SHORTLIST_LIMIT: nat := 8

  datatype Record = Record(id: Id, lastSuccessAt: int, testedAt: int, failureStreak: int, trusted: bool)

  // When each remembered candidate last failed.
  type Failures = map<Id, int>

  // What one iteration of the connect loop meets: a cancelled context, a verified
  // connection, or a failure recorded at an instant.
  datatype Outcome = Cancelled | Verified | Failed(at: int)

  /**
    Everything one loop reads from its surroundings: the two store scans, the caller's
    exclusions, limit and trust setting, the clock at its start, during classification and
    at the reload, whether any candidate was freshly tested, and the two rankings.
   */
  datatype Env = Env(scan: seq<Record>, rescan: seq<Record>, exclude: seq<Id>, shortlist: int,
                     allowPublic: bool, now: int, since: int, tested: bool, later: int,
                     rankRest: seq<Record> -> seq<Id>, rankShort: seq<Record> -> seq<Id>,
                     outcome: nat -> Outcome)

  // ---- Filters ----

  function Expire(f: Failures, now: int): Failures {
    map id | id in f && now - f[id] < COOLDOWN :: f[id]
  }

  predicate Excluded(exclude: seq<Id>, id: Id) { id != "" && id in exclude }

  function Available(rs: seq<Record>, cooled: Failures, exclude: seq<Id>): seq<Record> {
    Filter(rs, (r: Record) => !Excluded(exclude, r.id) && r.id !in cooled)
  }

  function Routable(rs: seq<Record>, allowPublic: bool): seq<Record> {
    Filter(rs, (r: Record) => r.trusted || allowPublic)
  }

  // A record without a success, or one whose last success was overtaken by a failure
  // within the hour.
  predicate Unproven(r: Record, since: int) {
    || r.lastSuccessAt <= 0
    || (r.failureStreak > 0 && since - r.lastSuccessAt * MILLISECOND < HOUR && r.testedAt > r.lastSuccessAt)
  }

  function Proven(rs: seq<Record>, since: int): seq<Record> {
    Filter(rs, (r: Record) => !Unproven(r, since))
  }

  function Rest(rs: seq<Record>, since: int): seq<Record> {
    Filter(rs, (r: Record) => Unproven(r, since))
  }

  // ---- Building the shortlist ----

  // Stable insertion: after every record at least as recent.
  function InsertByRecency(rs: seq<Record>, r: Record): seq<Record> {
    if rs == [] || rs[|rs| - 1].lastSuccessAt >= r.lastSuccessAt then rs + [r]
    else InsertByRecency(rs[..|rs| - 1], r) + [rs[|rs| - 1]]
  }

  function ByRecency(rs: seq<Record>): seq<Record> {
    if rs == [] then [] else InsertByRecency(ByRecency(rs[..|rs| - 1]), rs[|rs| - 1])
  }

  function Ids(rs: seq<Record>): (ids: seq<Id>)
    ensures |ids| == |rs|
  {
    if rs == [] then [] else Ids(rs[..|rs| - 1]) + [rs[|rs| - 1].id]
  }

  // The last record wins where an id repeats.
  function ById(rs: seq<Record>): map<Id, Record> {
    if rs == [] then map[]
    else ById(rs[..|rs| - 1])[rs[|rs| - 1].id := rs[|rs| - 1]]
  }

  function Lookup(ids: seq<Id>, m: map<Id, Record>): seq<Record> {
    if ids == [] then []
    else
      var id := ids[|ids| - 1];
      Lookup(ids[..|ids| - 1], m) + if id in m then [m[id]] else []
  }

  function Add(merged: seq<Record>, r: Record, limit: nat): seq<Record> {
    if r.id == "" || r.id in Ids(merged) || |merged| >= limit then merged else merged + [r]
  }

  function AddAll(merged: seq<Record>, rs: seq<Record>, limit: nat): seq<Record> {
    if rs == [] then merged else Add(AddAll(merged, rs[..|rs| - 1], limit), rs[|rs| - 1], limit)
  }

  function Shortlist(rs: seq<Record>, since: int, limit: nat, rank: seq<Record> -> seq<Id>): seq<Record> {
    var rest := Rest(rs, since);
    AddAll(AddAll([], ByRecency(Proven(rs, since)), limit), Lookup(rank(rest), ById(rest)), limit)
  }

  // Each shortlisted record replaced by its refreshed version where one is known.
  function Refresh(short: seq<Record>, m: map<Id, Record>): (r: seq<Record>)
    ensures |r| == |short|
  {
    if short == [] then []
    else
      var last := short[|short| - 1];
      Refresh(short[..|short| - 1], m) + [if last.id in m then m[last.id] else last]
  }

  function Rerank(all: seq<Record>, short: seq<Record>, rank: seq<Record> -> seq<Id>): seq<Record> {
    var refreshed := Refresh(short, ById(all));
    Lookup(rank(refreshed), ById(refreshed))
  }

  // ---- The connect loop ----

  datatype Verdict = Going | Stopped | Connected(chosen: Record)

  datatype Failure = Failure(id: Id, at: int)

  datatype Progress = Progress(attempted: seq<Record>, failed: seq<Failure>, failures: Failures, verdict: Verdict)

  function Try(p: Progress, r: Record, exclude: seq<Id>, o: Outcome): Progress {
    if p.verdict != Going then p
    else if o == Cancelled then p.(verdict := Stopped)
    else if Excluded(exclude, r.id) then p
    else
      var q := p.(attempted := p.attempted + [r]);
      match o
      case Verified => q.(verdict := Connected(r))
      case Failed(at) =>
        if r.id == "" then q
        else q.(failed := q.failed + [Failure(r.id, at)], failures := q.failures[r.id := at])
  }

  function TryAll(f: Failures, ranked: seq<Record>, exclude: seq<Id>, outcome: nat -> Outcome): Progress {
    if ranked == [] then Progress([], [], f, Going)
    else
      var n: nat := |ranked| - 1;
      Try(TryAll(f, ranked[..n], exclude, outcome), ranked[n], exclude, outcome(n))
  }

  // ---- One loop ----

  datatype LoopResult = OnlyUntrusted(untrusted: nat, candidates: nat)
                    | NoViable(candidates: nat)
                    | Success(chosen: Record, candidates: nat)

  datatype Ran = Ran(attempted: seq<Record>, failed: seq<Failure>, failures: Failures, result: LoopResult)

  function Limit(shortlist: int): nat {
    if shortlist <= 0 || shortlist > SHORTLIST_LIMIT then SHORTLIST_LIMIT else shortlist
  }

  // Candidates left at the start of the loop: not excluded, not cooling.
  function Pool(f: Failures, e: Env): seq<Record> { Available(e.scan, Expire(f, e.now), e.exclude) }

  function Short(f: Failures, e: Env): seq<Record> {
    Shortlist(Routable(Pool(f, e), e.allowPublic), e.since, Limit(e.shortlist), e.rankRest)
  }

  function FailuresAtRank(f: Failures, e: Env): Failures {
    if e.tested then Expire(Expire(f, e.now), e.later) else Expire(f, e.now)
  }

  function Known(f: Failures, e: Env): seq<Record> {
    if e.tested then Available(e.rescan, FailuresAtRank(f, e), e.exclude)
    else Routable(Pool(f, e), e.allowPublic)
  }

  function Ranked(f: Failures, e: Env): seq<Record> {
    Rerank(Known(f, e), Short(f, e), e.rankShort)
  }

  // The end of the loop: nothing usable, or the attempts and how they ended.
  function Conclude(usable: bool, pool: nat, known: nat, expired: Failures, f: Failures, ranked: seq<Record>,
                    exclude: seq<Id>, outcome: nat -> Outcome): Ran
  {
    if !usable then
      Ran([], [], expired, if pool > 0 then OnlyUntrusted(pool, pool) else NoViable(0))
    else
      var p := TryAll(f, ranked, exclude, outcome);
      Ran(p.attempted, p.failed, p.failures,
          match p.verdict
          case Connected(r) => Success(r, known)
          case _ => NoViable(known))
  }

  function RunLoop(f: Failures, e: Env): Ran {
    Conclude(Routable(Pool(f, e), e.allowPublic) != [], |Pool(f, e)|, |Known(f, e)|,
             Expire(f, e.now), FailuresAtRank(f, e), Ranked(f, e), e.exclude, e.outcome)
  }
}
