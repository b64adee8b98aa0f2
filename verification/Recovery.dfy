/**
  The bounded automatic recovery of engine/app/recoveryservice.go: attempts, episodes,
  backoff, idle reset and the failure memory. Times are milliseconds passed in by the
  caller; the outcome of the selection loop is part of the tick.
 */
module Recovery {
  import opened Prelude
  import opened Session

  const MAX_ATTEMPTS := 3
  const BACKOFF := 10_000
  const COOLDOWN := 300_000
  const MAX_EPISODES := 2
  const IDLE_RESET := 1_800_000

  datatype Episode = Episode(number: nat, attempts: nat, nextAttempt: int)

  datatype State = State(
    episodes: nat,                 // consecutive exhausted episodes
    lastEpisode: Option<int>,      // when the last episode was exhausted
    failures: map<string, int>,    // candidate -> last failure
    episode: Option<Episode>)

  const IDLE := State(0, None, map[], None)

  // How one run of the selection loop ended.
  datatype Outcome = Failed | Unverified | Recovered | Cancelled

  datatype Tick = Tick(
    now: int,
    enabled: bool,                 // the user has not switched recovery off
    alive: bool,                   // the service's lifecycle has not ended
    phase: Phase,                  // the observed snapshot
    configId: string,
    outcome: Outcome,              // used only when an attempt starts
    noted: map<string, int>)       // failures other parts report while it runs

  // An attempt as an observer sees it.
  datatype Started = Started(at: int, number: nat, ordinal: nat, outcome: Outcome, excluded: set<string>)

  function Fresh(failures: map<string, int>, now: int): map<string, int> {
    map c | c in failures && now - failures[c] < COOLDOWN :: failures[c]
  }

  predicate IdleLongEnough(s: State, now: int) {
    s.lastEpisode.Some? && now - s.lastEpisode.value >= IDLE_RESET
  }

  function Refresh(s: State, now: int): State {
    var forgiven := IdleLongEnough(s, now);
    s.(failures := Fresh(s.failures, now),
       episodes := if forgiven then 0 else s.episodes,
       lastEpisode := if forgiven then None else s.lastEpisode)
  }

  function Learn(s: State, configId: string, now: int): State {
    if configId == "" then s else s.(failures := s.failures[configId := now])
  }

  function Doubling(k: nat): nat { if k == 0 then 1 else 2 * Doubling(k - 1) }

  // Bookkeeping after the selection loop returned.
  function Settle(s: State, e: Episode, k: Tick): State
    requires e.attempts >= 1
  {
    var s' := s.(failures := s.failures + k.noted);
    match k.outcome
    case Cancelled => s'.(episode := Some(e))
    case Recovered => s'.(episodes := 0, episode := None)
    case _ => s'.(episode := Some(e.(nextAttempt := k.now + BACKOFF * Doubling(e.attempts - 1))))
  }

  // The decision on a failed snapshot, after refreshing and learning.
  function OnFailure(s: State, k: Tick): (State, Option<Started>) {
    if s.episode.None? && s.episodes >= MAX_EPISODES then (s, None)
    else
      var e := if s.episode.Some? then s.episode.value else Episode(s.episodes + 1, 0, k.now);
      if k.now < e.nextAttempt then (s.(episode := Some(e)), None)
      else if e.attempts >= MAX_ATTEMPTS then
        (s.(episodes := e.number, lastEpisode := Some(k.now), episode := None), None)
      else
        var e' := e.(attempts := e.attempts + 1);
        (Settle(s, e', k),
         Some(Started(k.now, e.number, e'.attempts, k.outcome, s.failures.Keys)))
  }

  // `decideIn`.
  function Decide(s: State, k: Tick): (State, Option<Started>) {
    if !k.enabled || !k.alive then (s, None)
    else
      var s1 := Refresh(s, k.now);
      match k.phase
      case ConnectedVerified => (s1.(episode := None), None)
      case Disconnected => (s1.(episode := None), None)
      case ConnectionFailed => OnFailure(Learn(s1, k.configId, k.now), k)
      case _ => (s1, None)
  }

  // Every attempt of a run, in order.
  function Attempts(s: State, ticks: seq<Tick>): seq<Started>
    decreases |ticks|
  {
    if ticks == [] then []
    else
      var (s', a) := Decide(s, ticks[0]);
      (if a.Some? then [a.value] else []) + Attempts(s', ticks[1..])
  }

  ghost predicate Ordered(ticks: seq<Tick>) {
    forall i, j | 0 <= i < j < |ticks| :: ticks[i].now <= ticks[j].now
  }

  // The outage never ends: no healthy or idle snapshot, no recovered attempt.
  ghost predicate Outage(ticks: seq<Tick>) {
    forall i | 0 <= i < |ticks| ::
      && ticks[i].phase != ConnectedVerified && ticks[i].phase != Disconnected
      && ticks[i].outcome != Recovered
  }

  ghost predicate WellFormed(s: State) {
    s.episode.Some? ==> 1 <= s.episode.value.number <= MAX_EPISODES && s.episode.value.attempts <= MAX_ATTEMPTS
  }

  // Attempts left before a quiet period must pass.
  function Budget(s: State): nat {
    match s.episode
    case Some(e) =>
      (if e.attempts < MAX_ATTEMPTS then MAX_ATTEMPTS - e.attempts else 0)
      + (if e.number == 1 then MAX_ATTEMPTS else 0)
    case None =>
      if s.episodes == 0 then 2 * MAX_ATTEMPTS else if s.episodes == 1 then MAX_ATTEMPTS else 0
  }

  // Between episodes the last exhaustion is no earlier than t.
  ghost predicate Anchored(s: State, t: int) {
    s.episode.None? ==> s.lastEpisode.Some? && t <= s.lastEpisode.value
  }

  lemma {:induction false} AttemptTimes(s: State, ticks: seq<Tick>, t: int)
    requires Ordered(ticks) && (|ticks| > 0 ==> t <= ticks[0].now)
    ensures forall j | 0 <= j < |Attempts(s, ticks)| :: t <= Attempts(s, ticks)[j].at
    decreases |ticks|
  {
    if ticks != [] { AttemptTimes(Decide(s, ticks[0]).0, ticks[1..], t); }
  }

  lemma DecideKeepsForm(s: State, k: Tick)
    requires WellFormed(s)
    ensures WellFormed(Decide(s, k).0)
  {
  }

  // One tick of the outage spends budget only on attempts, unless the idle reset fires
  // between episodes.
  lemma TickSpendsBudget(s: State, k: Tick, t: int)
    requires WellFormed(s) && Anchored(s, t) && t <= k.now && Outage([k])
    requires !(s.episode.None? && IdleLongEnough(s, k.now))
    ensures var (s', a) := Decide(s, k);
      && Anchored(s', t)
      && Budget(s') + (if a.Some? then 1 else 0) <= Budget(s)
  {
    assert [k][0] == k;
  }

  // Beyond its budget a run has to wait for the idle reset.
  lemma {:induction false} BudgetBounds(s: State, ticks: seq<Tick>, t: int, j: nat)
    requires WellFormed(s) && Anchored(s, t) && Ordered(ticks) && Outage(ticks)
    requires |ticks| > 0 ==> t <= ticks[0].now
    requires Budget(s) <= j < |Attempts(s, ticks)|
    ensures Attempts(s, ticks)[j].at >= t + IDLE_RESET
    decreases |ticks|
  {
    var k := ticks[0];
    var (s', a) := Decide(s, k);
    DecideKeepsForm(s, k);
    if s.episode.None? && IdleLongEnough(s, k.now) {
      AttemptTimes(s, ticks, k.now);
    } else {
      assert Outage([k]);
      TickSpendsBudget(s, k, t);
      BudgetBounds(s', ticks[1..], t, if a.Some? then j - 1 else j);
    }
  }

  // An attempt leaves at most five more in the budget and an episode under way.
  lemma AfterAttempt(s: State, k: Tick)
    requires WellFormed(s) && Outage([k]) && Decide(s, k).1.Some?
    ensures Budget(Decide(s, k).0) <= 5
    ensures Decide(s, k).0.episode.Some? && Decide(s, k).1.value.at == k.now
  {
    assert [k][0] == k;
  }

  /**
    During an outage any seven consecutive attempts span at least the idle-reset window:
    fewer than 30 minutes contain at most six attempts, wherever idle resets fall.
   */
  lemma {:induction false} SixAttemptsPerHalfHour(s: State, ticks: seq<Tick>, i: nat)
    requires WellFormed(s) && Ordered(ticks) && Outage(ticks)
    requires i + 6 < |Attempts(s, ticks)|
    ensures Attempts(s, ticks)[i + 6].at - Attempts(s, ticks)[i].at >= IDLE_RESET
    decreases |ticks|
  {
    var k := ticks[0];
    var (s', a) := Decide(s, k);
    DecideKeepsForm(s, k);
    if a.None? {
      SixAttemptsPerHalfHour(s', ticks[1..], i);
    } else if i > 0 {
      SixAttemptsPerHalfHour(s', ticks[1..], i - 1);
    } else {
      assert Outage([k]);
      AfterAttempt(s, k);
      BudgetBounds(s', ticks[1..], k.now, 5);
    }
  }

  /** The first attempt a waiting episode makes comes no earlier than it announced. */
  lemma {:induction false} WaitsForBackoff(s: State, ticks: seq<Tick>)
    requires Ordered(ticks) && s.episode.Some? && |Attempts(s, ticks)| > 0
    requires Attempts(s, ticks)[0].ordinal == s.episode.value.attempts + 1
    requires s.episode.value.attempts >= 1
    ensures Attempts(s, ticks)[0].at >= s.episode.value.nextAttempt
    decreases |ticks|
  {
    var (s', a) := Decide(s, ticks[0]);
    if a.None? {
      if s'.episode.Some? {
        WaitsForBackoff(s', ticks[1..]);
      } else {
        FirstOrdinal(s', ticks[1..]);
      }
    }
  }

  lemma {:induction false} FirstOrdinal(s: State, ticks: seq<Tick>)
    requires s.episode.Some? ==> s.episode.value.attempts == 0
    requires |Attempts(s, ticks)| > 0
    ensures Attempts(s, ticks)[0].ordinal == 1
    decreases |ticks|
  {
    var (s', a) := Decide(s, ticks[0]);
    if a.None? { FirstOrdinal(s', ticks[1..]); }
  }

  /**
    In any run, attempt k+1 of an episode starts at least 10 s * 2^(k-1) after attempt k,
    unless attempt k was cancelled by the end of the service's lifecycle.
   */
  lemma {:induction false} BackoffDoubles(s: State, ticks: seq<Tick>, i: nat)
    requires Ordered(ticks) && i + 1 < |Attempts(s, ticks)|
    requires var a := Attempts(s, ticks);
      a[i + 1].ordinal == a[i].ordinal + 1 && a[i].outcome != Cancelled
    ensures var a := Attempts(s, ticks);
      a[i].ordinal >= 1 && a[i + 1].at - a[i].at >= BACKOFF * Doubling(a[i].ordinal - 1)
    decreases |ticks|
  {
    var (s', a) := Decide(s, ticks[0]);
    var rest := Attempts(s', ticks[1..]);
    if a.None? {
      BackoffDoubles(s', ticks[1..], i);
    } else if i > 0 {
      BackoffDoubles(s', ticks[1..], i - 1);
    } else if s'.episode.Some? {
      WaitsForBackoff(s', ticks[1..]);
    } else {
      FirstOrdinal(s', ticks[1..]);
    }
  }

  // Failures other parts report carry the time of the report.
  ghost predicate NotedInTime(ticks: seq<Tick>) {
    forall i, c | 0 <= i < |ticks| && c in ticks[i].noted :: ticks[i].now <= ticks[i].noted[c]
  }

  lemma {:induction false} RememberedFailureExcluded(s: State, ticks: seq<Tick>, c: string, t: int, j: nat)
    requires Ordered(ticks) && NotedInTime(ticks) && (|ticks| > 0 ==> t <= ticks[0].now)
    requires c in s.failures && t <= s.failures[c]
    requires j < |Attempts(s, ticks)| && Attempts(s, ticks)[j].at - t < COOLDOWN
    ensures c in Attempts(s, ticks)[j].excluded
    decreases |ticks|
  {
    var k := ticks[0];
    var (s', a) := Decide(s, k);
    if k.now - t >= COOLDOWN {
      AttemptTimes(s, ticks, k.now);
    } else if a.None? {
      RememberedFailureExcluded(s', ticks[1..], c, t, j);
    } else if j > 0 {
      RememberedFailureExcluded(s', ticks[1..], c, t, j - 1);
    }
  }

  /** A candidate seen failing is excluded from every attempt of the next five minutes. */
  lemma FailedCandidateCoolsDown(s: State, k: Tick, rest: seq<Tick>, j: nat)
    requires Ordered([k] + rest) && NotedInTime([k] + rest)
    requires k.enabled && k.alive && k.phase == ConnectionFailed && k.configId != ""
    requires j < |Attempts(s, [k] + rest)| && Attempts(s, [k] + rest)[j].at - k.now < COOLDOWN
    ensures k.configId in Attempts(s, [k] + rest)[j].excluded
  {
    var ticks := [k] + rest;
    var (s', a) := Decide(s, k);
    assert ticks[0] == k && ticks[1..] == rest;
    assert NotedInTime(rest) by {
      forall i, c | 0 <= i < |rest| && c in rest[i].noted ensures rest[i].now <= rest[i].noted[c] {
        assert rest[i] == ticks[i + 1];
      }
    }
    assert forall c | c in k.noted :: ticks[0].now <= ticks[0].noted[c];
    assert |rest| > 0 ==> rest[0] == ticks[1];
    if a.None? {
      RememberedFailureExcluded(s', rest, k.configId, k.now, j);
    } else if j > 0 {
      RememberedFailureExcluded(s', rest, k.configId, k.now, j - 1);
    }
  }

  /** The service as the source writes it. */
  class RecoveryService {
    var episodes: nat
    var lastEpisode: Option<int>
    var failures: map<string, int>
    var episode: Option<Episode>

    function View(): State
      reads this
    {
      State(episodes, lastEpisode, failures, episode)
    }

    constructor ()
      ensures View() == IDLE
    {
      episodes, lastEpisode, failures, episode := 0, None, map[], None;
    }

    // The lazy expiry loop over the failure memory.
    method ExpireCooldowns(now: int)
      modifies this`failures
      ensures failures == Fresh(old(failures), now)
    {
      var pending := failures.Keys;
      while pending != {}
        invariant pending <= failures.Keys <= old(failures).Keys
        invariant forall c | c in failures :: failures[c] == old(failures)[c]
        invariant forall c | c in old(failures) && c !in pending ::
                    c in failures <==> now - old(failures)[c] < COOLDOWN
        decreases pending
      {
        var c :| c in pending;
        if now - failures[c] >= COOLDOWN {
          failures := failures - {c};
        }
        pending := pending - {c};
      }
    }

    // `outcome` and `noted` are what the selection loop reports if it is started.
    method DecideIn(k: Tick) returns (started: Option<Started>)
      modifies this
      ensures (View(), started) == Decide(old(View()), k)
    {
      started := None;
      if !k.enabled { return; }
      if !k.alive { return; }
      ExpireCooldowns(k.now);
      if lastEpisode.Some? && k.now - lastEpisode.value >= IDLE_RESET {
        episodes := 0;
        lastEpisode := None;
      }
      if k.phase == ConnectedVerified || k.phase == Disconnected {
        episode := None;
        return;
      }
      if k.phase != ConnectionFailed { return; }
      if k.configId != "" { failures := failures[k.configId := k.now]; }
      if episode.None? {
        if episodes >= MAX_EPISODES { return; }
        episode := Some(Episode(episodes + 1, 0, k.now));
      }
      if k.now < episode.value.nextAttempt { return; }
      if episode.value.attempts >= MAX_ATTEMPTS {
        episodes := episode.value.number;
        lastEpisode := Some(k.now);
        episode := None;
        return;
      }
      started := StartAttempt(k);
    }

    // One pass of the selection loop and its bookkeeping.
    method StartAttempt(k: Tick) returns (started: Option<Started>)
      requires episode.Some?
      modifies this
      ensures var e := old(episode).value.(attempts := old(episode).value.attempts + 1);
        && View() == Settle(old(View()), e, k)
        && started == Some(Started(k.now, e.number, e.attempts, k.outcome, old(failures).Keys))
    {
      episode := Some(episode.value.(attempts := episode.value.attempts + 1));
      var attempt := episode.value.attempts;
      started := Some(Started(k.now, episode.value.number, attempt, k.outcome, failures.Keys));
      failures := failures + k.noted;
      if k.outcome == Cancelled { return; }
      if k.outcome == Recovered {
        episodes := 0;
        episode := None;
        return;
      }
      episode := Some(episode.value.(nextAttempt := k.now + BACKOFF * Doubling(attempt - 1)));
    }
  }
}
