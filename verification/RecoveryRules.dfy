/**
  What the automatic recovery of engine/app/recoveryservice.go does on each snapshot, in its
  own terms: three attempts an episode, two episodes, five minutes of cooldown, half an hour
  of quiet. Times are milliseconds.
 */
module RecoveryRules {
  import opened Prelude
  import opened Session
  import opened Recovery
  import Interleaving
  import SessionDiagram

  predicate Watching(k: Tick) { k.enabled && k.alive }

  // Half an hour without an exhausted episode forgives the earlier ones.
  predicate Forgiven(s: State, now: int) {
    s.lastEpisode.Some? && s.lastEpisode.value + 1_800_000 <= now
  }

  // The state lets an attempt start now: the episode under way is due and has attempts left,
  // or there is none and a new one may begin.
  predicate MayAttempt(s: State, now: int) {
    match s.episode
    case Some(e) => e.nextAttempt <= now && e.attempts < 3
    case None => s.episodes < 2 || Forgiven(s, now)
  }

  // Consecutive exhausted episodes that still count.
  function Exhausted(s: State, now: int): nat { if Forgiven(s, now) then 0 else s.episodes }

  /** When an attempt starts: on a failed connection alone, and only if one is due and left. */
  lemma AttemptStartsExactly(s: State, k: Tick)
    ensures Decide(s, k).1.Some? <==> Watching(k) && k.phase == ConnectionFailed && MayAttempt(s, k.now)
  {
  }

  // Failed within the last five minutes, or just now.
  predicate CoolsDown(s: State, k: Tick, c: string) {
    || (c in s.failures && k.now - s.failures[c] < 300_000)
    || (c == k.configId && c != "")
  }

  /** What a starting attempt is: the next of its episode, told to avoid exactly the cooling candidates. */
  lemma AttemptCarries(s: State, k: Tick)
    requires Decide(s, k).1.Some?
    ensures var a := Decide(s, k).1.value;
      && a.at == k.now && a.outcome == k.outcome
      && (match s.episode
          case Some(e) => a.number == e.number && a.ordinal == e.attempts + 1
          case None => a.number == Exhausted(s, k.now) + 1 && a.ordinal == 1)
      && forall c :: c in a.excluded <==> CoolsDown(s, k, c)
  {
  }

  /** A switched-off or stopped service does nothing. */
  lemma OffDoesNothing(s: State, k: Tick)
    requires !Watching(k)
    ensures Decide(s, k) == (s, None)
  {
  }

  // What every watched snapshot does first: expiry of cooldowns and of exhausted episodes.
  ghost predicate OnlyExpired(s: State, s': State, now: int) {
    && s'.failures.Keys <= s.failures.Keys
    && (forall c :: c in s.failures ==> (c in s'.failures <==> s.failures[c] + 300_000 > now))
    && (forall c :: c in s'.failures ==> s'.failures[c] == s.failures[c])
    && s'.episodes == Exhausted(s, now)
    && s'.lastEpisode == if Forgiven(s, now) then None else s.lastEpisode
  }

  /**
    A verified connection and a user's own disconnection end the episode; any phase in
    between neither ends nor advances it. None of them starts an attempt.
   */
  lemma OtherPhasesStartNothing(s: State, k: Tick)
    requires Watching(k) && k.phase != ConnectionFailed
    ensures Decide(s, k).1.None? && OnlyExpired(s, Decide(s, k).0, k.now)
    ensures Decide(s, k).0.episode ==
            if k.phase == ConnectedVerified || k.phase == Disconnected then None else s.episode
  {
  }

  /** After such a snapshot the next failure, however late, is answered by attempt 1 of a new episode. */
  lemma QuietSnapshotStartsOver(s: State, k: Tick, rest: seq<Tick>)
    requires Watching(k) && (k.phase == ConnectedVerified || k.phase == Disconnected)
    requires |Attempts(s, [k] + rest)| > 0
    ensures Attempts(s, [k] + rest)[0].ordinal == 1
  {
    var ticks := [k] + rest;
    assert ticks[0] == k && ticks[1..] == rest;
    OtherPhasesStartNothing(s, k);
    FirstOrdinal(Decide(s, k).0, rest);
  }

  // The memory after a failed snapshot, before an attempt.
  ghost predicate Learned(s: State, s': State, k: Tick) {
    && (forall c :: c in s'.failures <==> CoolsDown(s, k, c))
    && (forall c | c in s'.failures && c != k.configId :: s'.failures[c] == s.failures[c])
    && (k.configId != "" ==> s'.failures[k.configId] == k.now)
  }

  // Why a failed snapshot starts no attempt.
  datatype Pause = GaveUp | Waiting | RanOut

  function PauseOf(s: State, now: int): Pause {
    match s.episode
    case None => GaveUp
    case Some(e) => if now < e.nextAttempt then Waiting else RanOut
  }

  /**
    A failed snapshot that starts no attempt remembers the failed candidate and either waits,
    or stays quiet after two episodes, or closes an episode whose three attempts are spent.
   */
  lemma FailureWithoutAttempt(s: State, k: Tick)
    requires Watching(k) && k.phase == ConnectionFailed && !MayAttempt(s, k.now)
    ensures Learned(s, Decide(s, k).0, k)
    ensures var s' := Decide(s, k).0;
      match PauseOf(s, k.now)
      case GaveUp => s'.episode == None && s'.episodes == s.episodes && s'.lastEpisode == s.lastEpisode
      case Waiting =>
        && s'.episode == s.episode && s'.episodes == Exhausted(s, k.now)
        && s'.lastEpisode == (if Forgiven(s, k.now) then None else s.lastEpisode)
      case RanOut => s'.episode == None && s'.episodes == s.episode.value.number && s'.lastEpisode == Some(k.now)
  {
  }

  // The distance the source announces after a failed attempt.
  function Announced(ordinal: nat): nat {
    if ordinal == 1 then 10_000 else if ordinal == 2 then 20_000 else 40_000
  }

  lemma BackoffTable(ordinal: nat)
    requires 1 <= ordinal <= 3
    ensures BACKOFF * Doubling(ordinal - 1) == Announced(ordinal)
  {
    if ordinal == 3 { assert Doubling(2) == 2 * Doubling(1); }
  }

  /**
    What an attempt leaves behind: success forgives every exhausted episode, failure announces
    the next attempt 10, 20 or 40 seconds later, and a cancelled attempt counts as made.
   */
  lemma AttemptSettles(s: State, k: Tick)
    requires WellFormed(s) && Decide(s, k).1.Some?
    ensures var (s', a) := Decide(s, k);
      && (match k.outcome
          case Recovered => s'.episode == None && s'.episodes == 0
          case Cancelled => s'.episode.Some? && s'.episodes == Exhausted(s, k.now)
          case _ =>
            && s'.episode == Some(Episode(a.value.number, a.value.ordinal, k.now + Announced(a.value.ordinal)))
            && s'.episodes == Exhausted(s, k.now))
      && (s'.episode.Some? ==>
            s'.episode.value.attempts == a.value.ordinal && s'.episode.value.number == a.value.number)
      && (forall c :: c in s'.failures <==> c in a.value.excluded || c in k.noted)
  {
    var a := Decide(s, k).1.value;
    AttemptStartsExactly(s, k);
    AttemptCarries(s, k);
    BackoffTable(a.ordinal);
  }

  // ---- Crashed sessions ----

  /**
    A session whose core dies is answered: the watched snapshot of the manager right after the
    crash starts an attempt whenever one is due and left.
   */
  lemma CrashIsAnswered(p: Policy, joins: bool, w: Interleaving.World, a: Interleaving.Action, w': Interleaving.World,
                        s: State, k: Tick)
    requires SessionDiagram.Steps(p, joins, w, a, w') && a.Run? && a.t in w.threads
    requires SessionDiagram.CoreDied(w.m, w.threads[a.t])
    requires Watching(k) && k.phase == w'.m.phase
    ensures Decide(s, k).1.Some? <==> MayAttempt(s, k.now)
  {
    SessionDiagram.CrashFailsSession(p, joins, w, a, w');
    AttemptStartsExactly(s, k);
  }

  // ---- The bound is met ----

  function FailedAt(t: int): Tick { Tick(t, true, true, ConnectionFailed, "", Failed, map[]) }

  // The snapshots of one full episode that begins at t.
  function EpisodeFrom(t: int): seq<Tick> {
    [FailedAt(t), FailedAt(t + 10_000), FailedAt(t + 30_000), FailedAt(t + 70_000)]
  }

  lemma AttemptsCons(s: State, k: Tick, rest: seq<Tick>)
    ensures var (s', a) := Decide(s, k);
      Attempts(s, [k] + rest) == (if a.Some? then [a.value] else []) + Attempts(s', rest)
  {
    assert ([k] + rest)[1..] == rest;
  }

  predicate Rested(s: State, t: int) {
    && s.episode == None && s.episodes < 2 && s.failures == map[]
    && (s.lastEpisode.Some? ==> t + 70_000 < s.lastEpisode.value + 1_800_000)
  }

  // One failed attempt of episode e at time t, nothing remembered.
  lemma FailedAttempt(s: State, e: Episode, t: int)
    requires s.failures == map[] && !Forgiven(s, t) && e.attempts < 3 && e.nextAttempt <= t
    requires s.episode == Some(e) || (s.episode == None && s.episodes < 2 && e == Episode(s.episodes + 1, 0, t))
    ensures var n := e.attempts + 1;
      Decide(s, FailedAt(t)) ==
        (s.(episode := Some(Episode(e.number, n, t + Announced(n)))), Some(Started(t, e.number, n, Failed, {})))
  {
    var k := FailedAt(t);
    BackoffTable(e.attempts + 1);
    NothingRemembered(s, t);
    assert Decide(s, k) == OnFailure(s, k);
    var e' := e.(attempts := e.attempts + 1);
    assert OnFailure(s, k).0 == Settle(s, e', k);
    assert s.failures + k.noted == s.failures && s.failures.Keys == {};
  }

  lemma NothingRemembered(s: State, t: int)
    requires s.failures == map[] && !Forgiven(s, t)
    ensures Recovery.Refresh(s, t) == s
  {
    assert Fresh(s.failures, t) == map[];
  }

  // After three attempts the episode is closed.
  lemma EpisodeCloses(s: State, e: Episode, t: int)
    requires s.failures == map[] && !Forgiven(s, t) && s.episode == Some(e) && e.attempts == 3 && e.nextAttempt <= t
    ensures Decide(s, FailedAt(t)) == (State(e.number, Some(t), map[], None), None)
  {
    NothingRemembered(s, t);
  }

  lemma EpisodeIsThreeAttempts(s: State, t: int, rest: seq<Tick>)
    requires Rested(s, t)
    ensures var n := s.episodes + 1;
      Attempts(s, EpisodeFrom(t) + rest) ==
        [Started(t, n, 1, Failed, {}), Started(t + 10_000, n, 2, Failed, {}), Started(t + 30_000, n, 3, Failed, {})]
        + Attempts(State(n, Some(t + 70_000), map[], None), rest)
  {
    var n := s.episodes + 1;
    var e1, e2, e3 := Episode(n, 1, t + 10_000), Episode(n, 2, t + 30_000), Episode(n, 3, t + 70_000);
    FailedAttempt(s, Episode(n, 0, t), t);
    FailedAttempt(s.(episode := Some(e1)), e1, t + 10_000);
    FailedAttempt(s.(episode := Some(e2)), e2, t + 30_000);
    EpisodeCloses(s.(episode := Some(e3)), e3, t + 70_000);
    FourTicks(s, s.(episode := Some(e1)), s.(episode := Some(e2)), s.(episode := Some(e3)), EpisodeFrom(t), rest);
  }

  lemma FourTicks(s: State, s1: State, s2: State, s3: State, ks: seq<Tick>, rest: seq<Tick>)
    requires |ks| == 4
    requires Decide(s, ks[0]).0 == s1 && Decide(s1, ks[1]).0 == s2 && Decide(s2, ks[2]).0 == s3
    requires Decide(s, ks[0]).1.Some? && Decide(s1, ks[1]).1.Some? && Decide(s2, ks[2]).1.Some?
    requires Decide(s3, ks[3]).1.None?
    ensures Attempts(s, ks + rest) ==
            [Decide(s, ks[0]).1.value, Decide(s1, ks[1]).1.value, Decide(s2, ks[2]).1.value]
            + Attempts(Decide(s3, ks[3]).0, rest)
  {
    var a, b, c := Decide(s, ks[0]).1.value, Decide(s1, ks[1]).1.value, Decide(s2, ks[2]).1.value;
    var end := Attempts(Decide(s3, ks[3]).0, rest);
    AttemptsCons(s3, ks[3], rest);
    AttemptsCons(s2, ks[2], [ks[3]] + rest);
    AttemptsCons(s1, ks[1], [ks[2]] + ([ks[3]] + rest));
    AttemptsCons(s, ks[0], [ks[1]] + ([ks[2]] + ([ks[3]] + rest)));
    assert ks + rest == [ks[0]] + ([ks[1]] + ([ks[2]] + ([ks[3]] + rest)));
    assert [a] + ([b] + ([c] + ([] + end))) == [a, b, c] + end;
  }

  /** Six attempts do fit: an idle service makes all six within 100 seconds of a lasting failure. */
  lemma SixAttemptsHappen(t: int)
    ensures var a := Attempts(IDLE, EpisodeFrom(t) + (EpisodeFrom(t + 70_000) + []));
      |a| == 6 && a[0].at == t && a[5].at == t + 100_000
  {
    var s' := State(1, Some(t + 70_000), map[], None);
    EpisodeIsThreeAttempts(IDLE, t, EpisodeFrom(t + 70_000) + []);
    EpisodeIsThreeAttempts(s', t + 70_000, []);
  }
}
