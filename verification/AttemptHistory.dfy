/**
  The attempt history of a session (engine/connection/connection.go): which candidates it
  lists, in which order, and how a failing candidate gets there. No schedule is assumed.
 */
module AttemptHistory {
  import opened Prelude
  import opened Session
  import opened Interleaving
  import opened SessionDiagram

  // The candidates in order, each once, all failed but possibly the last.
  predicate InOrder(h: seq<AttemptRecord>) {
    forall i | 0 <= i < |h| :: h[i].candidate == i && (h[i].ok ==> i == |h| - 1)
  }

  // The first n candidates, all failed.
  predicate AllFailed(h: seq<AttemptRecord>, n: nat) {
    |h| == n && forall i | 0 <= i < n :: h[i] == AttemptRecord(i, false)
  }

  // The attempt has recorded the failure of its candidate.
  predicate GaveUp(pc: AttemptPc) { pc.AtCloseUnready? || pc.AtClearUnready? || pc.AtNext? }

  // What the history says while the current attempt stands at pc; it never closes a stale core.
  predicate Tells(h: seq<AttemptRecord>, candidate: nat, pc: AttemptPc) {
    if GaveUp(pc) then AllFailed(h, candidate + 1)
    else if pc.AtFail? then AllFailed(h, |h|)
    else if pc.AtCloseStale? then false
    else if pc.AtStopMonitor? || pc.AtJoinMonitor? || pc.AtInstall? || pc.AtDone? then true
    else AllFailed(h, candidate) && (pc.AtSelect? ==> candidate == 0)
  }

  predicate Attempting(w: World, t: Tid) { t in w.threads && w.threads[t].Attempt? }

  // Attempts carry generations of accepted Connects, each its own.
  ghost predicate OwnGenerations(w: World) {
    && (forall t | Attempting(w, t) :: w.threads[t].gen <= w.m.generation)
    && (forall t, s | Attempting(w, t) && Attempting(w, s) && t != s :: w.threads[t].gen != w.threads[s].gen)
  }

  predicate ShuttingDown(w: World, t: Tid) {
    t in w.threads && w.threads[t].Disconnect? && (w.threads[t].wipe || w.threads[t].dpc == DWipe)
  }

  // Once a Shutdown has ended the generation, no attempt is current.
  ghost predicate QuietShutdown(w: World) {
    forall t | ShuttingDown(w, t) ::
      && w.m.shutdown
      && (w.threads[t].dpc != DBegin ==> forall s | Attempting(w, s) :: w.threads[s].gen != w.m.generation)
  }

  ghost predicate Told(w: World) {
    && InOrder(w.m.attempts)
    && forall t | Attempting(w, t) && w.threads[t].gen == w.m.generation ::
         Tells(w.m.attempts, w.threads[t].candidate, w.threads[t].apc)
  }

  ghost predicate HistoryInv(w: World) { OwnGenerations(w) && QuietShutdown(w) && Told(w) }

  // What a step may do to a thread that is an attempt afterwards.
  lemma AttemptsKeepGeneration(p: Policy, joins: bool, w: World, a: Action, w': World, t: Tid)
    requires Steps(p, joins, w, a, w') && Attempting(w', t)
    ensures Attempting(w, t) ==> w'.threads[t].gen == w.threads[t].gen
    ensures !Attempting(w, t) ==> a.CallConnect? && w'.threads[t] == Attempt(w.m.generation + 1, 0, 0, AtSelect)
    ensures Attempting(w, t) && !(a.Run? && a.t == t) ==> w'.threads[t] == w.threads[t]
    ensures a.CallConnect? && !Attempting(w, t) ==> a.t == t
  {
  }

  lemma StepKeepsGenerations(p: Policy, joins: bool, w: World, a: Action, w': World)
    requires Steps(p, joins, w, a, w') && OwnGenerations(w)
    ensures OwnGenerations(w')
  {
    GenerationMoves(p, joins, w, a, w');
    forall t | Attempting(w', t) ensures w'.threads[t].gen <= w'.m.generation {
      AttemptsKeepGeneration(p, joins, w, a, w', t);
    }
    forall t, s | Attempting(w', t) && Attempting(w', s) && t != s
      ensures w'.threads[t].gen != w'.threads[s].gen
    {
      AttemptsKeepGeneration(p, joins, w, a, w', t);
      AttemptsKeepGeneration(p, joins, w, a, w', s);
    }
  }

  // A Shutdown caller after a step is one before it, at the same or a later section, or a new one.
  lemma ShutdownThreads(p: Policy, joins: bool, w: World, a: Action, w': World, t: Tid)
    requires Steps(p, joins, w, a, w') && ShuttingDown(w', t)
    ensures !ShuttingDown(w, t) ==> a == CallDisconnect(t, true) && w'.threads[t].dpc == DBegin
    ensures ShuttingDown(w, t) && w'.threads[t].dpc != DBegin && w.threads[t].dpc == DBegin ==> a.Run? && a.t == t
  {
  }

  lemma StepKeepsQuiet(p: Policy, joins: bool, w: World, a: Action, w': World)
    requires Steps(p, joins, w, a, w') && OwnGenerations(w) && QuietShutdown(w)
    ensures QuietShutdown(w')
  {
    ShutdownMoves(p, joins, w, a, w');
    GenerationMoves(p, joins, w, a, w');
    forall t | ShuttingDown(w', t)
      ensures w'.m.shutdown
      ensures w'.threads[t].dpc != DBegin ==> forall s | Attempting(w', s) :: w'.threads[s].gen != w'.m.generation
    {
      ShutdownThreads(p, joins, w, a, w', t);
      if w'.threads[t].dpc != DBegin {
        forall s | Attempting(w', s) ensures w'.threads[s].gen != w'.m.generation {
          AttemptsKeepGeneration(p, joins, w, a, w', s);
        }
      }
    }
  }

  // ---- What the current attempt tells ----

  lemma RecordKeepsOrder(h: seq<AttemptRecord>, r: AttemptRecord)
    requires AllFailed(h, r.candidate)
    ensures InOrder(h + [r])
    ensures !r.ok ==> AllFailed(h + [r], r.candidate + 1)
  {
  }

  predicate Records(pc: AttemptPc) { pc.AtRecordOk? || pc.AtRecordFail? || pc.AtRecordUnready? }

  // One move of a current attempt.
  lemma RecordTells(p: Policy, m: Manager, th: Thread, o: Outcome)
    requires th.Attempt? && th.gen == m.generation && Tells(m.attempts, th.candidate, th.apc) && Records(th.apc)
    ensures var mv := MoveAttempt(p, m, th, o);
      InOrder(mv.m.attempts) && Tells(mv.m.attempts, mv.th.candidate, mv.th.apc)
  {
    RecordKeepsOrder(m.attempts, AttemptRecord(th.candidate, th.apc.AtRecordOk?));
  }

  lemma OtherMoveTells(p: Policy, m: Manager, th: Thread, o: Outcome)
    requires th.Attempt? && th.gen == m.generation && Tells(m.attempts, th.candidate, th.apc) && !Records(th.apc)
    ensures var mv := MoveAttempt(p, m, th, o);
      mv.m.attempts == m.attempts && Tells(m.attempts, mv.th.candidate, mv.th.apc)
  {
  }

  lemma CurrentStepTells(p: Policy, joins: bool, w: World, a: Action, w': World)
    requires Steps(p, joins, w, a, w') && HistoryInv(w)
    requires a.Run? && Attempting(w, a.t) && w.threads[a.t].gen == w.m.generation
    ensures Told(w')
  {
    var th := w.threads[a.t];
    GenerationMoves(p, joins, w, a, w');
    assert Tells(w.m.attempts, th.candidate, th.apc);
    if Records(th.apc) { RecordTells(p, w.m, th, a.o); } else { OtherMoveTells(p, w.m, th, a.o); }
    forall t | Attempting(w', t) && w'.threads[t].gen == w'.m.generation
      ensures Tells(w'.m.attempts, w'.threads[t].candidate, w'.threads[t].apc)
    {
      AttemptsKeepGeneration(p, joins, w, a, w', t);
      assert t == a.t;
    }
  }

  // Every other step leaves the history alone, starts it afresh, or empties it when no attempt is current.
  lemma OtherStepTells(p: Policy, joins: bool, w: World, a: Action, w': World)
    requires Steps(p, joins, w, a, w') && HistoryInv(w)
    requires !(a.Run? && Attempting(w, a.t) && w.threads[a.t].gen == w.m.generation)
    ensures Told(w')
  {
    HistoryMoves(p, joins, w, a, w');
    GenerationMoves(p, joins, w, a, w');
    assert a.Run? && w.threads[a.t].Disconnect? && w.threads[a.t].dpc == DWipe ==> ShuttingDown(w, a.t);
    forall t | Attempting(w', t) && w'.threads[t].gen == w'.m.generation
      ensures Tells(w'.m.attempts, w'.threads[t].candidate, w'.threads[t].apc)
    {
      AttemptsKeepGeneration(p, joins, w, a, w', t);
    }
  }

  lemma StepKeepsHistory(p: Policy, joins: bool, w: World, a: Action, w': World)
    requires Steps(p, joins, w, a, w') && HistoryInv(w)
    ensures HistoryInv(w')
  {
    StepKeepsGenerations(p, joins, w, a, w');
    StepKeepsQuiet(p, joins, w, a, w');
    if a.Run? && Attempting(w, a.t) && w.threads[a.t].gen == w.m.generation {
      CurrentStepTells(p, joins, w, a, w');
    } else {
      OtherStepTells(p, joins, w, a, w');
    }
  }

  lemma {:induction false} RunKeepsHistory(p: Policy, joins: bool, h: Schedule, w: World, acts: seq<Action>)
    requires HistoryInv(w) && Exec(p, joins, h, w, acts).Some?
    ensures HistoryInv(Exec(p, joins, h, w, acts).value)
    decreases |acts|
  {
    if acts != [] {
      var next := Step(p, joins, w, acts[0]).value;
      StepKeepsHistory(p, joins, w, acts[0], next);
      RunKeepsHistory(p, joins, h, next, acts[1..]);
    }
  }

  /**
    In every reachable state, whatever the schedule, the history lists the candidates of one
    session from the first on, each once, and only the last of them can have succeeded: no
    record of an earlier session, and none of a superseded attempt, is among them.
   */
  lemma HistoryListsCandidates(p: Policy, h: Schedule, w: World)
    requires Reachable(p, h, w)
    ensures forall i | 0 <= i < |w.m.attempts| ::
              w.m.attempts[i].candidate == i && (w.m.attempts[i].ok ==> i == |w.m.attempts| - 1)
  {
    var acts :| Exec(p, true, h, START, acts) == Some(w);
    RunKeepsHistory(p, true, h, START, acts);
  }

  /** An accepted attempt has a failed record for every candidate it gave up, and goes on to the next. */
  lemma FailedCandidatesAreListed(p: Policy, h: Schedule, w: World, t: Tid)
    requires Reachable(p, h, w) && Attempting(w, t) && w.threads[t].gen == w.m.generation
    requires w.threads[t].apc.AtPrepare? || w.threads[t].apc.AtStart? || w.threads[t].apc.AtProbe?
    ensures |w.m.attempts| == w.threads[t].candidate && forall r | r in w.m.attempts :: !r.ok
  {
    var acts :| Exec(p, true, h, START, acts) == Some(w);
    RunKeepsHistory(p, true, h, START, acts);
  }

  // ---- Failing outcomes ----

  /** A failed check, start, readiness wait or probe always takes the failing path of its candidate. */
  lemma FailureTakesFailingPath(p: Policy, m: Manager, th: Thread, o: Outcome)
    requires th.Attempt? && th.gen == m.generation
    ensures var next := MoveAttempt(p, m, th, o).th.apc;
      match th.apc
      case AtPrecheck => next.AtRecordFail? <==> !o.ok
      case AtStart => next.AtRecordFail? <==> !o.ok
      case AtWaitReady(x) => next == AtRecordUnready(x) <==> !o.ok
      case AtProbe(x) => next == AtCloseUnusable(x) <==> !o.ok
      case _ => true
  {
  }
}
