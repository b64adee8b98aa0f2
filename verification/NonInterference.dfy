/**
  A superseded thread cannot be told apart from one that stopped: deleting every step
  taken on behalf of an ended session leaves the manager exactly as it was.
 */
module NonInterference {
  import opened Prelude
  import opened Session
  import opened Interleaving

  predicate TakenLate(w: World, a: Action) {
    a.Run? && a.t in w.threads && Superseded(w.m, w.threads[a.t])
  }

  // The run without the steps of superseded threads.
  function Pruned(p: Policy, joins: bool, w: World, acts: seq<Action>): seq<Action>
    decreases |acts|
  {
    if acts == [] then []
    else
      var next := Step(p, joins, w, acts[0]);
      if next.None? then []
      else
        var rest := Pruned(p, joins, next.value, acts[1..]);
        if TakenLate(w, acts[0]) then rest else [acts[0]] + rest
  }

  // Same manager and history; threads agree unless they are superseded.
  ghost predicate Alike(w: World, v: World) {
    && w.m == v.m && w.log == v.log && w.nextMonitor == v.nextMonitor
    && w.threads.Keys == v.threads.Keys
    && v.started.Keys <= w.started.Keys
    && forall t | t in w.threads ::
         w.threads[t] == v.threads[t] || (Superseded(w.m, w.threads[t]) && Superseded(w.m, v.threads[t]))
  }

  // A1, A3 and A4.
  const NO_LATE_WRITES := Schedule(true, false, true, true)

  // The sections that write to a session that is not theirs.
  predicate LateWrite(m: Manager, th: Thread) {
    match th
    case Attempt(_, _, _, pc) => (pc.AtBeginVerify? && m.phase != Verifying) || (pc.AtStopMonitor? && m.monitor.Some?)
    case Ticker(_, _, pc) => pc.TTail? && m.phase == Disconnecting
    case _ => false
  }

  /**
    Which late steps change the manager, apart from the installation of a monitor: exactly
    the ungated writes, where they write something new.
   */
  lemma LateWritesExactly(p: Policy, m: Manager, th: Thread, o: Outcome)
    requires Superseded(m, th) && !(th.Attempt? && th.apc.AtInstall?)
    ensures MoveOf(p, m, th, o).m != m <==> LateWrite(m, th)
  {
  }

  // Any other superseded thread writes nothing the manager or the history can see.
  lemma LateMove(p: Policy, m: Manager, th: Thread, o: Outcome)
    requires Superseded(m, th) && AllowedLate(NO_LATE_WRITES, m, th)
    ensures var mv := MoveOf(p, m, th, o);
      mv.m == m && !mv.effect.Note? && Superseded(m, mv.th)
  {
    LateWritesExactly(p, m, th, o);
  }

  predicate Lags(m: Manager, th: Thread) {
    match th
    case Attempt(g, _, _, _) => g <= m.generation
    case Verify(g, _) => g <= m.generation
    case Ticker(_, g, _) => g <= m.generation
    case Watcher(_, g, _, _) => g <= m.generation
    case Disconnect(_, _) => true
  }

  // No thread is ahead of the manager.
  ghost predicate InOrder(w: World) {
    forall t | t in w.threads :: Lags(w.m, w.threads[t])
  }

  lemma MoveLags(p: Policy, m: Manager, th: Thread, o: Outcome)
    requires Lags(m, th)
    ensures Lags(MoveOf(p, m, th, o).m, MoveOf(p, m, th, o).th)
    ensures m.generation <= MoveOf(p, m, th, o).m.generation
  {
  }

  lemma StepKeepsLag(p: Policy, joins: bool, w: World, a: Action, w': World)
    requires InOrder(w) && Step(p, joins, w, a) == Some(w')
    ensures InOrder(w') && w.m.generation <= w'.m.generation
  {
    if a.Run? { MoveLags(p, w.m, w.threads[a.t], a.o); }
    forall t | t in w'.threads ensures Lags(w'.m, w'.threads[t]) {
      if t in w.threads { assert Lags(w.m, w.threads[t]); }
    }
  }

  lemma LateStep(p: Policy, joins: bool, w: World, v: World, a: Action, w': World)
    requires Alike(w, v) && Allowed(NO_LATE_WRITES, w, a) && TakenLate(w, a)
    requires Step(p, joins, w, a) == Some(w')
    ensures Alike(w', v)
  {
    LateMove(p, w.m, w.threads[a.t], a.o);
  }

  lemma StaysSuperseded(m: Manager, m': Manager, th: Thread)
    requires Lags(m, th) && m.generation <= m'.generation
    ensures Superseded(m, th) ==> Superseded(m', th)
  {
  }

  lemma MirroredStep(p: Policy, joins: bool, w: World, v: World, a: Action, w': World)
    requires Alike(w, v) && InOrder(w) && InOrder(v) && !TakenLate(w, a)
    requires Step(p, joins, w, a) == Some(w')
    ensures !TakenLate(v, a)
    ensures Step(p, false, v, a).Some? && Alike(w', Step(p, false, v, a).value)
  {
    StepKeepsLag(p, joins, w, a, w');
    var v' := Step(p, false, v, a).value;
    forall t | t in w'.threads
      ensures w'.threads[t] == v'.threads[t] || (Superseded(w'.m, w'.threads[t]) && Superseded(w'.m, v'.threads[t]))
    {
      if t in w.threads && !(a.Run? && t == a.t) {
        StaysSuperseded(w.m, w'.m, w.threads[t]);
        StaysSuperseded(w.m, w'.m, v.threads[t]);
      }
    }
  }

  lemma AllowedAlike(h: Schedule, w: World, v: World, a: Action)
    requires Alike(w, v) && Allowed(h, w, a) && !TakenLate(w, a)
    ensures Allowed(h, v, a)
  {
    if DisconnectUnderWay(v) {
      var t :| t in v.threads && MidDisconnect(v.threads[t]);
      assert MidDisconnect(w.threads[t]);
    }
  }

  lemma {:induction false} PrunedRun(p: Policy, joins: bool, h: Schedule, w: World, v: World, acts: seq<Action>)
    requires h.noStaleVerifying && h.noStaleMonitor && h.noStaleTail
    requires Alike(w, v) && InOrder(w) && InOrder(v) && Exec(p, joins, h, w, acts).Some?
    ensures var kept := Pruned(p, joins, w, acts);
      && Exec(p, false, h, v, kept).Some?
      && Alike(Exec(p, joins, h, w, acts).value, Exec(p, false, h, v, kept).value)
      && Pruned(p, false, v, kept) == kept
    decreases |acts|
  {
    if acts != [] {
      var a := acts[0];
      var w' := Step(p, joins, w, a).value;
      StepKeepsLag(p, joins, w, a, w');
      if TakenLate(w, a) {
        LateStep(p, joins, w, v, a, w');
        PrunedRun(p, joins, h, w', v, acts[1..]);
      } else {
        MirroredStep(p, joins, w, v, a, w');
        AllowedAlike(h, w, v, a);
        var v' := Step(p, false, v, a).value;
        StepKeepsLag(p, false, v, a, v');
        PrunedRun(p, joins, h, w', v', acts[1..]);
        var kept := Pruned(p, joins, w, acts);
        assert kept[0] == a && kept[1..] == Pruned(p, joins, w', acts[1..]);
      }
    }
  }

  /**
    Non-interference. Take any run in which no superseded thread takes one of the three
    ungated writes or installs a monitor (A1, A3 and A4). Dropping every step of a
    superseded attempt, probe, ticker or watcher gives again a run (stopMonitor no longer
    waiting for threads that were dropped), it contains no late step, and it ends with the
    same manager: phase, slot, generation, attempts, verification evidence and counters.
   */
  lemma LateThreadsDoNotInterfere(p: Policy, h: Schedule, acts: seq<Action>, w: World)
    requires h.noStaleVerifying && h.noStaleMonitor && h.noStaleTail
    requires Exec(p, true, h, START, acts) == Some(w)
    ensures var kept := Pruned(p, true, START, acts);
      && Exec(p, false, h, START, kept).Some?
      && Exec(p, false, h, START, kept).value.m == w.m
      && Exec(p, false, h, START, kept).value.log == w.log
      && Pruned(p, false, START, kept) == kept
  {
    PrunedRun(p, true, h, START, START, acts);
  }
}
