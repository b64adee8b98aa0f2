/**
  The state diagram of engine/connection/connection.go over every interleaving: which section
  enters each phase, what each section may do to the session, and what follows for whole
  runs. Nothing here assumes a schedule.
 */
module SessionDiagram {
  import opened Prelude
  import opened Session
  import opened Interleaving

  predicate Current(m: Manager, th: Thread) { !th.Disconnect? && th.gen == m.generation }

  // The recheck that ends its session: the last miss the threshold allows.
  predicate FinalMiss(p: Policy, m: Manager, th: Thread, o: Outcome) {
    && th.Ticker? && th.tpc == TProbe && Current(m, th)
    && !o.ok && m.verifyFailures + 1 >= p.threshold
  }

  // The core of a running session is found dead.
  predicate CoreDied(m: Manager, th: Thread) {
    && th.Watcher? && th.wpc == WCrash && Current(m, th)
    && m.phase in {Connected, Verifying, ConnectedVerified}
  }

  // The phases only the attempt of the current session enters.
  predicate AttemptEnters(p: Policy, pc: AttemptPc, next: Phase) {
    match next
    case Selecting => pc.AtClearUnusable?
    case Preparing => pc.AtPrepare?
    case StartingCore => pc.AtLaunch?
    case WaitingForReady => pc.AtPublish?
    case Connected => pc.AtReady? || (pc.AtFinal? && p.skip)
    case ConnectedVerified => pc.AtFinal? && !p.skip
    case ConnectionFailed => pc.AtFail?
    case _ => false
  }

  predicate EnteredBy(p: Policy, m: Manager, th: Thread, o: Outcome, next: Phase) {
    || (th.Attempt? && Current(m, th) && AttemptEnters(p, th.apc, next))
    || match next
       case Verifying => th.Attempt? && th.apc.AtBeginVerify?
       case Disconnecting => (th.Disconnect? && th.dpc == DTake) || FinalMiss(p, m, th, o)
       case Disconnected => th.Disconnect? && th.dpc == DFinish
       case ConnectionFailed => CoreDied(m, th) || (th.Ticker? && th.tpc == TTail && m.phase == Disconnecting)
       case _ => false
  }

  predicate Entered(p: Policy, w: World, a: Action, next: Phase) {
    match a
    case CallConnect(_) => next == Selecting
    case Run(t, o) => t in w.threads && EnteredBy(p, w.m, w.threads[t], o, next)
    case _ => false
  }

  ghost predicate Steps(p: Policy, joins: bool, w: World, a: Action, w': World) {
    Step(p, joins, w, a) == Some(w')
  }

  /** A step ends in the phase its section enters, and otherwise keeps the phase. */
  lemma PhaseDiagram(p: Policy, joins: bool, w: World, a: Action, w': World, next: Phase)
    requires Steps(p, joins, w, a, w')
    ensures Entered(p, w, a, next) ==> w'.m.phase == next
    ensures w'.m.phase == next != w.m.phase ==> Entered(p, w, a, next)
  {
  }

  /** Only the last section of a Disconnect makes the manager `disconnected`. */
  lemma OnlyDisconnectDisconnects(p: Policy, joins: bool, w: World, a: Action, w': World)
    requires Steps(p, joins, w, a, w') && w'.m.phase == Disconnected != w.m.phase
    ensures a.Run? && w.threads[a.t].Disconnect? && w.threads[a.t].dpc == DFinish
  {
    PhaseDiagram(p, joins, w, a, w', Disconnected);
  }

  /**
    How an active phase ends: in `disconnecting` when a Disconnect takes the core or the last
    allowed recheck misses, in `disconnected` at the end of a Disconnect, and in every other
    case in `connection_failed`.
   */
  lemma LeavingActivePhase(p: Policy, joins: bool, w: World, a: Action, w': World)
    requires Steps(p, joins, w, a, w') && w.m.phase.Active() && !w'.m.phase.Active()
    ensures a.Run? && a.t in w.threads
    ensures var th := w.threads[a.t];
      w'.m.phase ==
        if th.Disconnect? then if th.dpc == DTake then Disconnecting else Disconnected
        else if FinalMiss(p, w.m, th, a.o) then Disconnecting
        else ConnectionFailed
    ensures w'.m.phase == Disconnected ==> w.threads[a.t].dpc == DFinish
    ensures w'.m.phase == ConnectionFailed ==>
            CoreDied(w.m, w.threads[a.t]) || (w.threads[a.t].Attempt? && w.threads[a.t].apc == AtFail)
  {
    PhaseDiagram(p, joins, w, a, w', w'.m.phase);
  }

  /** A core that dies fails its session, empties its slot and ends its generation. */
  lemma CrashFailsSession(p: Policy, joins: bool, w: World, a: Action, w': World)
    requires Steps(p, joins, w, a, w') && a.Run? && CoreDied(w.m, w.threads[a.t])
    ensures w'.m == w.m.(phase := ConnectionFailed, slot := None, generation := w.m.generation + 1)
  {
  }

  // What ends a session's generation.
  predicate EndsGeneration(p: Policy, w: World, a: Action) {
    match a
    case CallConnect(_) => true
    case Run(t, o) =>
      && t in w.threads
      && var th := w.threads[t];
         (th.Disconnect? && th.dpc == DBegin) || FinalMiss(p, w.m, th, o) || CoreDied(w.m, th)
    case _ => false
  }

  /** The generation moves by one at a Connect, a Disconnect, a threshold teardown or a crash, and never else. */
  lemma GenerationMoves(p: Policy, joins: bool, w: World, a: Action, w': World)
    requires Steps(p, joins, w, a, w')
    ensures w'.m.generation == w.m.generation + if EndsGeneration(p, w, a) then 1 else 0
  {
  }

  // The attempt of the current session at one of the sections that empty the slot.
  predicate AttemptReleases(m: Manager, th: Thread) {
    && th.Attempt? && Current(m, th)
    && (th.apc.AtClearUnusable? || th.apc.AtFail? || (th.apc.AtClearUnready? && m.slot == Some(th.apc.x)))
  }

  predicate AttemptFills(m: Manager, th: Thread, x: Inst) {
    && th.Attempt? && Current(m, th) && (th.apc == AtPublish(x) || th.apc == AtReady(x))
  }

  /** The slot is filled by the current attempt alone, and emptied only by an end of its candidate or session. */
  lemma SlotMoves(p: Policy, joins: bool, w: World, a: Action, w': World)
    requires Steps(p, joins, w, a, w') && w'.m.slot != w.m.slot
    ensures a.Run? && a.t in w.threads
    ensures var th := w.threads[a.t];
      match w'.m.slot
      case Some(x) => AttemptFills(w.m, th, x)
      case None =>
        || AttemptReleases(w.m, th)
        || (th.Disconnect? && th.dpc == DTake)
        || FinalMiss(p, w.m, th, a.o)
        || CoreDied(w.m, th)
  {
  }

  // ---- The attempt history ----

  // What the current attempt adds to the history: a success after its final phase, a failure
  // wherever it gives up on a candidate.
  function Recorded(m: Manager, th: Thread): seq<AttemptRecord> {
    if !th.Attempt? || !Current(m, th) then []
    else if th.apc.AtRecordOk? then [AttemptRecord(th.candidate, true)]
    else if th.apc.AtRecordFail? || th.apc.AtRecordUnready? then [AttemptRecord(th.candidate, false)]
    else []
  }

  /** The history starts afresh with a session, ends with Shutdown, and otherwise only grows. */
  lemma HistoryMoves(p: Policy, joins: bool, w: World, a: Action, w': World)
    requires Steps(p, joins, w, a, w')
    ensures w'.m.attempts ==
      match a
      case CallConnect(_) => []
      case Run(t, _) =>
        if w.threads[t].Disconnect? && w.threads[t].dpc == DWipe then []
        else w.m.attempts + Recorded(w.m, w.threads[t])
      case _ => w.m.attempts
  {
  }

  // ---- Verification evidence ----

  // A verification result the manager accepts.
  predicate Judges(m: Manager, th: Thread) {
    && Current(m, th)
    && (th.Verify? || (th.Attempt? && th.apc.AtProbe?) || (th.Ticker? && th.tpc == TProbe))
  }

  // The current session's recheck is due, and its ticker reserves the next.
  predicate Reserves(p: Policy, m: Manager, th: Thread, o: Outcome) {
    && th.Ticker? && th.tpc == TCheck && Current(m, th)
    && m.phase == ConnectedVerified && !p.skip
    && m.nextVerifyAt.Some? && m.nextVerifyAt.value <= o.now
  }

  // When the next recheck is due after a step of th.
  function NextDue(p: Policy, m: Manager, th: Thread, o: Outcome): Option<int> {
    if Reserves(p, m, th, o) || (Judges(m, th) && o.ok) then Some(o.now + p.interval)
    else if Judges(m, th) && th.Ticker? && !FinalMiss(p, m, th, o) then Some(o.now + p.grace)
    else m.nextVerifyAt
  }

  /**
    What the manager knows about the route: the last accepted result, the time of the last
    success and the time of the next recheck; a Disconnect forgets all three.
   */
  lemma EvidenceMoves(p: Policy, joins: bool, w: World, a: Action, w': World)
    requires Steps(p, joins, w, a, w') && a.Run?
    ensures var th, o, m, m' := w.threads[a.t], a.o, w.m, w'.m;
      if th.Disconnect? && th.dpc == DTake then
        m'.lastVerify == None && m'.verifiedAt == None && m'.nextVerifyAt == None && m'.verifyFailures == 0
      else
        && m'.lastVerify == (if Judges(m, th) then Some(o.ok) else m.lastVerify)
        && m'.verifiedAt == (if Judges(m, th) && o.ok then Some(o.now) else m.verifiedAt)
        && m'.nextVerifyAt == NextDue(p, m, th, o)
  {
  }

  // ---- Calls and monitors ----

  /** A Connect is accepted exactly while no session is under way and Shutdown was not called. */
  lemma ConnectAccepted(p: Policy, joins: bool, w: World, t: Tid)
    requires t !in w.threads
    ensures Step(p, joins, w, CallConnect(t)).Some? <==>
            !w.m.shutdown && w.m.phase in {Disconnected, Disconnecting, ConnectionFailed}
  {
  }

  /** A verification on demand is accepted exactly while a published core is connected. */
  lemma VerifyAccepted(p: Policy, joins: bool, w: World, t: Tid)
    requires t !in w.threads
    ensures Step(p, joins, w, CallVerify(t)).Some? <==>
            w.m.slot.Some? && w.m.phase in {Connected, Verifying, ConnectedVerified}
  {
  }

  /** The monitor is taken by stopMonitor and set by the installation of a new one, and never else. */
  lemma MonitorMoves(p: Policy, joins: bool, w: World, a: Action, w': World)
    requires Steps(p, joins, w, a, w')
    ensures w'.m.monitor ==
      if !a.Run? then w.m.monitor
      else
        var th := w.threads[a.t];
        if th.Attempt? && th.apc.AtInstall? then Some(w.nextMonitor)
        else if (th.Attempt? && th.apc.AtStopMonitor?) || (th.Disconnect? && th.dpc.DStop?) then None
        else w.m.monitor
  {
  }

  // Only a call of Shutdown sets the mark, and nothing clears it.
  lemma ShutdownMoves(p: Policy, joins: bool, w: World, a: Action, w': World)
    requires Steps(p, joins, w, a, w')
    ensures w'.m.shutdown <==> w.m.shutdown || (a.CallDisconnect? && a.wipe)
  {
  }

  lemma {:induction false} ShutdownLasts(p: Policy, joins: bool, h: Schedule, w: World, acts: seq<Action>)
    requires w.m.shutdown && Exec(p, joins, h, w, acts).Some?
    ensures Exec(p, joins, h, w, acts).value.m.shutdown
    decreases |acts|
  {
    if acts != [] {
      var next := Step(p, joins, w, acts[0]).value;
      ShutdownMoves(p, joins, w, acts[0], next);
      ShutdownLasts(p, joins, h, next, acts[1..]);
    }
  }

  /** After Shutdown was called, no Connect is accepted in any continuation of the run. */
  lemma NoConnectAfterShutdown(p: Policy, joins: bool, h: Schedule, w: World, t: Tid, acts: seq<Action>, t': Tid)
    requires t !in w.threads && Exec(p, joins, h, w, [CallDisconnect(t, true)] + acts).Some?
    ensures Step(p, joins, Exec(p, joins, h, w, [CallDisconnect(t, true)] + acts).value, CallConnect(t')) == None
  {
    var all := [CallDisconnect(t, true)] + acts;
    assert all[0] == CallDisconnect(t, true) && all[1..] == acts;
    ShutdownLasts(p, joins, h, Step(p, joins, w, all[0]).value, acts);
  }

  // ---- Whole runs ----

  // A Disconnect that has finished.
  predicate PastFinish(th: Thread) { th.Disconnect? && (th.dpc == DWipe || th.dpc == DDone) }

  ghost predicate UserDisconnected(w: World) { exists t :: t in w.threads && PastFinish(w.threads[t]) }

  ghost predicate EverConnected(w: World) { exists t :: t in w.threads && w.threads[t].Attempt? }

  ghost predicate Honest(w: World) {
    w.m.phase == Disconnected && EverConnected(w) ==> UserDisconnected(w)
  }

  // A finished Disconnect stays finished.
  lemma FinishLasts(p: Policy, joins: bool, w: World, a: Action, w': World)
    requires Steps(p, joins, w, a, w') && UserDisconnected(w)
    ensures UserDisconnected(w')
  {
    var t :| t in w.threads && PastFinish(w.threads[t]);
    assert t in w'.threads && PastFinish(w'.threads[t]);
  }

  // Without a Connect no attempt begins.
  lemma AttemptsBeginWithConnect(p: Policy, joins: bool, w: World, a: Action, w': World)
    requires Steps(p, joins, w, a, w') && !a.CallConnect? && EverConnected(w')
    ensures EverConnected(w)
  {
    var t :| t in w'.threads && w'.threads[t].Attempt?;
    assert t in w.threads && w.threads[t].Attempt?;
  }

  lemma StepKeepsHonest(p: Policy, joins: bool, w: World, a: Action, w': World)
    requires Steps(p, joins, w, a, w') && Honest(w)
    ensures Honest(w')
  {
    if w'.m.phase == Disconnected && EverConnected(w') {
      if w.m.phase != Disconnected {
        OnlyDisconnectDisconnects(p, joins, w, a, w');
        assert PastFinish(w'.threads[a.t]);
      } else {
        PhaseDiagram(p, joins, w, a, w', Selecting);
        AttemptsBeginWithConnect(p, joins, w, a, w');
        FinishLasts(p, joins, w, a, w');
      }
    }
  }

  lemma {:induction false} RunKeepsHonest(p: Policy, joins: bool, h: Schedule, w: World, acts: seq<Action>)
    requires Honest(w) && Exec(p, joins, h, w, acts).Some?
    ensures Honest(Exec(p, joins, h, w, acts).value)
    decreases |acts|
  {
    if acts != [] {
      var next := Step(p, joins, w, acts[0]);
      StepKeepsHonest(p, joins, w, acts[0], next.value);
      RunKeepsHonest(p, joins, h, next.value, acts[1..]);
    }
  }

  /**
    In every reachable state, whatever the schedule: once a Connect was accepted, the manager
    is `disconnected` only if a Disconnect has finished. A failed or crashed session is never
    reported as the user's own choice.
   */
  lemma DisconnectedMeansAsked(p: Policy, h: Schedule, w: World)
    requires Reachable(p, h, w) && w.m.phase == Disconnected
    requires exists t :: t in w.threads && w.threads[t].Attempt?
    ensures exists t :: t in w.threads && w.threads[t].Disconnect? && w.threads[t].dpc in {DWipe, DDone}
  {
    var acts :| Exec(p, true, h, START, acts) == Some(w);
    RunKeepsHonest(p, true, h, START, acts);
    var t :| t in w.threads && PastFinish(w.threads[t]);
    assert w.threads[t].dpc in {DWipe, DDone};
  }
}
