/**
  No core process is ever lost: under schedules A2 and A3 every instance that
  backend.Start returned is closed, sits in the manager's slot, or is held by a thread
  that must close or publish it.
 */
module Ownership {
  import opened Prelude
  import opened Session
  import opened Interleaving

  // The instance a Connect call mentions at its current point.
  function Mentions(pc: AttemptPc): Option<Inst> {
    match pc
    case AtPublish(x) => Some(x)
    case AtWaitReady(x) => Some(x)
    case AtRecordUnready(x) => Some(x)
    case AtCloseUnready(x) => Some(x)
    case AtClearUnready(x) => Some(x)
    case AtReady(x) => Some(x)
    case AtBeginVerify(x) => Some(x)
    case AtProbe(x) => Some(x)
    case AtCloseUnusable(x) => Some(x)
    case AtClearUnusable(x) => Some(x)
    case AtCloseStale(x) => Some(x)
    case AtFinal(x) => Some(x)
    case _ => None
  }

  // The attempt has published its instance and not yet withdrawn it.
  predicate Published(pc: AttemptPc) {
    Mentions(pc).Some? && !pc.AtPublish? && !pc.AtCloseStale?
  }

  // The attempt has won; only its record and its monitor are still to come.
  predicate Won(pc: AttemptPc) {
    pc.AtRecordOk? || pc.AtStopMonitor? || pc.AtJoinMonitor? || pc.AtInstall?
  }

  predicate LiveAttempt(m: Manager, th: Thread) {
    th.Attempt? && th.gen == m.generation && !th.apc.AtDone?
  }

  predicate LiveMonitor(m: Manager, th: Thread) {
    || (th.Ticker? && th.gen == m.generation && (th.tpc.TIdle? || th.tpc.TCheck? || th.tpc.TProbe?))
    || (th.Watcher? && th.gen == m.generation && (th.wpc.WWait? || th.wpc.WCrash?))
  }

  // The threads that act for the current session.
  predicate Owner(m: Manager, th: Thread) {
    LiveAttempt(m, th) || LiveMonitor(m, th)
  }

  ghost predicate LiveOk(w: World, pc: AttemptPc) {
    && w.m.phase.Active()
    && !pc.AtCloseStale?
    && (if Published(pc) then w.m.slot == Mentions(pc)
        else if Won(pc) then w.m.slot.Some? && w.m.phase.ConnectedLike()
        else w.m.slot == None)
    && (Won(pc) || pc.AtFinal? || pc.AtProbe? || pc.AtBeginVerify? ==> w.m.phase.ConnectedLike())
    && (pc.AtClearUnready? || pc.AtClearUnusable? ==> w.m.slot.value in w.closed)
  }

  ghost predicate Launched(w: World, x: Option<Inst>, gen: nat) {
    x.Some? ==> x.value in w.started && w.started[x.value] == gen
  }

  // What holds of one thread, whatever the others do.
  ghost predicate ThreadOk(w: World, th: Thread) {
    match th
    case Attempt(g, _, _, pc) =>
      && g <= w.m.generation
      && Launched(w, Mentions(pc), g)
      && (LiveAttempt(w.m, th) ==> LiveOk(w, pc))
    case Disconnect(_, pc) =>
      && (pc.DClose? || pc.DFinish? ==> w.m.slot == None)
      && (pc.DClose? && pc.x.Some? ==> pc.x.value in w.started)
    case Verify(g, _) => g <= w.m.generation
    case Ticker(h, g, pc) =>
      && g <= w.m.generation
      && h < w.nextMonitor
      && (pc.TClose? || pc.TTail? ==> g < w.m.generation)
      && (pc.TClose? ==> Launched(w, pc.x, g))
      && (LiveMonitor(w.m, th) ==> w.m.slot.Some? && w.m.phase.ConnectedLike())
    case Watcher(h, g, x, pc) =>
      && g <= w.m.generation
      && h < w.nextMonitor
      && Launched(w, Some(x), g)
      && (pc.WClose? ==> g < w.m.generation)
      && (LiveMonitor(w.m, th) ==> w.m.slot == Some(x) && w.m.phase.ConnectedLike())
  }

  // While an attempt works it is alone, and no session has an owner mid-Disconnect.
  ghost predicate Exclusive(w: World) {
    && (forall t1, t2 | t1 in w.threads && t2 in w.threads ::
          LiveAttempt(w.m, w.threads[t1]) && Owner(w.m, w.threads[t2]) ==> t1 == t2)
    && (forall t1, t2 | t1 in w.threads && t2 in w.threads ::
          MidDisconnect(w.threads[t1]) ==> !Owner(w.m, w.threads[t2]))
  }

  ghost predicate SlotOk(w: World) {
    && (!w.m.phase.Active() ==> w.m.slot == None)
    && (w.m.slot.Some? ==> w.m.slot.value in w.started)
    && (w.m.slot.Some? && !DisconnectUnderWay(w) ==> w.started[w.m.slot.value] == w.m.generation)
    && (forall x | x in w.closed :: x in w.started)
  }

  // The thread alone answers for x: nothing else will close it.
  predicate Holds(th: Thread, x: Inst) {
    match th
    case Attempt(_, _, _, pc) => pc == AtPublish(x) || pc == AtCloseStale(x)
    case Disconnect(_, pc) => pc == DClose(Some(x))
    case Ticker(_, _, pc) => pc == TClose(Some(x))
    case Watcher(_, _, y, pc) => pc == WClose && y == x
    case Verify(_, _) => false
  }

  ghost predicate Accounted(w: World, x: Inst) {
    || x in w.closed
    || w.m.slot == Some(x)
    || exists t :: t in w.threads && Holds(w.threads[t], x)
  }

  ghost predicate NoLeak(w: World) {
    forall x | x in w.started :: Accounted(w, x)
  }

  ghost predicate Orderly(w: World) {
    && (forall t | t in w.threads :: ThreadOk(w, w.threads[t]))
    && Exclusive(w)
    && SlotOk(w)
  }

  // A2 and A3.
  const FENCED := Schedule(false, true, true, false)

  // ---- Four shapes of step, one lemma each ----

  // Instances are only ever added, and only launched ones are closed.
  ghost predicate Grows(w: World, w': World) {
    && (forall x | x in w.started :: x in w'.started && w'.started[x] == w.started[x])
    && w.closed <= w'.closed
    && (forall x | x in w'.closed :: x in w'.started)
    && w.nextMonitor <= w'.nextMonitor
  }

  // The session is untouched, except that the phase may have become Verifying.
  lemma QuietStep(w: World, w': World, t: Tid, th': Thread)
    requires Orderly(w) && t in w.threads && Grows(w, w')
    requires w'.threads == w.threads[t := th']
    requires w'.m.slot == w.m.slot && w'.m.generation == w.m.generation
    requires w'.m.phase == w.m.phase || w'.m.phase == Verifying
    requires ThreadOk(w', th')
    requires LiveAttempt(w'.m, th') ==> LiveAttempt(w.m, w.threads[t])
    requires LiveMonitor(w'.m, th') ==> LiveMonitor(w.m, w.threads[t])
    requires MidDisconnect(th') == MidDisconnect(w.threads[t])
    ensures Orderly(w')
  {
    forall s | s in w'.threads ensures ThreadOk(w', w'.threads[s]) {
      if s != t { assert ThreadOk(w, w.threads[s]); }
    }
    forall t1 | t1 in w.threads && MidDisconnect(w.threads[t1]) ensures DisconnectUnderWay(w') {
      assert t1 in w'.threads && MidDisconnect(w'.threads[t1]);
    }
  }

  // The one live attempt writes the session it owns.
  lemma LiveStep(w: World, w': World, t: Tid, th': Thread)
    requires Orderly(w) && t in w.threads && Grows(w, w')
    requires LiveAttempt(w.m, w.threads[t])
    requires w'.threads == w.threads[t := th'] && w'.m.generation == w.m.generation
    requires ThreadOk(w', th') && th'.Attempt? && th'.gen == w.m.generation
    requires !w'.m.phase.Active() ==> w'.m.slot == None
    requires w'.m.slot.Some? ==> Launched(w', w'.m.slot, w'.m.generation)
    ensures Orderly(w')
  {
    forall s | s in w'.threads ensures ThreadOk(w', w'.threads[s]) {
      if s != t {
        assert ThreadOk(w, w.threads[s]);
        assert !Owner(w.m, w.threads[s]) && !MidDisconnect(w.threads[s]);
      }
    }
  }

  // The generation moves on: every earlier thread loses its session.
  lemma BoundaryStep(w: World, w': World, t: Tid, th': Thread)
    requires Orderly(w) && Grows(w, w')
    requires w'.threads == w.threads[t := th'] && w'.m.generation > w.m.generation
    requires w'.m.slot == None || (w'.m.slot == w.m.slot && MidDisconnect(th'))
    requires w'.m.phase.Active() || w'.m.slot == None
    requires ThreadOk(w', th') && !LiveMonitor(w'.m, th')
    requires LiveAttempt(w'.m, th') ==> !DisconnectUnderWay(w)
    ensures Orderly(w')
  {
    forall s | s in w'.threads ensures ThreadOk(w', w'.threads[s]) {
      if s != t { assert ThreadOk(w, w.threads[s]); }
    }
    forall s | s in w'.threads && s != t ensures !Owner(w'.m, w'.threads[s]) {
      assert ThreadOk(w, w.threads[s]);
    }
    assert MidDisconnect(th') ==> DisconnectUnderWay(w') by {
      if MidDisconnect(th') { assert t in w'.threads && MidDisconnect(w'.threads[t]); }
    }
  }

  // A Disconnect, Shutdown or VerifyConnected caller arrives.
  lemma SpawnStep(w: World, w': World, t: Tid, th': Thread)
    requires Orderly(w) && t !in w.threads && Grows(w, w')
    requires w'.threads == w.threads[t := th']
    requires w'.m.slot == w.m.slot && w'.m.generation == w.m.generation && w'.m.phase == w.m.phase
    requires ThreadOk(w', th') && (th'.Verify? || (th'.Disconnect? && th'.dpc.DBegin?))
    ensures Orderly(w')
  {
    forall s | s in w'.threads ensures ThreadOk(w', w'.threads[s]) {
      if s != t { assert ThreadOk(w, w.threads[s]); }
    }
    forall t1 | t1 in w.threads && MidDisconnect(w.threads[t1]) ensures DisconnectUnderWay(w') {
      assert t1 in w'.threads && MidDisconnect(w'.threads[t1]);
    }
  }

  // Nobody owns the session and the slot is or becomes empty.
  lemma VacantStep(w: World, w': World, t: Tid, th': Thread)
    requires Orderly(w) && t in w.threads && Grows(w, w')
    requires forall s | s in w.threads :: !Owner(w.m, w.threads[s])
    requires w'.threads == w.threads[t := th'] && w'.m.generation == w.m.generation
    requires w'.m.slot == None
    requires ThreadOk(w', th') && !Owner(w'.m, th')
    ensures Orderly(w')
  {
    forall s | s in w'.threads ensures ThreadOk(w', w'.threads[s]) {
      if s != t { assert ThreadOk(w, w.threads[s]); }
    }
  }

  lemma InstallKeepsOrder(w: World, t: Tid, o: Outcome)
    requires Orderly(w) && t in w.threads
    requires LiveAttempt(w.m, w.threads[t]) && w.threads[t].apc.AtInstall?
    requires o.t1 !in w.threads && o.t2 !in w.threads && o.t1 != o.t2
    ensures Orderly(Install(w, t, w.threads[t], o.t1, o.t2))
  {
    var th := w.threads[t];
    var w' := Install(w, t, th, o.t1, o.t2);
    assert ThreadOk(w, th);
    assert !DisconnectUnderWay(w);
    forall s | s in w'.threads ensures ThreadOk(w', w'.threads[s]) && !LiveAttempt(w'.m, w'.threads[s])
      && !MidDisconnect(w'.threads[s])
    {
      if s in w.threads {
        assert ThreadOk(w, w.threads[s]);
        assert MidDisconnect(w.threads[s]) ==> !Owner(w.m, th);
      }
    }
  }

  // What a move of the live attempt leaves behind, read off the thread alone.
  ghost predicate LiveMoveOk(w: World, t: Tid, mv: Move) {
    var w' := Apply(w, t, mv);
    && ThreadOk(w', mv.th)
    && (!mv.m.phase.Active() ==> mv.m.slot == None)
    && (mv.m.slot != w.m.slot ==> Launched(w', mv.m.slot, mv.m.generation))
  }

  predicate BeforePublish(pc: AttemptPc) {
    pc.AtSelect? || pc.AtPrepare? || pc.AtPrecheck? || pc.AtLaunch? || pc.AtStart? || pc.AtPublish?
  }

  lemma EarlyMove(p: Policy, w: World, t: Tid, th: Thread, o: Outcome)
    requires LiveAttempt(w.m, th) && BeforePublish(th.apc)
    requires ThreadOk(w, th) && Enabled(false, w, th, o)
    ensures LiveMoveOk(w, t, MoveAttempt(p, w.m, th, o))
  {
  }

  // The points at which a published instance is withdrawn.
  predicate Withdrawing(pc: AttemptPc) {
    pc.AtRecordUnready? || pc.AtCloseUnready? || pc.AtClearUnready? || pc.AtCloseUnusable? || pc.AtClearUnusable?
  }

  lemma WithdrawingMove(p: Policy, w: World, t: Tid, th: Thread, o: Outcome)
    requires LiveAttempt(w.m, th) && Withdrawing(th.apc)
    requires ThreadOk(w, th) && Enabled(false, w, th, o)
    ensures LiveMoveOk(w, t, MoveAttempt(p, w.m, th, o))
  {
  }

  lemma PublishedMove(p: Policy, w: World, t: Tid, th: Thread, o: Outcome)
    requires LiveAttempt(w.m, th) && Published(th.apc) && !Withdrawing(th.apc)
    requires ThreadOk(w, th) && Enabled(false, w, th, o)
    ensures LiveMoveOk(w, t, MoveAttempt(p, w.m, th, o))
  {
  }

  lemma LiveMove(p: Policy, w: World, t: Tid, th: Thread, o: Outcome)
    requires LiveAttempt(w.m, th) && !th.apc.AtInstall?
    requires ThreadOk(w, th) && Enabled(false, w, th, o)
    ensures LiveMoveOk(w, t, MoveAttempt(p, w.m, th, o))
  {
    if BeforePublish(th.apc) {
      EarlyMove(p, w, t, th, o);
    } else if Withdrawing(th.apc) {
      WithdrawingMove(p, w, t, th, o);
    } else if Published(th.apc) {
      PublishedMove(p, w, t, th, o);
    }
  }

  lemma StaleMove(p: Policy, w: World, t: Tid, o: Outcome)
    requires t in w.threads && w.threads[t].Attempt? && !LiveAttempt(w.m, w.threads[t])
    requires ThreadOk(w, w.threads[t]) && Enabled(false, w, w.threads[t], o)
    ensures var w' := Apply(w, t, MoveAttempt(p, w.m, w.threads[t], o));
      && ThreadOk(w', w'.threads[t])
      && w'.m.slot == w.m.slot
      && (w'.m.phase == w.m.phase || w'.m.phase == Verifying)
  {
  }

  // ---- Each kind of thread keeps the order ----

  lemma AttemptKeepsOrder(p: Policy, w: World, t: Tid, o: Outcome)
    requires Orderly(w) && t in w.threads && w.threads[t].Attempt?
    requires Allowed(FENCED, w, Run(t, o)) && Enabled(false, w, w.threads[t], o)
    requires !w.threads[t].apc.AtInstall?
    ensures Orderly(Apply(w, t, MoveAttempt(p, w.m, w.threads[t], o)))
  {
    var th := w.threads[t];
    var mv := MoveAttempt(p, w.m, th, o);
    var w' := Apply(w, t, mv);
    assert ThreadOk(w, th);
    if LiveAttempt(w.m, th) {
      LiveMove(p, w, t, th, o);
      assert !DisconnectUnderWay(w);
      LiveStep(w, w', t, mv.th);
    } else {
      StaleMove(p, w, t, o);
      QuietStep(w, w', t, mv.th);
    }
  }

  lemma DisconnectKeepsOrder(w: World, t: Tid)
    requires Orderly(w) && t in w.threads && w.threads[t].Disconnect? && !Finished(w.threads[t])
    ensures Orderly(Apply(w, t, MoveDisconnect(w.m, w.threads[t])))
  {
    var th := w.threads[t];
    var mv := MoveDisconnect(w.m, th);
    var w' := Apply(w, t, mv);
    assert ThreadOk(w, th);
    if th.dpc.DBegin? {
      BoundaryStep(w, w', t, mv.th);
    } else if th.dpc.DTake? || th.dpc.DFinish? {
      VacantStep(w, w', t, mv.th);
    } else {
      QuietStep(w, w', t, mv.th);
    }
  }

  lemma MonitorKeepsOrder(p: Policy, w: World, t: Tid, o: Outcome)
    requires Orderly(w) && t in w.threads && !Finished(w.threads[t])
    requires w.threads[t].Ticker? || w.threads[t].Watcher?
    ensures Orderly(Apply(w, t, MoveOf(p, w.m, w.threads[t], o)))
  {
    var th := w.threads[t];
    var mv := MoveOf(p, w.m, th, o);
    var w' := Apply(w, t, mv);
    assert ThreadOk(w, th);
    if mv.m.generation > w.m.generation {
      BoundaryStep(w, w', t, mv.th);
    } else if th.Ticker? && th.tpc.TTail? && w.m.phase == Disconnecting {
      forall s | s in w.threads ensures !Owner(w.m, w.threads[s]) {
        assert ThreadOk(w, w.threads[s]);
      }
      VacantStep(w, w', t, mv.th);
    } else {
      QuietStep(w, w', t, mv.th);
    }
  }

  lemma StepKeepsOrder(p: Policy, joins: bool, w: World, a: Action, w': World)
    requires Orderly(w) && Allowed(FENCED, w, a) && Step(p, joins, w, a) == Some(w')
    ensures Orderly(w')
  {
    match a
    case CallConnect(t) => BoundaryStep(w, w', t, w'.threads[t]);
    case CallDisconnect(t, wipe) => SpawnStep(w, w', t, w'.threads[t]);
    case CallVerify(t) => SpawnStep(w, w', t, w'.threads[t]);
    case Run(t, o) =>
      assert ThreadOk(w, w.threads[t]);
      match w.threads[t]
      case Attempt(_, _, _, pc) =>
        if pc.AtInstall? { InstallKeepsOrder(w, t, o); } else { AttemptKeepsOrder(p, w, t, o); }
      case Disconnect(_, _) => DisconnectKeepsOrder(w, t);
      case Verify(_, _) => QuietStep(w, w', t, w'.threads[t]);
      case _ => MonitorKeepsOrder(p, w, t, o);
  }
}
