/**
  Every reachable state accounts for every launched core, and a finished Disconnect
  leaves only closers behind.
 */
module LeakFreedom {
  import opened Prelude
  import opened Session
  import opened Interleaving
  import opened Ownership

  // One thread keeps its place; what it answered for, it still answers for.
  lemma OthersStillHold(w: World, w': World, t: Tid, x: Inst)
    requires Accounted(w, x) && w.closed <= w'.closed
    requires forall s | s in w.threads && s != t :: s in w'.threads && w'.threads[s] == w.threads[s]
    requires w.m.slot == Some(x) ==> Accounted(w', x)
    requires t in w.threads && Holds(w.threads[t], x) ==> Accounted(w', x)
    ensures Accounted(w', x)
  {
    if x !in w.closed && w.m.slot != Some(x) {
      var s :| s in w.threads && Holds(w.threads[s], x);
      if s != t { assert Holds(w'.threads[s], x); }
    }
  }

  // The slot never drops an open instance: whoever empties it takes the instance along.
  lemma SlotHandedOn(p: Policy, w: World, t: Tid, o: Outcome, x: Inst)
    requires Orderly(w) && t in w.threads && Enabled(false, w, w.threads[t], o)
    requires w.m.slot == Some(x)
    ensures var mv := MoveOf(p, w.m, w.threads[t], o);
      mv.m.slot == Some(x) || Holds(mv.th, x) || x in w.closed
  {
    assert ThreadOk(w, w.threads[t]);
  }

  lemma HeldIsResolved(p: Policy, w: World, t: Tid, th: Thread, o: Outcome, x: Inst)
    requires Holds(th, x)
    ensures var mv := MoveOf(p, w.m, th, o);
      mv.m.slot == Some(x) || Holds(mv.th, x) || x in Apply(w, t, mv).closed
  {
  }

  lemma MoveAccounts(p: Policy, w: World, t: Tid, o: Outcome, x: Inst)
    requires Orderly(w) && NoLeak(w) && t in w.threads && Enabled(false, w, w.threads[t], o)
    requires x in Apply(w, t, MoveOf(p, w.m, w.threads[t], o)).started
    ensures Accounted(Apply(w, t, MoveOf(p, w.m, w.threads[t], o)), x)
  {
    var mv := MoveOf(p, w.m, w.threads[t], o);
    var w' := Apply(w, t, mv);
    assert w'.threads[t] == mv.th;
    if x !in w.started {
      assert Holds(w'.threads[t], x);
    } else {
      if w.m.slot == Some(x) { SlotHandedOn(p, w, t, o, x); }
      if Holds(w.threads[t], x) { HeldIsResolved(p, w, t, w.threads[t], o, x); }
      OthersStillHold(w, w', t, x);
    }
  }

  lemma StepKeepsNoLeak(p: Policy, joins: bool, w: World, a: Action, w': World)
    requires Orderly(w) && NoLeak(w)
    requires Allowed(FENCED, w, a) && Step(p, joins, w, a) == Some(w')
    ensures NoLeak(w')
  {
    forall x | x in w'.started ensures Accounted(w', x) {
      if a.Run? && !(w.threads[a.t].Attempt? && w.threads[a.t].apc.AtInstall?) {
        MoveAccounts(p, w, a.t, a.o, x);
      } else {
        OthersStillHold(w, w', a.t, x);
      }
    }
  }

  lemma {:induction false} RunsKeepOrder(p: Policy, joins: bool, w: World, acts: seq<Action>)
    requires Orderly(w) && NoLeak(w) && Exec(p, joins, FENCED, w, acts).Some?
    ensures var w' := Exec(p, joins, FENCED, w, acts).value;
      Orderly(w') && NoLeak(w')
    decreases |acts|
  {
    if acts != [] {
      var next := Step(p, joins, w, acts[0]).value;
      StepKeepsOrder(p, joins, w, acts[0], next);
      StepKeepsNoLeak(p, joins, w, acts[0], next);
      RunsKeepOrder(p, joins, next, acts[1..]);
    }
  }

  /** In every reachable state each launched core is closed, in the slot, or held. */
  lemma NoCoreLeaks(p: Policy, w: World)
    requires Reachable(p, FENCED, w)
    ensures Orderly(w)
    ensures forall x | x in w.started :: Accounted(w, x)
  {
    var acts :| Exec(p, true, FENCED, START, acts) == Some(w);
    RunsKeepOrder(p, true, START, acts);
  }

  /**
    A holder is never blocked, and its next step closes the instance, publishes it into
    the session it belongs to, or (when that session is over) turns to closing it.
   */
  lemma HoldersClose(p: Policy, w: World, t: Tid, o: Outcome, x: Inst)
    requires t in w.threads && Holds(w.threads[t], x)
    ensures Step(p, true, w, Run(t, o)).Some?
    ensures var w' := Step(p, true, w, Run(t, o)).value;
      || x in w'.closed
      || (!Superseded(w.m, w.threads[t]) && w'.m.slot == Some(x))
      || (Superseded(w.m, w.threads[t]) && w'.m == w.m && w'.threads[t].Attempt?
          && w'.threads[t].apc == AtCloseStale(x))
  {
  }

  // ---- Monitors are either registered or being waited for ----

  function MonitorOf(th: Thread): Option<MonitorId> {
    match th
    case Ticker(h, _, _) => Some(h)
    case Watcher(h, _, _, _) => Some(h)
    case _ => None
  }

  ghost predicate Watched(w: World, h: Option<MonitorId>) {
    w.m.monitor == h || exists s :: s in w.threads && Joins(w.threads[s]) == h
  }

  // Points after stopMonitor took the handle: nobody can have registered a new one.
  predicate StoppedMonitor(m: Manager, th: Thread) {
    || (th.Disconnect? && (th.dpc.DJoin? || th.dpc.DTake? || th.dpc.DClose? || th.dpc.DFinish?))
    || (LiveAttempt(m, th) && (th.apc.AtJoinMonitor? || th.apc.AtInstall?))
  }

  ghost predicate MonitorsOk(w: World) {
    && (forall t | t in w.threads ::
          MonitorOf(w.threads[t]).Some? && !Finished(w.threads[t]) ==> Watched(w, MonitorOf(w.threads[t])))
    && (forall t | t in w.threads :: StoppedMonitor(w.m, w.threads[t]) ==> w.m.monitor == None)
  }

  lemma MonitorFields(p: Policy, m: Manager, th: Thread, o: Outcome)
    requires !Finished(th)
    ensures var mv := MoveOf(p, m, th, o);
      && MonitorOf(mv.th) == MonitorOf(th)
      && (mv.m.monitor != m.monitor ==> mv.m.monitor == None && Joins(mv.th) == m.monitor)
      && (Joins(th).Some? ==> MonitorOf(th).None?)
      && (StoppedMonitor(mv.m, mv.th) ==> StoppedMonitor(m, th) || mv.m.monitor == None)
      && m.generation <= mv.m.generation
  {
  }

  lemma MoveKeepsMonitors(p: Policy, w: World, t: Tid, o: Outcome)
    requires Orderly(w) && MonitorsOk(w) && t in w.threads && Enabled(true, w, w.threads[t], o)
    requires !(w.threads[t].Attempt? && w.threads[t].apc.AtInstall?)
    ensures MonitorsOk(Apply(w, t, MoveOf(p, w.m, w.threads[t], o)))
  {
    var th := w.threads[t];
    var mv := MoveOf(p, w.m, th, o);
    var w' := Apply(w, t, mv);
    MonitorFields(p, w.m, th, o);
    forall s | s in w'.threads && MonitorOf(w'.threads[s]).Some? && !Finished(w'.threads[s])
      ensures Watched(w', MonitorOf(w'.threads[s]))
    {
      var h := MonitorOf(w'.threads[s]);
      assert Watched(w, h);
      if w.m.monitor == h {
        if mv.m.monitor != h { assert Joins(w'.threads[t]) == h; }
      } else {
        var j :| j in w.threads && Joins(w.threads[j]) == h;
        assert Joins(w'.threads[j]) == h;
      }
    }
  }

  lemma StepKeepsMonitors(p: Policy, w: World, a: Action, w': World)
    requires Orderly(w) && MonitorsOk(w)
    requires Allowed(FENCED, w, a) && Step(p, true, w, a) == Some(w')
    ensures MonitorsOk(w')
  {
    if a.Run? && !(w.threads[a.t].Attempt? && w.threads[a.t].apc.AtInstall?) {
      MoveKeepsMonitors(p, w, a.t, a.o);
    } else {
      forall s | s in w'.threads && MonitorOf(w'.threads[s]).Some? && !Finished(w'.threads[s])
        ensures Watched(w', MonitorOf(w'.threads[s]))
      {
        if s in w.threads {
          var h := MonitorOf(w.threads[s]);
          assert Watched(w, h);
          if w.m.monitor != h {
            var j :| j in w.threads && Joins(w.threads[j]) == h;
            assert Joins(w'.threads[j]) == h;
          }
        }
      }
      if a.Run? {
        forall s | s in w'.threads ensures !StoppedMonitor(w'.m, w'.threads[s]) {
          assert Owner(w.m, w.threads[a.t]);
        }
      }
    }
  }

  lemma {:induction false} RunsKeepMonitors(p: Policy, w: World, acts: seq<Action>)
    requires Orderly(w) && MonitorsOk(w) && Exec(p, true, FENCED, w, acts).Some?
    ensures MonitorsOk(Exec(p, true, FENCED, w, acts).value)
    decreases |acts|
  {
    if acts != [] {
      var next := Step(p, true, w, acts[0]).value;
      StepKeepsOrder(p, true, w, acts[0], next);
      StepKeepsMonitors(p, w, acts[0], next);
      RunsKeepMonitors(p, next, acts[1..]);
    }
  }

  // A closer that can outlive a finished Disconnect.
  ghost predicate LateCloser(w: World, s: Tid, x: Inst) {
    && s in w.threads && Holds(w.threads[s], x)
    && match w.threads[s]
       case Attempt(_, _, _, _) => Superseded(w.m, w.threads[s])
       case Disconnect(_, _) => true
       case _ => exists j :: j in w.threads && Joins(w.threads[j]) == MonitorOf(w.threads[s])
                   && (w.threads[j].Disconnect? || Superseded(w.m, w.threads[j]))
  }

  /**
    When a Disconnect finishes, the slot is empty and nobody owns a session. A core not
    yet closed is held by a superseded attempt, by another Disconnect, or by a monitor of
    an ended session that such a caller is still waiting for; by HoldersClose each of
    them can only close it.
   */
  lemma FinishedDisconnect(p: Policy, w: World, t: Tid, o: Outcome, w': World)
    requires Reachable(p, FENCED, w)
    requires t in w.threads && w.threads[t].Disconnect? && w.threads[t].dpc.DFinish?
    requires Step(p, true, w, Run(t, o)) == Some(w')
    ensures w'.m.slot == None && w'.m.phase == Disconnected
    ensures forall s | s in w'.threads :: !Owner(w'.m, w'.threads[s])
    ensures forall x | x in w'.started && x !in w'.closed :: exists s :: LateCloser(w', s, x)
  {
    var acts :| Exec(p, true, FENCED, START, acts) == Some(w);
    RunsKeepOrder(p, true, START, acts);
    RunsKeepMonitors(p, START, acts);
    assert ThreadOk(w, w.threads[t]);
    StepKeepsNoLeak(p, true, w, Run(t, o), w');
    StepKeepsMonitors(p, w, Run(t, o), w');
    assert StoppedMonitor(w.m, w.threads[t]) && MidDisconnect(w.threads[t]);
    forall s | s in w'.threads ensures !Owner(w'.m, w'.threads[s]) {
      if s != t { assert !Owner(w.m, w.threads[s]); }
    }
    forall x | x in w'.started && x !in w'.closed ensures exists s :: LateCloser(w', s, x) {
      assert Accounted(w', x);
      var s :| s in w'.threads && Holds(w'.threads[s], x);
      assert LateCloser(w', s, x) by {
        if MonitorOf(w'.threads[s]).Some? {
          assert Watched(w', MonitorOf(w'.threads[s]));
          var j :| j in w'.threads && Joins(w'.threads[j]) == MonitorOf(w'.threads[s]);
          assert !Owner(w'.m, w'.threads[j]);
        }
      }
    }
  }

  // A superseded attempt waits in stopMonitor for a monitor of an ended session.
  ghost predicate LateJoin(w: World, j: Tid) {
    && j in w.threads && w.threads[j].Attempt?
    && w.threads[j].apc.AtJoinMonitor? && Superseded(w.m, w.threads[j])
  }

  // Nobody but superseded attempts can still be closing.
  ghost predicate Undisturbed(w: World) {
    !DisconnectUnderWay(w) && forall j :: !LateJoin(w, j)
  }

  lemma LateCloserIsDisturbance(w: World, s: Tid, x: Inst)
    requires LateCloser(w, s, x) && !w.threads[s].Attempt?
    ensures DisconnectUnderWay(w) || exists j :: LateJoin(w, j)
  {
    if w.threads[s].Disconnect? {
      assert MidDisconnect(w.threads[s]);
    } else {
      var j :| j in w.threads && Joins(w.threads[j]) == MonitorOf(w.threads[s])
               && (w.threads[j].Disconnect? || Superseded(w.m, w.threads[j]));
      assert MidDisconnect(w.threads[j]) || LateJoin(w, j);
    }
  }

  /**
    Disconnect's own promise, and when it holds: with no other Disconnect under way and no
    superseded attempt in stopMonitor, every core still open after a finished Disconnect is
    held by a superseded attempt.
   */
  lemma UndisturbedDisconnect(p: Policy, w: World, t: Tid, o: Outcome, w': World, x: Inst)
    requires Reachable(p, FENCED, w)
    requires t in w.threads && w.threads[t].Disconnect? && w.threads[t].dpc.DFinish?
    requires Step(p, true, w, Run(t, o)) == Some(w') && Undisturbed(w')
    requires x in w'.started && x !in w'.closed
    ensures exists s :: LateCloser(w', s, x) && w'.threads[s].Attempt?
  {
    FinishedDisconnect(p, w, t, o, w');
    var s :| LateCloser(w', s, x);
    if !w'.threads[s].Attempt? { LateCloserIsDisturbance(w', s, x); }
  }
}
