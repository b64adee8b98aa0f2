/**
  Why the schedule hypotheses are there: runs of the manager as written that break the
  promises of modules LeakFreedom, VerifiedState and NonInterference as soon as one is
  dropped, and runs that show what a finished Disconnect does not guarantee.
 */
module Races {
  import opened Prelude
  import opened Session
  import opened Interleaving
  import opened Ownership
  import opened LeakFreedom

  const SHIPPED := Policy(false, 3, 30_000, 8_000)

  function Going(x: Inst): Outcome { Outcome(true, 1, x, 0, 0, 0) }

  const STOPPING := Outcome(false, 0, 0, 0, 0, 0)

  lemma {:induction false} ExecSnoc(p: Policy, h: Schedule, w: World, acts: seq<Action>, a: Action)
    requires Exec(p, true, h, w, acts).Some?
    requires Allowed(h, Exec(p, true, h, w, acts).value, a)
    ensures Exec(p, true, h, w, acts + [a]) == Step(p, true, Exec(p, true, h, w, acts).value, a)
    decreases |acts|
  {
    if acts == [] {
      assert [] + [a] == [a];
    } else {
      assert (acts + [a])[0] == acts[0] && (acts + [a])[1..] == acts[1..] + [a];
      ExecSnoc(p, h, Step(p, true, w, acts[0]).value, acts[1..], a);
    }
  }

  lemma OneMore(h: Schedule, w: World, a: Action, w': World)
    requires Reachable(SHIPPED, h, w) && Allowed(h, w, a) && Step(SHIPPED, true, w, a) == Some(w')
    ensures Reachable(SHIPPED, h, w')
  {
    var acts :| Exec(SHIPPED, true, h, START, acts) == Some(w);
    ExecSnoc(SHIPPED, h, START, acts, a);
    assert Exec(SHIPPED, true, h, START, acts + [a]) == Some(w');
  }

  // w is reachable and is the world v.
  ghost predicate Reached(h: Schedule, w: World, v: World) { w == v && Reachable(SHIPPED, h, w) }

  // A reachable world with these threads, slot, generation and instances.
  ghost predicate Scene(h: Schedule, w: World, threads: map<Tid, Thread>, slot: Option<Inst>, gen: nat,
                        started: map<Inst, nat>, closed: set<Inst>)
  {
    && Reachable(SHIPPED, h, w)
    && w.threads == threads && w.m.slot == slot && w.m.generation == gen
    && w.started == started && w.closed == closed
  }

  predicate Unmonitored(w: World) { !w.m.shutdown && w.m.monitor == None && w.nextMonitor == 0 }

  // One step of a thread that waits for nobody.
  lemma Moves(h: Schedule, w: World, t: Tid, o: Outcome) returns (w': World)
    requires Reachable(SHIPPED, h, w) && t in w.threads && Allowed(h, w, Run(t, o))
    requires Enabled(true, w, w.threads[t], o)
    requires !(w.threads[t].Attempt? && w.threads[t].apc.AtInstall?)
    ensures Reached(h, w', Apply(w, t, MoveOf(SHIPPED, w.m, w.threads[t], o)))
  {
    w' := Apply(w, t, MoveOf(SHIPPED, w.m, w.threads[t], o));
    OneMore(h, w, Run(t, o), w');
  }

  ghost predicate Stands(w: World, t: Tid, pc: AttemptPc) {
    t in w.threads && w.threads[t].Attempt? && w.threads[t].gen == w.m.generation && w.threads[t].apc == pc
  }

  // One step of the current attempt, when it neither joins nor installs a monitor.
  lemma Advances(h: Schedule, w: World, t: Tid, pc: AttemptPc, o: Outcome) returns (w': World)
    requires Reachable(SHIPPED, h, w) && Stands(w, t, pc)
    requires !pc.AtDone? && !pc.AtJoinMonitor? && !pc.AtInstall? && !(pc.AtStart? && o.inst in w.started)
    ensures Reached(h, w', Apply(w, t, MoveAttempt(SHIPPED, w.m, w.threads[t], o)))
  {
    w' := Moves(h, w, t, o);
  }

  // The live attempt goes from preparation to a published instance x.
  lemma Prepares(h: Schedule, w: World, t: Tid) returns (w': World)
    requires Reachable(SHIPPED, h, w) && Stands(w, t, AtPrepare)
    ensures Reached(h, w', w.(m := w.m.(phase := StartingCore),
                              threads := w.threads[t := w.threads[t].(apc := AtStart)]))
  {
    var w1 := Advances(h, w, t, AtPrepare, Going(0));
    var w2 := Advances(h, w1, t, AtPrecheck, Going(0));
    w' := Advances(h, w2, t, AtLaunch, Going(0));
    assert w'.threads == w.threads[t := w.threads[t].(apc := AtStart)];
  }

  lemma Publishes(h: Schedule, w: World, t: Tid, x: Inst) returns (w': World)
    requires Reachable(SHIPPED, h, w) && Stands(w, t, AtStart) && x !in w.started
    ensures Reached(h, w', w.(m := w.m.(phase := WaitingForReady, slot := Some(x)),
                              threads := w.threads[t := w.threads[t].(apc := AtWaitReady(x))],
                              started := w.started[x := w.m.generation]))
  {
    var w1 := Advances(h, w, t, AtStart, Going(x));
    w' := Advances(h, w1, t, AtPublish(x), Going(x));
    assert w'.threads == w.threads[t := w.threads[t].(apc := AtWaitReady(x))];
  }

  lemma Launches(h: Schedule, w: World, t: Tid, x: Inst) returns (w': World)
    requires Reachable(SHIPPED, h, w) && Stands(w, t, AtPrepare) && x !in w.started
    ensures Reached(h, w', w.(m := w.m.(phase := WaitingForReady, slot := Some(x)),
                              threads := w.threads[t := w.threads[t].(apc := AtWaitReady(x))],
                              started := w.started[x := w.m.generation]))
  {
    var w1 := Prepares(h, w, t);
    w' := Publishes(h, w1, t, x);
    assert w'.threads == w.threads[t := w.threads[t].(apc := AtWaitReady(x))];
  }

  lemma BecomesReady(h: Schedule, w: World, t: Tid, x: Inst) returns (w': World)
    requires Reachable(SHIPPED, h, w) && Stands(w, t, AtWaitReady(x))
    ensures Reached(h, w', w.(m := w.m.(phase := Connected, slot := Some(x)),
                              threads := w.threads[t := w.threads[t].(apc := AtBeginVerify(x))]))
  {
    var w1 := Advances(h, w, t, AtWaitReady(x), Going(x));
    w' := Advances(h, w1, t, AtReady(x), Going(x));
    assert w'.threads == w.threads[t := w.threads[t].(apc := AtBeginVerify(x))];
  }

  // The same world up to attempt records and verification evidence.
  ghost predicate SameResources(w: World, w': World) {
    && w'.m.slot == w.m.slot && w'.m.generation == w.m.generation
    && w'.m.monitor == w.m.monitor && w'.m.shutdown == w.m.shutdown
    && w'.started == w.started && w'.closed == w.closed && w'.nextMonitor == w.nextMonitor
  }

  // The attempt reached pc and only such evidence changed.
  ghost predicate Progressed(h: Schedule, w: World, w': World, t: Tid, pc: AttemptPc) {
    && Reachable(SHIPPED, h, w') && SameResources(w, w') && Stands(w', t, pc)
    && t in w.threads && w.threads[t].Attempt? && w'.threads == w.threads[t := w.threads[t].(apc := pc)]
  }

  lemma Proves(h: Schedule, w: World, t: Tid, x: Inst) returns (w': World)
    requires Reachable(SHIPPED, h, w) && Stands(w, t, AtBeginVerify(x))
    ensures Progressed(h, w, w', t, AtFinal(x)) && w'.m.nextVerifyAt.Some?
  {
    var w1 := Advances(h, w, t, AtBeginVerify(x), Going(x));
    w' := Advances(h, w1, t, AtProbe(x), Going(x));
    assert w'.threads == w.threads[t := w.threads[t].(apc := AtFinal(x))];
  }

  lemma Wins(h: Schedule, w: World, t: Tid, x: Inst) returns (w': World)
    requires Reachable(SHIPPED, h, w) && Stands(w, t, AtBeginVerify(x))
    ensures Progressed(h, w, w', t, AtRecordOk) && w'.m.phase == ConnectedVerified && w'.m.nextVerifyAt.Some?
  {
    var w1 := Proves(h, w, t, x);
    w' := Settles(h, w1, t, x);
    assert w'.threads == w.threads[t := w.threads[t].(apc := AtRecordOk)];
  }

  lemma Settles(h: Schedule, w: World, t: Tid, x: Inst) returns (w': World)
    requires Reachable(SHIPPED, h, w) && Stands(w, t, AtFinal(x))
    ensures Reached(h, w', w.(m := w.m.(phase := ConnectedVerified),
                              threads := w.threads[t := w.threads[t].(apc := AtRecordOk)]))
  {
    w' := Advances(h, w, t, AtFinal(x), Going(x));
  }

  // A Connect call accepted with one fallback candidate in reserve.
  lemma Connects(h: Schedule, w: World, t: Tid) returns (w': World)
    requires Reachable(SHIPPED, h, w) && t !in w.threads && w.m.Accepts() && Allowed(h, w, CallConnect(t))
    ensures Reached(h, w', w.(m := w.m.AcceptConnect(),
                              threads := w.threads[t := Attempt(w.m.generation + 1, 0, 1, AtPrepare)]))
  {
    var w1 := Step(SHIPPED, true, w, CallConnect(t)).value;
    OneMore(h, w, CallConnect(t), w1);
    w' := Advances(h, w1, t, AtSelect, Going(0));
    assert w'.threads == w.threads[t := Attempt(w.m.generation + 1, 0, 1, AtPrepare)];
  }

  // A Disconnect up to its wait in stopMonitor, and, with no monitor to wait for, up to the
  // section that empties the slot.
  lemma EndsSession(h: Schedule, w: World, t: Tid) returns (w': World)
    requires Reachable(SHIPPED, h, w) && t !in w.threads
    ensures Reached(h, w', w.(m := w.m.BeginDisconnect().(monitor := None),
                              threads := w.threads[t := Disconnect(false, DJoin(w.m.monitor))]))
  {
    var w1 := Step(SHIPPED, true, w, CallDisconnect(t, false)).value;
    OneMore(h, w, CallDisconnect(t, false), w1);
    var w2 := Moves(h, w1, t, STOPPING);
    w' := Moves(h, w2, t, STOPPING);
    assert w'.threads == w.threads[t := Disconnect(false, DJoin(w.m.monitor))];
  }

  lemma TakesDown(h: Schedule, w: World, t: Tid) returns (w': World)
    requires Reachable(SHIPPED, h, w) && t !in w.threads && w.m.monitor == None
    ensures Reached(h, w', w.(m := w.m.BeginDisconnect().TakeDown(),
                              threads := w.threads[t := Disconnect(false, DClose(w.m.slot))]))
  {
    var w1 := EndsSession(h, w, t);
    var w2 := Moves(h, w1, t, STOPPING);
    w' := Moves(h, w2, t, STOPPING);
    assert w'.threads == w.threads[t := Disconnect(false, DClose(w.m.slot))];
  }

  lemma Finishes(h: Schedule, w: World, t: Tid) returns (w': World)
    requires Reachable(SHIPPED, h, w) && t in w.threads
    requires w.threads[t].Disconnect? && w.threads[t].dpc.DClose? && !w.threads[t].wipe
    ensures Reached(h, w', w.(m := w.m.(phase := Disconnected),
                              threads := w.threads[t := Disconnect(false, DDone)],
                              closed := w.closed + if w.threads[t].dpc.x.Some? then {w.threads[t].dpc.x.value} else {}))
  {
    var w1 := Moves(h, w, t, STOPPING);
    w' := Moves(h, w1, t, STOPPING);
    assert w'.threads == w.threads[t := Disconnect(false, DDone)];
  }

  /**
    Without A1: every call has returned, the slot is empty, and yet the phase is `verifying`.
    Every Connect is refused, and nothing but a further Disconnect can happen.
   */
  lemma StaleVerifyingWedgesManager() returns (w: World)
    ensures Reachable(SHIPPED, Schedule(false, true, true, true), w)
    ensures w.m.phase == Verifying && w.m.slot == None && !w.m.Accepts() && !w.m.shutdown
    ensures forall t | t in w.threads :: Finished(w.threads[t])
    ensures forall a :: Step(SHIPPED, true, w, a).Some? ==> a.CallDisconnect?
  {
    var h := Schedule(false, true, true, true);
    w := DisconnectedBeforeVerify(h);
    w := Moves(h, w, 0, Going(0));
    assert w.threads == map[0 := Attempt(1, 0, 1, AtProbe(0)), 1 := Disconnect(false, DDone)];
    w := GivesUp(h, w, 0, 0);
    assert w.threads == map[0 := Attempt(1, 0, 1, AtDone), 1 := Disconnect(false, DDone)];
  }

  ghost predicate Trails(w: World, t: Tid, pc: AttemptPc) {
    t in w.threads && w.threads[t].Attempt? && w.threads[t].gen < w.m.generation && w.threads[t].apc == pc
  }

  // A superseded attempt whose probe returns closes its core and ends without a write.
  lemma GivesUp(h: Schedule, w: World, t: Tid, x: Inst) returns (w': World)
    requires Reachable(SHIPPED, h, w) && Trails(w, t, AtProbe(x))
    ensures Reached(h, w', w.(threads := w.threads[t := w.threads[t].(apc := AtDone)], closed := w.closed + {x}))
  {
    var w1 := ClosesStale(h, w, t, x);
    w' := EndsStale(h, w1, t);
    assert w'.threads == w.threads[t := w.threads[t].(apc := AtDone)];
  }

  lemma EndsStale(h: Schedule, w: World, t: Tid) returns (w': World)
    requires Reachable(SHIPPED, h, w) && Trails(w, t, AtNext)
    ensures Reached(h, w', w.(threads := w.threads[t := w.threads[t].(apc := AtDone)]))
  {
    var w1 := Moves(h, w, t, STOPPING);
    w' := Moves(h, w1, t, STOPPING);
    assert w'.threads == w.threads[t := w.threads[t].(apc := AtDone)];
  }

  lemma ClosesStale(h: Schedule, w: World, t: Tid, x: Inst) returns (w': World)
    requires Reachable(SHIPPED, h, w) && Trails(w, t, AtProbe(x))
    ensures Reached(h, w', w.(threads := w.threads[t := w.threads[t].(apc := AtNext)], closed := w.closed + {x}))
  {
    var w1 := Moves(h, w, t, Going(0));
    w' := Moves(h, w1, t, Going(0));
    assert w'.threads == w.threads[t := w.threads[t].(apc := AtNext)];
  }

  lemma DisconnectedBeforeVerify(h: Schedule) returns (w: World)
    ensures Scene(h, w, map[0 := Attempt(1, 0, 1, AtBeginVerify(0)), 1 := Disconnect(false, DDone)],
                  None, 2, map[0 := 1], {0})
    ensures !w.m.shutdown
  {
    w := AboutToVerify(h);
    w := TakesDown(h, w, 1);
    w := Finishes(h, w, 1);
    assert w.threads == map[0 := Attempt(1, 0, 1, AtBeginVerify(0)), 1 := Disconnect(false, DDone)];
  }

  // The first session, thread 0 with core 0, just before its verification.
  lemma AboutToVerify(h: Schedule) returns (w: World)
    ensures Reached(h, w, START.(m := FRESH_MANAGER.(phase := Connected, slot := Some(0), generation := 1),
                                 threads := map[0 := Attempt(1, 0, 1, AtBeginVerify(0))],
                                 started := map[0 := 1]))
  {
    w := Starting(h);
    w := Launches(h, w, 0, 0);
    w := BecomesReady(h, w, 0, 0);
    assert w.threads == map[0 := Attempt(1, 0, 1, AtBeginVerify(0))];
  }

  lemma Starting(h: Schedule) returns (w: World)
    ensures Reached(h, w, START.(m := FRESH_MANAGER.AcceptConnect(), threads := map[0 := Attempt(1, 0, 1, AtPrepare)]))
  {
    assert Exec(SHIPPED, true, h, START, []) == Some(START);
    w := Connects(h, START, 0);
  }

  // x was launched, was not closed, and no thread will ever Close it. (Its process dies with
  // the context of its session; its handles and runtime files stay.)
  ghost predicate Lost(w: World, x: Inst) {
    && x in w.started && x !in w.closed && w.m.slot != Some(x)
    && forall t | t in w.threads ::
         !Holds(w.threads[t], x) &&
         match w.threads[t]
         case Attempt(_, _, _, pc) => Mentions(pc) != Some(x)
         case Watcher(_, _, y, pc) => y == x ==> pc == WDone
         case _ => true
  }

  // A Disconnect has emptied the slot and a Connect accepted after that has won.
  lemma WonInsideDisconnect(h: Schedule) returns (w: World)
    requires !h.connectAfterDisconnect
    ensures Scene(h, w, map[0 := Disconnect(false, DClose(None)), 1 := Attempt(2, 0, 1, AtRecordOk)],
                  Some(0), 2, map[0 := 2], {})
    ensures !w.m.shutdown
  {
    w := ConnectsInsideDisconnect(h);
    w := Launches(h, w, 1, 0);
    w := BecomesReady(h, w, 1, 0);
    w := Wins(h, w, 1, 0);
    assert w.threads == map[0 := Disconnect(false, DClose(None)), 1 := Attempt(2, 0, 1, AtRecordOk)];
  }

  lemma ConnectsInsideDisconnect(h: Schedule) returns (w: World)
    requires !h.connectAfterDisconnect
    ensures Reached(h, w, START.(m := FRESH_MANAGER.BeginDisconnect().TakeDown().AcceptConnect(),
                                 threads := map[0 := Disconnect(false, DClose(None)),
                                                1 := Attempt(2, 0, 1, AtPrepare)]))
  {
    assert Exec(SHIPPED, true, h, START, []) == Some(START);
    w := TakesDown(h, START, 0);
    w := Connects(h, w, 1);
  }

  // That Disconnect's last section marks the new session disconnected.
  lemma MarkedDisconnected(h: Schedule) returns (w: World)
    requires !h.connectAfterDisconnect
    ensures Scene(h, w, map[0 := Disconnect(false, DDone), 1 := Attempt(2, 0, 1, AtRecordOk)],
                  Some(0), 2, map[0 := 2], {})
    ensures w.m.Accepts()
  {
    w := WonInsideDisconnect(h);
    w := Finishes(h, w, 0);
  }

  /**
    Without A2: a Connect accepted while a Disconnect is closing is marked disconnected by
    that Disconnect's last section; the next Connect publishes over its instance, which
    nobody will Close.
   */
  lemma ConnectInsideDisconnectLosesInstance() returns (w: World)
    ensures Reachable(SHIPPED, Schedule(true, false, true, true), w) && Lost(w, 0)
  {
    var h := Schedule(true, false, true, true);
    w := MarkedDisconnected(h);
    w := Connects(h, w, 2);
    w := Launches(h, w, 2, 1);
    assert w.threads == map[0 := Disconnect(false, DDone), 1 := Attempt(2, 0, 1, AtRecordOk),
                            2 := Attempt(3, 0, 1, AtWaitReady(1))];
  }

  // ---- A superseded attempt installs its monitor on the next session ----

  // The first session won; its attempt is about to run startMonitor.
  lemma Won(h: Schedule) returns (w: World)
    ensures Scene(h, w, map[0 := Attempt(1, 0, 1, AtStopMonitor)], Some(0), 1, map[0 := 1], {})
    ensures w.m.phase == ConnectedVerified && Unmonitored(w) && w.m.nextVerifyAt.Some?
  {
    w := AboutToVerify(h);
    w := Wins(h, w, 0, 0);
    w := Records(h, w, 0);
    assert w.threads == map[0 := Attempt(1, 0, 1, AtStopMonitor)];
  }

  lemma Records(h: Schedule, w: World, t: Tid) returns (w': World)
    requires Reachable(SHIPPED, h, w) && Stands(w, t, AtRecordOk)
    ensures Progressed(h, w, w', t, AtStopMonitor)
    ensures w'.m.phase == w.m.phase && w'.m.nextVerifyAt == w.m.nextVerifyAt
  {
    w' := Advances(h, w, t, AtRecordOk, Going(0));
  }

  // The first session won and was disconnected before its attempt ran startMonitor.
  lemma WonAndDisconnected(h: Schedule) returns (w: World)
    ensures Scene(h, w, map[0 := Attempt(1, 0, 1, AtStopMonitor), 1 := Disconnect(false, DDone)],
                  None, 2, map[0 := 1], {0})
    ensures w.m.phase == Disconnected && Unmonitored(w)
  {
    w := Won(h);
    w := TakesDown(h, w, 1);
    w := Finishes(h, w, 1);
    assert w.threads == map[0 := Attempt(1, 0, 1, AtStopMonitor), 1 := Disconnect(false, DDone)];
  }

  // Threads of the race: 0 the old attempt, 1 its Disconnect, 2 the new attempt, 3 and 4
  // the monitor the old attempt installed on the new session's first core.
  function RaceThreads(pc: AttemptPc, candidate: nat, left: nat, wpc: WatcherPc): map<Tid, Thread> {
    map[0 := Attempt(1, 0, 1, AtDone), 1 := Disconnect(false, DDone),
        2 := Attempt(3, candidate, left, pc),
        3 := Ticker(0, 3, TIdle), 4 := Watcher(0, 3, 1, wpc)]
  }

  lemma NextSessionStarted(h: Schedule) returns (w: World)
    ensures Scene(h, w, map[0 := Attempt(1, 0, 1, AtStopMonitor), 1 := Disconnect(false, DDone),
                            2 := Attempt(3, 0, 1, AtWaitReady(1))],
                  Some(1), 3, map[0 := 1, 1 := 3], {0})
    ensures Unmonitored(w)
  {
    w := WonAndDisconnected(h);
    assert !DisconnectUnderWay(w);
    w := Connects(h, w, 2);
    w := Launches(h, w, 2, 1);
  }

  lemma MonitorsWrongCore(h: Schedule) returns (w: World)
    requires !h.noStaleMonitor
    ensures Scene(h, w, RaceThreads(AtWaitReady(1), 0, 1, WWait), Some(1), 3, map[0 := 1, 1 := 3], {0})
  {
    w := NextSessionStarted(h);
    w := StopsMonitor(h, w, 0);
    assert w.threads == map[0 := Attempt(1, 0, 1, AtInstall), 1 := Disconnect(false, DDone),
                            2 := Attempt(3, 0, 1, AtWaitReady(1))];
    w := Installs(h, w, 0, 3, 4);
    assert w.threads == RaceThreads(AtWaitReady(1), 0, 1, WWait);
  }

  // stopMonitor with no monitor registered.
  lemma StopsMonitor(h: Schedule, w: World, t: Tid) returns (w': World)
    requires Reachable(SHIPPED, h, w) && t in w.threads && w.threads[t].Attempt?
    requires w.threads[t].apc.AtStopMonitor? && w.m.monitor == None
    requires Superseded(w.m, w.threads[t]) ==> !h.noStaleMonitor
    ensures Reached(h, w', w.(threads := w.threads[t := w.threads[t].(apc := AtInstall)]))
  {
    var w1 := Moves(h, w, t, Going(0));
    w' := Moves(h, w1, t, Going(0));
    assert w'.threads == w.threads[t := w.threads[t].(apc := AtInstall)];
  }

  lemma Installs(h: Schedule, w: World, t: Tid, t1: Tid, t2: Tid) returns (w': World)
    requires Reachable(SHIPPED, h, w) && t in w.threads && w.threads[t].Attempt? && w.threads[t].apc.AtInstall?
    requires t1 !in w.threads && t2 !in w.threads && t1 != t2
    requires Superseded(w.m, w.threads[t]) ==> !h.noStaleMonitor
    ensures Reached(h, w', Install(w, t, w.threads[t], t1, t2))
  {
    w' := Install(w, t, w.threads[t], t1, t2);
    OneMore(h, w, Run(t, Outcome(true, 0, 0, 0, t1, t2)), w');
  }

  // The attempt is past its candidate, whose core is closed and out of the slot.
  ghost predicate Withdrawn(h: Schedule, w: World, w': World, t: Tid, x: Inst) {
    && Reachable(SHIPPED, h, w') && Stands(w', t, AtNext)
    && t in w.threads && w.threads[t].Attempt? && w'.threads == w.threads[t := w.threads[t].(apc := AtNext)]
    && w'.m.slot == None && w'.m.generation == w.m.generation
    && w'.started == w.started && w'.closed == w.closed + {x}
  }

  // The first candidate never becomes ready; the attempt withdraws it.
  lemma Withdraws(h: Schedule, w: World, t: Tid, x: Inst) returns (w': World)
    requires Reachable(SHIPPED, h, w) && Stands(w, t, AtWaitReady(x)) && w.m.slot == Some(x)
    ensures Withdrawn(h, w, w', t, x)
  {
    var w1 := FailsReadiness(h, w, t, x);
    w' := ClosesUnready(h, w1, t, x);
    assert w'.threads == w.threads[t := w.threads[t].(apc := AtNext)];
  }

  lemma ClosesUnready(h: Schedule, w: World, t: Tid, x: Inst) returns (w': World)
    requires Reachable(SHIPPED, h, w) && Stands(w, t, AtCloseUnready(x)) && w.m.slot == Some(x)
    ensures Withdrawn(h, w, w', t, x)
  {
    var w1 := Advances(h, w, t, AtCloseUnready(x), Going(x));
    w' := Advances(h, w1, t, AtClearUnready(x), Going(x));
    assert w'.threads == w.threads[t := w.threads[t].(apc := AtNext)];
  }

  lemma FailsReadiness(h: Schedule, w: World, t: Tid, x: Inst) returns (w': World)
    requires Reachable(SHIPPED, h, w) && Stands(w, t, AtWaitReady(x))
    ensures Progressed(h, w, w', t, AtCloseUnready(x))
  {
    var w1 := Advances(h, w, t, AtWaitReady(x), STOPPING);
    w' := Advances(h, w1, t, AtRecordUnready(x), Going(x));
    assert w'.threads == w.threads[t := w.threads[t].(apc := AtCloseUnready(x))];
  }

  // The second candidate wins while the stale monitor still watches the first core.
  lemma SecondCandidateWins(h: Schedule) returns (w: World)
    requires !h.noStaleMonitor
    ensures Scene(h, w, RaceThreads(AtRecordOk, 1, 0, WWait), Some(2), 3, map[0 := 1, 1 := 3, 2 := 3], {0, 1})
    ensures w.m.phase == ConnectedVerified
  {
    w := SecondCandidateReady(h);
    w := Wins(h, w, 2, 2);
    assert w.threads == RaceThreads(AtRecordOk, 1, 0, WWait);
  }

  lemma SecondCandidateReady(h: Schedule) returns (w: World)
    requires !h.noStaleMonitor
    ensures Scene(h, w, RaceThreads(AtBeginVerify(2), 1, 0, WWait), Some(2), 3, map[0 := 1, 1 := 3, 2 := 3], {0, 1})
  {
    w := FirstCandidateWithdrawn(h);
    w := Launches(h, w, 2, 2);
    w := BecomesReady(h, w, 2, 2);
    assert w.threads == RaceThreads(AtBeginVerify(2), 1, 0, WWait);
  }

  lemma FirstCandidateWithdrawn(h: Schedule) returns (w: World)
    requires !h.noStaleMonitor
    ensures Scene(h, w, RaceThreads(AtPrepare, 1, 0, WWait), None, 3, map[0 := 1, 1 := 3], {0, 1})
  {
    w := MonitorsWrongCore(h);
    w := Withdraws(h, w, 2, 1);
    assert w.threads == RaceThreads(AtNext, 0, 1, WWait);
    w := Advances(h, w, 2, AtNext, Going(0));
    assert w.threads == RaceThreads(AtPrepare, 1, 0, WWait);
  }

  /**
    Without A3: the monitor installed by a superseded attempt watches the first candidate
    of the newer session; its late crash report empties the slot of the second one, which
    nobody will Close.
   */
  lemma StaleMonitorLosesInstance() returns (w: World)
    ensures Reachable(SHIPPED, Schedule(true, true, false, true), w) && Lost(w, 2)
  {
    var h := Schedule(true, true, false, true);
    w := CrashReported(h);
    w := Moves(h, w, 4, Going(0));
    assert w.threads == RaceThreads(AtRecordOk, 1, 0, WDone);
  }

  // The watcher of the first candidate reports its exit to the session of the second.
  lemma CrashReported(h: Schedule) returns (w: World)
    requires !h.noStaleMonitor
    ensures Scene(h, w, RaceThreads(AtRecordOk, 1, 0, WClose), None, 4, map[0 := 1, 1 := 3, 2 := 3], {0, 1})
  {
    w := SecondCandidateWins(h);
    w := Moves(h, w, 4, Going(0));
    assert w.threads == RaceThreads(AtRecordOk, 1, 0, WCrash);
    w := Moves(h, w, 4, Going(0));
    assert w.threads == RaceThreads(AtRecordOk, 1, 0, WClose);
  }

  // ---- The window of a Disconnect ----

  // The threads of an established session: its finished attempt, its ticker, its watcher.
  function Watching(pc: TickerPc): map<Tid, Thread> {
    map[0 := Attempt(1, 0, 1, AtDone), 1 := Ticker(0, 1, pc), 2 := Watcher(0, 1, 0, WWait)]
  }

  // A verified session with its monitor running and a recheck scheduled.
  ghost predicate Steady(h: Schedule, w: World, pc: TickerPc) {
    && Scene(h, w, Watching(pc), Some(0), 1, map[0 := 1], {})
    && w.m.phase == ConnectedVerified && w.m.monitor == Some(0) && w.m.nextVerifyAt.Some? && !w.m.shutdown
  }

  lemma Established(h: Schedule) returns (w: World)
    ensures Steady(h, w, TIdle)
  {
    w := Won(h);
    w := StopsMonitor(h, w, 0);
    assert w.threads == map[0 := Attempt(1, 0, 1, AtInstall)];
    w := Installs(h, w, 0, 1, 2);
    assert w.threads == Watching(TIdle);
  }

  /**
    Even with A1 to A3, connected_verified may show a closed core between the first two
    sections of a Disconnect: a crash report that lost the race still closes the core.
   */
  lemma ClosedCoreInsideDisconnect() returns (w: World)
    ensures Reachable(SHIPPED, ORDERLY, w) && DisconnectUnderWay(w)
    ensures w.m.phase == ConnectedVerified && w.m.slot == Some(0) && 0 in w.closed
  {
    var h := ORDERLY;
    w := Established(h);
    w := Moves(h, w, 2, Going(0));
    var w1 := Step(SHIPPED, true, w, CallDisconnect(3, false)).value;
    OneMore(h, w, CallDisconnect(3, false), w1);
    w := Moves(h, w1, 3, STOPPING);
    assert MidDisconnect(w.threads[3]) && w.threads[2] == Watcher(0, 1, 0, WCrash);
    w := Moves(h, w, 2, Going(0));
    w := Moves(h, w, 2, Going(0));
    assert MidDisconnect(w.threads[3]);
  }

  // ---- A teardown that outlives its session ----

  function At(now: int, ok: bool): Outcome { Outcome(ok, 0, 0, now, 0, 0) }

  lemma Rechecks(h: Schedule, w: World) returns (w': World)
    requires Steady(h, w, TIdle)
    ensures Steady(h, w', TProbe) && w'.m.verifyFailures == w.m.verifyFailures
  {
    var w1 := Moves(h, w, 1, At(0, true));
    assert w1.threads == Watching(TCheck);
    w' := Moves(h, w1, 1, At(w.m.nextVerifyAt.value, true));
    assert w'.threads == Watching(TProbe);
  }

  // The instance is taken and about to be closed; the phase says `disconnecting`.
  ghost predicate Torn(h: Schedule, w: World) {
    && Scene(h, w, Watching(TClose(Some(0))), None, 2, map[0 := 1], {})
    && w.m.phase == Disconnecting && w.m.monitor == Some(0) && !w.m.shutdown
  }

  lemma Misses(h: Schedule, w: World) returns (w': World)
    requires Steady(h, w, TProbe)
    ensures if w.m.verifyFailures + 1 < SHIPPED.threshold
            then Steady(h, w', TIdle) && w'.m.verifyFailures == w.m.verifyFailures + 1
            else Torn(h, w')
  {
    w' := Moves(h, w, 1, At(0, false));
    assert w'.threads == Watching(if w.m.verifyFailures + 1 < SHIPPED.threshold then TIdle else TClose(Some(0)));
  }

  // Failed rechecks in a row end in the teardown.
  lemma TearsDown(h: Schedule, w: World) returns (w': World)
    requires Steady(h, w, TIdle)
    ensures Torn(h, w')
    decreases SHIPPED.threshold - w.m.verifyFailures
  {
    w' := Rechecks(h, w);
    w' := Misses(h, w');
    if w.m.verifyFailures + 1 < SHIPPED.threshold { w' := TearsDown(h, w'); }
  }

  // One Disconnect waits for the torn monitor, and a second one is closing.
  lemma TwoDisconnects(h: Schedule) returns (w: World)
    ensures Scene(h, w, Watching(TClose(Some(0)))[3 := Disconnect(false, DJoin(Some(0)))]
                                                 [4 := Disconnect(false, DClose(None))],
                  None, 4, map[0 := 1], {})
    ensures w.m.phase == Disconnecting
  {
    w := Established(h);
    w := TearsDown(h, w);
    w := EndsSession(h, w, 3);
    w := TakesDown(h, w, 4);
  }

  /**
    Without A4: the tail of a teardown of an ended session finds the `disconnecting` of
    somebody else's Disconnect and turns it into `connection_failed`; without this late
    step the manager would be another.
   */
  lemma StaleTailOverwritesDisconnect() returns (w: World, w': World)
    ensures Reachable(SHIPPED, ORDERLY, w) && Step(SHIPPED, true, w, Run(1, STOPPING)) == Some(w')
    ensures 1 in w.threads && Superseded(w.m, w.threads[1])
    ensures 4 in w.threads && w.threads[4] == Disconnect(false, DClose(None)) && w.m.phase == Disconnecting
    ensures w'.m == w.m.(phase := ConnectionFailed)
  {
    w := TwoDisconnects(ORDERLY);
    w := Moves(ORDERLY, w, 1, STOPPING);
    assert w.threads[1] == Ticker(0, 1, TTail) && w.threads[4] == Disconnect(false, DClose(None));
    w' := Step(SHIPPED, true, w, Run(1, STOPPING)).value;
  }

  // ---- What a finished Disconnect leaves open ----

  /** A Disconnect finishes while another one still has the core to close. */
  lemma SecondDisconnectFinishesFirst() returns (w: World)
    ensures Reachable(SHIPPED, ORDERLY, w)
    ensures w.threads.Keys == {0, 1, 2} && w.threads[2] == Disconnect(false, DDone)
    ensures w.threads[1] == Disconnect(false, DClose(Some(0))) && 0 in w.started && 0 !in w.closed
  {
    w := Won(ORDERLY);
    w := TakesDown(ORDERLY, w, 1);
    w := TakesDown(ORDERLY, w, 2);
    w := Finishes(ORDERLY, w, 2);
  }

  // A new session connects while the old one's ticker is still closing its core.
  lemma ConnectsDuringTeardown(h: Schedule) returns (w: World)
    ensures Scene(h, w, Watching(TClose(Some(0)))[3 := Attempt(3, 0, 1, AtBeginVerify(1))],
                  Some(1), 3, map[0 := 1, 1 := 3], {})
    ensures w.m.monitor == Some(0)
  {
    w := Established(h);
    w := TearsDown(h, w);
    assert !DisconnectUnderWay(w);
    w := Connects(h, w, 3);
    w := Launches(h, w, 3, 1);
    w := BecomesReady(h, w, 3, 1);
    assert w.threads == Watching(TClose(Some(0)))[3 := Attempt(3, 0, 1, AtBeginVerify(1))];
  }

  // It wins and waits for that ticker.
  lemma JoinsTornMonitor(h: Schedule) returns (w: World)
    ensures Scene(h, w, Watching(TClose(Some(0)))[3 := Attempt(3, 0, 1, AtJoinMonitor(Some(0)))],
                  Some(1), 3, map[0 := 1, 1 := 3], {})
    ensures w.m.monitor == None
  {
    w := WinsDuringTeardown(h);
    w := Advances(h, w, 3, AtStopMonitor, Going(0));
    assert w.threads == Watching(TClose(Some(0)))[3 := Attempt(3, 0, 1, AtJoinMonitor(Some(0)))];
  }

  lemma WinsDuringTeardown(h: Schedule) returns (w: World)
    ensures Scene(h, w, Watching(TClose(Some(0)))[3 := Attempt(3, 0, 1, AtStopMonitor)],
                  Some(1), 3, map[0 := 1, 1 := 3], {})
    ensures w.m.monitor == Some(0)
  {
    w := ConnectsDuringTeardown(h);
    w := Wins(h, w, 3, 1);
    w := Records(h, w, 3);
    assert w.threads == Watching(TClose(Some(0)))[3 := Attempt(3, 0, 1, AtStopMonitor)];
  }

  /**
    A Disconnect finishes while a superseded attempt waits for a ticker that still has the
    core of an earlier session to close.
   */
  lemma DisconnectFinishesBeforeTeardown() returns (w: World)
    ensures Reachable(SHIPPED, ORDERLY, w)
    ensures w.threads.Keys == {0, 1, 2, 3, 4} && w.threads[4] == Disconnect(false, DDone)
    ensures LateJoin(w, 3) && w.threads[1] == Ticker(0, 1, TClose(Some(0))) && 0 in w.started && 0 !in w.closed
  {
    w := JoinsTornMonitor(ORDERLY);
    w := TakesDown(ORDERLY, w, 4);
    w := Finishes(ORDERLY, w, 4);
  }
}
