/**
  Interleavings of the connection manager. The threads are the Connect callers, the
  Disconnect and Shutdown callers, the VerifyConnected callers, and for each monitor its
  ticker loop and its process-exit watcher. One step is one section under `m.mu`, one
  `Close` of an instance, or one external outcome (selection, start, readiness, probe
  result, clock), which the action carries.
 */
module Interleaving {
  import opened Prelude
  import opened Session

  // Where a Connect call stands; the numbers in comments are lines of connection.go.
  datatype AttemptPc =
    | AtSelect                          // 491
    | AtPrepare                         // 657-671
    | AtPrecheck                        // 673-715
    | AtLaunch                          // 718-737
    | AtStart                           // 745
    | AtPublish(x: Inst)                // 758-776
    | AtWaitReady(x: Inst)              // 778
    | AtRecordUnready(x: Inst)          // 779
    | AtCloseUnready(x: Inst)           // 786
    | AtClearUnready(x: Inst)           // 788-796
    | AtReady(x: Inst)                  // 819-844
    | AtBeginVerify(x: Inst)            // 852-856
    | AtProbe(x: Inst)                  // 858-888
    | AtCloseUnusable(x: Inst)          // 892
    | AtClearUnusable(x: Inst)          // 894-903
    | AtRecordFail                      // 674, 712, 747, 909
    | AtCloseStale(x: Inst)             // 767, 826, 873
    | AtNext                            // 525-536
    | AtFail                            // 493, 569
    | AtFinal(x: Inst)                  // 919-939
    | AtRecordOk                        // 941
    | AtStopMonitor                     // 1378, 1685-1690
    | AtJoinMonitor(m: Option<MonitorId>) // 1692-1698
    | AtInstall                         // 1383-1388
    | AtDone

  datatype DisconnectPc =
    | DBegin                            // 1054-1062
    | DStop                             // 1068, 1685-1690
    | DJoin(m: Option<MonitorId>)       // 1692-1698
    | DTake                             // 1070-1090
    | DClose(x: Option<Inst>)           // 1092-1099
    | DFinish                           // 1101-1104
    | DWipe                             // 1346-1349, Shutdown only
    | DDone

  datatype TickerPc =
    | TIdle                             // 1442-1464
    | TCheck                            // 1536-1562
    | TProbe                            // 1568-1643
    | TClose(x: Option<Inst>)           // 1653-1655
    | TTail                             // 1657-1673
    | TDone

  // 1414-1431, 1492-1509, 1511
  datatype WatcherPc = WWait | WCrash | WClose | WDone

  datatype Thread =
    | Attempt(gen: nat, candidate: nat, left: nat, apc: AttemptPc)
    | Disconnect(wipe: bool, dpc: DisconnectPc)
    | Verify(gen: nat, open: bool)                       // VerifyConnected, 1230-1285
    | Ticker(mon: MonitorId, gen: nat, tpc: TickerPc)
    | Watcher(mon: MonitorId, gen: nat, inst: Inst, wpc: WatcherPc)

  // Verification results the manager applied, in order.
  datatype Event =
    | Proved(gen: nat)   // the connect-time verification of session gen succeeded
    | Passed(gen: nat)   // a later verification succeeded
    | Missed(gen: nat)   // a stability recheck failed

  type Tid = nat

  datatype World = World(
    m: Manager,
    threads: map<Tid, Thread>,
    started: map<Inst, nat>,   // every instance backend.Start returned, with its session
    closed: set<Inst>,         // every instance Close was called on
    nextMonitor: MonitorId,
    log: seq<Event>)

  const START := World(FRESH_MANAGER, map[], map[], {}, 0, [])

  // External outcomes one step may consume.
  datatype Outcome = Outcome(ok: bool, count: nat, inst: Inst, now: int, t1: Tid, t2: Tid)

  datatype Action =
    | CallConnect(t: Tid)
    | CallDisconnect(t: Tid, wipe: bool)
    | CallVerify(t: Tid)
    | Run(t: Tid, o: Outcome)

  predicate MonitorDone(w: World, h: Option<MonitorId>) {
    h.Some? ==> forall t | t in w.threads ::
      match w.threads[t]
      case Ticker(mon, _, pc) => mon == h.value ==> pc == TDone
      case Watcher(mon, _, _, pc) => mon == h.value ==> pc == WDone
      case _ => true
  }

  // What one step does beyond the manager and the stepping thread.
  datatype Effect =
    | Nothing
    | Launch(inst: Inst, gen: nat)
    | Close(x: Option<Inst>)
    | Note(e: Event)

  datatype Move = Move(th: Thread, m: Manager, effect: Effect)

  // The next step of a Connect call, except the last section of startMonitor.
  function MoveAttempt(p: Policy, m: Manager, th: Thread, o: Outcome): Move
    requires th.Attempt?
  {
    var g := th.gen;
    var current := m.generation == g;
    match th.apc
    case AtSelect =>
      Move(if o.ok then th.(apc := AtPrepare, left := o.count) else th.(apc := AtFail), m, Nothing)
    case AtPrepare =>
      Move(th.(apc := if current then AtPrecheck else AtNext), m.EnterAt(g, Preparing), Nothing)
    case AtPrecheck =>
      Move(th.(apc := if o.ok then AtLaunch else AtRecordFail), m, Nothing)
    case AtLaunch =>
      Move(th.(apc := if current then AtStart else AtNext), m.EnterAt(g, StartingCore), Nothing)
    case AtStart =>
      if o.ok then Move(th.(apc := AtPublish(o.inst)), m, Launch(o.inst, g))
      else Move(th.(apc := AtRecordFail), m, Nothing)
    case AtPublish(x) =>
      Move(th.(apc := if current then AtWaitReady(x) else AtCloseStale(x)), m.PublishAt(g, x), Nothing)
    case AtWaitReady(x) =>
      Move(th.(apc := if o.ok then AtReady(x) else AtRecordUnready(x)), m, Nothing)
    case AtRecordUnready(x) =>
      Move(th.(apc := AtCloseUnready(x)), m.RecordAt(g, AttemptRecord(th.candidate, false)), Nothing)
    case AtCloseUnready(x) =>
      Move(th.(apc := AtClearUnready(x)), m, Close(Some(x)))
    case AtClearUnready(x) =>
      Move(th.(apc := AtNext), m.ClearUnreadyAt(g, x), Nothing)
    case AtReady(x) =>
      Move(th.(apc := if !current then AtCloseStale(x)
                      else if p.skip then AtFinal(x) else AtBeginVerify(x)),
           m.ReadyAt(g, x), Nothing)
    case AtBeginVerify(x) =>
      Move(th.(apc := AtProbe(x)), m.(phase := Verifying), Nothing)
    case AtProbe(x) =>
      Move(th.(apc := if !current then AtCloseStale(x)
                      else if o.ok then AtFinal(x) else AtCloseUnusable(x)),
           m.JudgeAt(g, o.ok, o.now, p.interval),
           if current && o.ok then Note(Proved(g)) else Nothing)
    case AtCloseUnusable(x) =>
      Move(th.(apc := AtClearUnusable(x)), m, Close(Some(x)))
    case AtClearUnusable(x) =>
      Move(th.(apc := AtRecordFail), m.ClearUnusableAt(g), Nothing)
    case AtRecordFail =>
      Move(th.(apc := AtNext), m.RecordAt(g, AttemptRecord(th.candidate, false)), Nothing)
    case AtCloseStale(x) =>
      Move(th.(apc := AtNext), m, Close(Some(x)))
    case AtNext =>
      // o.ok says the caller's context is still live
      Move(if !o.ok || !current || th.left == 0 then th.(apc := AtFail)
           else th.(apc := AtPrepare, left := th.left - 1, candidate := th.candidate + 1),
           m, Nothing)
    case AtFail =>
      Move(th.(apc := AtDone), m.FailAt(g), Nothing)
    case AtFinal(x) =>
      Move(th.(apc := if current then AtRecordOk else AtNext), m.EnterAt(g, p.Settled()), Nothing)
    case AtRecordOk =>
      Move(th.(apc := AtStopMonitor), m.RecordAt(g, AttemptRecord(th.candidate, true)), Nothing)
    case AtStopMonitor =>
      Move(th.(apc := AtJoinMonitor(m.monitor)), m.(monitor := None), Nothing)
    case AtJoinMonitor(h) => Move(th.(apc := AtInstall), m, Nothing)
    case AtInstall => Move(th.(apc := AtDone), m, Nothing)
    case AtDone => Move(th, m, Nothing)
  }

  function MoveDisconnect(m: Manager, th: Thread): Move
    requires th.Disconnect?
  {
    match th.dpc
    case DBegin => Move(th.(dpc := DStop), m.BeginDisconnect(), Nothing)
    case DStop => Move(th.(dpc := DJoin(m.monitor)), m.(monitor := None), Nothing)
    case DJoin(_) => Move(th.(dpc := DTake), m, Nothing)
    case DTake => Move(th.(dpc := DClose(m.slot)), m.TakeDown(), Nothing)
    case DClose(x) => Move(th.(dpc := DFinish), m, Close(x))
    case DFinish => Move(th.(dpc := if th.wipe then DWipe else DDone), m.(phase := Disconnected), Nothing)
    case DWipe => Move(th.(dpc := DDone), m.(attempts := []), Nothing)
    case DDone => Move(th, m, Nothing)
  }

  function MoveVerify(p: Policy, m: Manager, th: Thread, o: Outcome): Move
    requires th.Verify?
  {
    Move(th.(open := false), m.JudgeAt(th.gen, o.ok, o.now, p.interval),
         if m.generation == th.gen && o.ok then Note(Passed(th.gen)) else Nothing)
  }

  function MoveTicker(p: Policy, m: Manager, th: Thread, o: Outcome): Move
    requires th.Ticker?
  {
    var current := m.generation == th.gen;
    match th.tpc
    case TIdle =>
      // o.ok says the tick fired; otherwise the monitor context was cancelled
      Move(th.(tpc := if o.ok && m.slot.Some? && m.phase.ConnectedLike() && current then TCheck else TDone),
           m, Nothing)
    case TCheck =>
      Move(th.(tpc := if m.RecheckDue(p, th.gen, o.now) then TProbe else TIdle),
           m.ReserveRecheck(p, th.gen, o.now), Nothing)
    case TProbe =>
      Move(th.(tpc := if m.TearsDown(p, th.gen, o.ok) then TClose(m.slot) else TIdle),
           m.ApplyRecheck(p, th.gen, o.ok, o.now),
           if !current then Nothing else Note(if o.ok then Passed(th.gen) else Missed(th.gen)))
    case TClose(x) => Move(th.(tpc := TTail), m, Close(x))
    case TTail => Move(th.(tpc := TIdle), m.FinishTeardown(), Nothing)
    case TDone => Move(th, m, Nothing)
  }

  function MoveWatcher(m: Manager, th: Thread, o: Outcome): Move
    requires th.Watcher?
  {
    match th.wpc
    case WWait =>
      // o.ok says the process died on its own and the monitor is not cancelled
      Move(th.(wpc := if o.ok && m.CrashApplies(th.gen) then WCrash else WDone), m, Nothing)
    case WCrash => Move(th.(wpc := WClose), m.CrashAt(th.gen), Nothing)
    case WClose => Move(th.(wpc := WDone), m, Close(Some(th.inst)))
    case WDone => Move(th, m, Nothing)
  }

  function MoveOf(p: Policy, m: Manager, th: Thread, o: Outcome): Move {
    match th
    case Attempt(_, _, _, _) => MoveAttempt(p, m, th, o)
    case Disconnect(_, _) => MoveDisconnect(m, th)
    case Verify(_, _) => MoveVerify(p, m, th, o)
    case Ticker(_, _, _) => MoveTicker(p, m, th, o)
    case Watcher(_, _, _, _) => MoveWatcher(m, th, o)
  }

  function Apply(w: World, t: Tid, mv: Move): World {
    w.(m := mv.m,
       threads := w.threads[t := mv.th],
       started := if mv.effect.Launch? then w.started[mv.effect.inst := mv.effect.gen] else w.started,
       closed := if mv.effect.Close? && mv.effect.x.Some? then w.closed + {mv.effect.x.value} else w.closed,
       log := if mv.effect.Note? then w.log + [mv.effect.e] else w.log)
  }

  predicate Finished(th: Thread) {
    match th
    case Attempt(_, _, _, pc) => pc == AtDone
    case Disconnect(_, pc) => pc == DDone
    case Verify(_, open) => !open
    case Ticker(_, _, pc) => pc == TDone
    case Watcher(_, _, _, pc) => pc == WDone
  }

  // The monitor a thread is waiting for in stopMonitor.
  function Joins(th: Thread): Option<MonitorId> {
    match th
    case Attempt(_, _, _, AtJoinMonitor(h)) => h
    case Disconnect(_, DJoin(h)) => h
    case _ => None
  }

  predicate Enabled(joins: bool, w: World, th: Thread, o: Outcome) {
    && !Finished(th)
    && (th.Attempt? && th.apc.AtStart? && o.ok ==> o.inst !in w.started)
    && (th.Attempt? && th.apc.AtInstall? ==> o.t1 !in w.threads && o.t2 !in w.threads && o.t1 != o.t2)
    && (joins ==> MonitorDone(w, Joins(th)))
  }

  // The last section of startMonitor: it reads the generation and the slot afresh.
  function Install(w: World, t: Tid, th: Thread, t1: Tid, t2: Tid): World
    requires th.Attempt?
  {
    var h := w.nextMonitor;
    var base := w.threads[t := th.(apc := AtDone)][t1 := Ticker(h, w.m.generation, TIdle)];
    w.(m := w.m.(monitor := Some(h)), nextMonitor := h + 1,
       threads := if w.m.slot.Some? then base[t2 := Watcher(h, w.m.generation, w.m.slot.value, WWait)]
                  else base)
  }

  // `joins` says that stopMonitor waits for the monitor it cancelled, as the source does.
  function Step(p: Policy, joins: bool, w: World, a: Action): (r: Option<World>) {
    match a
    case CallConnect(t) =>
      if t in w.threads || !w.m.Accepts() then None
      else Some(Apply(w, t, Move(Attempt(w.m.generation + 1, 0, 0, AtSelect), w.m.AcceptConnect(), Nothing)))
    case CallDisconnect(t, wipe) =>
      if t in w.threads then None
      else Some(Apply(w, t, Move(Disconnect(wipe, DBegin), w.m.(shutdown := w.m.shutdown || wipe), Nothing)))
    case CallVerify(t) =>
      if t in w.threads || w.m.slot.None? || !w.m.phase.ConnectedLike() then None
      else Some(Apply(w, t, Move(Verify(w.m.generation, true), w.m, Nothing)))
    case Run(t, o) =>
      if t !in w.threads || !Enabled(joins, w, w.threads[t], o) then None
      else if w.threads[t].Attempt? && w.threads[t].apc.AtInstall? then
        Some(Install(w, t, w.threads[t], o.t1, o.t2))
      else Some(Apply(w, t, MoveOf(p, w.m, w.threads[t], o)))
  }

  // A thread whose captured generation is no longer current. A ticker that ended its
  // session itself finishes that teardown; it is superseded once the generation moves on.
  predicate Superseded(m: Manager, th: Thread) {
    match th
    case Attempt(g, _, _, _) => g != m.generation
    case Verify(g, _) => g != m.generation
    case Ticker(_, g, pc) => g != m.generation && !((pc.TClose? || pc.TTail?) && m.generation == g + 1)
    case Watcher(_, g, _, _) => g != m.generation
    case Disconnect(_, _) => false
  }

  predicate MidDisconnect(th: Thread) {
    th.Disconnect? && !th.dpc.DBegin? && !th.dpc.DWipe? && !th.dpc.DDone?
  }

  predicate DisconnectUnderWay(w: World) {
    exists t :: t in w.threads && MidDisconnect(w.threads[t])
  }

  // The schedules a theorem speaks about. The source does not enforce any of the four.
  datatype Schedule = Schedule(
    noStaleVerifying: bool,      // A1: no superseded attempt changes the phase to Verifying
    connectAfterDisconnect: bool,// A2: no Connect is accepted in the middle of a Disconnect
    noStaleMonitor: bool,        // A3: no superseded attempt takes a monitor or installs one
    noStaleTail: bool)           // A4: no superseded teardown ends over another's Disconnecting

  // What a superseded thread may still do: everything but the writes that change the manager.
  predicate AllowedLate(h: Schedule, m: Manager, th: Thread) {
    match th
    case Attempt(_, _, _, pc) =>
      && (h.noStaleVerifying && pc.AtBeginVerify? ==> m.phase == Verifying)
      && (h.noStaleMonitor && pc.AtStopMonitor? ==> m.monitor == None)
      && (h.noStaleMonitor ==> !pc.AtInstall?)
    case Ticker(_, _, pc) => h.noStaleTail && pc.TTail? ==> m.phase != Disconnecting
    case _ => true
  }

  predicate Allowed(h: Schedule, w: World, a: Action) {
    match a
    case CallConnect(_) => h.connectAfterDisconnect ==> !DisconnectUnderWay(w)
    case Run(t, _) => t in w.threads && Superseded(w.m, w.threads[t]) ==> AllowedLate(h, w.m, w.threads[t])
    case _ => true
  }

  // A1 to A3.
  const ORDERLY := Schedule(true, true, true, false)

  // Runs `acts` from w; None when some action is not enabled or not allowed.
  function Exec(p: Policy, joins: bool, h: Schedule, w: World, acts: seq<Action>): (r: Option<World>)
    decreases |acts|
  {
    if acts == [] then Some(w)
    else if !Allowed(h, w, acts[0]) then None
    else
      var next := Step(p, joins, w, acts[0]);
      if next.None? then None else Exec(p, joins, h, next.value, acts[1..])
  }

  ghost predicate Reachable(p: Policy, h: Schedule, w: World) {
    exists acts :: Exec(p, true, h, START, acts) == Some(w)
  }
}
