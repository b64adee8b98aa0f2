/**
  What `connected_verified` means: under schedules A1 to A3 the session's own
  verification succeeded, its core is open, and the state is left only by Disconnect, by
  a crash, or by exactly `threshold` consecutive failed rechecks.
 */
module VerifiedState {
  import opened Prelude
  import opened Session
  import opened Interleaving
  import opened Ownership
  import opened LeakFreedom

  // Failed rechecks since the last successful verification of any kind.
  function TrailingMisses(log: seq<Event>): nat {
    if log == [] || !log[|log| - 1].Missed? then 0
    else 1 + TrailingMisses(log[..|log| - 1])
  }

  predicate InStep(w: World) {
    w.m.verifyFailures == TrailingMisses(w.log)
  }

  // The published core of a live attempt is open until the attempt itself closes it.
  predicate KeepsOpen(pc: AttemptPc) {
    Mentions(pc).Some? && !pc.AtCloseStale? && !pc.AtClearUnready? && !pc.AtClearUnusable?
  }

  ghost predicate EvidenceOf(p: Policy, w: World, th: Thread) {
    match th
    case Attempt(g, _, _, pc) =>
      LiveAttempt(w.m, th) ==>
        && (if Won(pc) then w.m.phase == p.Settled() else w.m.phase != ConnectedVerified)
        && (KeepsOpen(pc) ==> Mentions(pc).value !in w.closed)
        && (pc.AtFinal? && !p.skip ==> w.m.verifyFailures == 0 && InStep(w) && Proved(g) in w.log)
    case Disconnect(_, pc) => pc.DClose? || pc.DFinish? ==> !w.m.phase.Active()
    case Ticker(_, _, pc) => (pc.TProbe? ==> !p.skip) && (LiveMonitor(w.m, th) ==> w.m.phase == p.Settled())
    case Watcher(_, _, _, _) => LiveMonitor(w.m, th) ==> w.m.phase == p.Settled()
    case Verify(_, _) => true
  }

  // What connected_verified promises of the manager itself.
  ghost predicate Verified(p: Policy, w: World) {
    w.m.phase == ConnectedVerified ==>
      && !p.skip
      && InStep(w)
      && w.m.verifyFailures < p.threshold
      && Backed(w)
      && (!DisconnectUnderWay(w) ==> w.m.slot.value !in w.closed)
  }

  // The slot holds a launched core, and the session that launched it was verified when it
  // connected.
  ghost predicate Backed(w: World) {
    w.m.slot.Some? && w.m.slot.value in w.started && Proved(w.started[w.m.slot.value]) in w.log
  }

  ghost predicate OnlyLaunches(w: World, w': World) {
    forall x | x in w.started :: x in w'.started && w'.started[x] == w.started[x]
  }

  ghost predicate Evident(p: Policy, w: World) {
    && (forall t | t in w.threads :: EvidenceOf(p, w, w.threads[t]))
    && Verified(p, w)
  }

  ghost predicate SameOthers(w: World, w': World, t: Tid) {
    forall s | s in w.threads && s != t :: s in w'.threads && w'.threads[s] == w.threads[s]
  }

  // Launched by an earlier session, so not the core the current session relies on.
  ghost predicate Foreign(w: World, x: Inst) {
    x in w.started && w.started[x] != w.m.generation
  }

  // The session's phase and slot are untouched; at most a foreign core was closed.
  lemma QuietEvidence(p: Policy, w: World, w': World, t: Tid)
    requires Orderly(w) && Evident(p, w) && t in w.threads && OnlyLaunches(w, w')
    requires w'.threads.Keys == w.threads.Keys && SameOthers(w, w', t)
    requires w'.m.phase == w.m.phase && w'.m.slot == w.m.slot && w'.m.generation == w.m.generation
    requires w'.m.verifyFailures == w.m.verifyFailures && w'.log == w.log
    requires forall x | x in w'.closed && x !in w.closed ::
      Foreign(w, x) || (w.m.slot == None && DisconnectUnderWay(w))
    requires EvidenceOf(p, w', w'.threads[t])
    requires MidDisconnect(w.threads[t]) == MidDisconnect(w'.threads[t])
    ensures Evident(p, w')
  {
    forall s | s in w'.threads ensures EvidenceOf(p, w', w'.threads[s]) {
      if s != t { assert EvidenceOf(p, w, w.threads[s]) && ThreadOk(w, w.threads[s]); }
    }
    forall s | s in w.threads && MidDisconnect(w.threads[s]) ensures DisconnectUnderWay(w') {
      assert MidDisconnect(w'.threads[s]);
    }
  }

  // A verification result was applied; only a recheck with no attempt about may fail.
  lemma JudgedEvidence(p: Policy, w: World, w': World, t: Tid)
    requires Orderly(w) && Evident(p, w) && t in w.threads && OnlyLaunches(w, w')
    requires w'.threads.Keys == w.threads.Keys && SameOthers(w, w', t)
    requires w'.m.phase == w.m.phase && w'.m.slot == w.m.slot && w'.m.generation == w.m.generation
    requires w'.closed == w.closed
    requires forall e | e in w.log :: e in w'.log
    requires InStep(w) ==> InStep(w')
    requires w'.m.verifyFailures < p.threshold || w.m.phase != ConnectedVerified
    requires (InStep(w') && w'.m.verifyFailures == 0)
      || forall s | s in w.threads :: !LiveAttempt(w.m, w.threads[s])
    requires EvidenceOf(p, w', w'.threads[t])
    requires !MidDisconnect(w.threads[t]) && !MidDisconnect(w'.threads[t])
    ensures Evident(p, w')
  {
    forall s | s in w'.threads ensures EvidenceOf(p, w', w'.threads[s]) {
      if s != t { assert EvidenceOf(p, w, w.threads[s]); }
    }
    forall s | s in w.threads && MidDisconnect(w.threads[s]) ensures DisconnectUnderWay(w') {
      assert MidDisconnect(w'.threads[s]);
    }
  }

  // The owner of the session, or nobody's session, is written.
  lemma OwnerEvidence(p: Policy, w: World, w': World, t: Tid)
    requires Orderly(w) && Evident(p, w) && t in w.threads
    requires w'.threads.Keys == w.threads.Keys && SameOthers(w, w', t)
    requires w'.m.generation == w.m.generation
    requires LiveAttempt(w.m, w.threads[t])
      || (!w'.m.phase.Active() && forall s | s in w.threads :: !Owner(w.m, w.threads[s]))
    requires EvidenceOf(p, w', w'.threads[t]) && Verified(p, w')
    ensures Evident(p, w')
  {
    forall s | s in w'.threads ensures EvidenceOf(p, w', w'.threads[s]) {
      if s != t { assert EvidenceOf(p, w, w.threads[s]); }
    }
  }

  lemma BoundaryEvidence(p: Policy, w: World, w': World, t: Tid)
    requires Orderly(w) && Evident(p, w)
    requires t in w'.threads && w'.threads == w.threads[t := w'.threads[t]]
    requires w'.m.generation > w.m.generation
    requires !w'.m.phase.Active() || w'.m.phase == w.m.phase || !DisconnectUnderWay(w)
    requires EvidenceOf(p, w', w'.threads[t]) && Verified(p, w')
    ensures Evident(p, w')
  {
    forall s | s in w'.threads ensures EvidenceOf(p, w', w'.threads[s]) {
      if s != t { assert EvidenceOf(p, w, w.threads[s]) && ThreadOk(w, w.threads[s]); }
    }
  }

  // ---- Each kind of step ----

  ghost predicate FullyVerified(p: Policy, w: World) {
    w.m.phase == ConnectedVerified ==>
      && !p.skip && InStep(w) && w.m.verifyFailures < p.threshold
      && Backed(w) && w.m.slot.value !in w.closed
  }

  ghost predicate LiveEvidence(p: Policy, w: World, th: Thread) {
    && p.Valid() && LiveAttempt(w.m, th)
    && ThreadOk(w, th) && EvidenceOf(p, w, th) && FullyVerified(p, w)
    && forall x | x in w.closed :: x in w.started
  }

  lemma SettlingMove(p: Policy, w: World, t: Tid, th: Thread, o: Outcome)
    requires LiveEvidence(p, w, th) && (Won(th.apc) || th.apc.AtFinal? || th.apc.AtProbe?)
    requires Enabled(false, w, th, o) && !th.apc.AtInstall?
    ensures var mv := MoveAttempt(p, w.m, th, o);
      EvidenceOf(p, Apply(w, t, mv), mv.th) && FullyVerified(p, Apply(w, t, mv))
  {
    var mv := MoveAttempt(p, w.m, th, o);
    if mv.effect.Note? { assert Apply(w, t, mv).log[|w.log|] == mv.effect.e; }
  }

  lemma WorkingMove(p: Policy, w: World, t: Tid, th: Thread, o: Outcome)
    requires LiveEvidence(p, w, th) && !(Won(th.apc) || th.apc.AtFinal? || th.apc.AtProbe?)
    requires Enabled(false, w, th, o)
    ensures var mv := MoveAttempt(p, w.m, th, o);
      EvidenceOf(p, Apply(w, t, mv), mv.th) && FullyVerified(p, Apply(w, t, mv))
  {
  }

  lemma StaleEvidence(p: Policy, w: World, t: Tid, th: Thread, o: Outcome)
    requires th.Attempt? && !LiveAttempt(w.m, th) && ThreadOk(w, th)
    requires Superseded(w.m, th) ==> AllowedLate(ORDERLY, w.m, th)
    requires Enabled(false, w, th, o)
    ensures var mv := MoveAttempt(p, w.m, th, o);
      && mv.m.phase == w.m.phase && mv.m.slot == w.m.slot && mv.m.generation == w.m.generation
      && mv.m.verifyFailures == w.m.verifyFailures && !mv.effect.Note?
      && !LiveAttempt(mv.m, mv.th) && mv.th.Attempt?
      && (mv.effect.Close? ==> mv.effect.x.Some? && Foreign(w, mv.effect.x.value))
  {
  }

  lemma AttemptEvidence(p: Policy, w: World, t: Tid, o: Outcome)
    requires p.Valid() && Orderly(w) && Evident(p, w) && t in w.threads && w.threads[t].Attempt?
    requires Allowed(ORDERLY, w, Run(t, o)) && Enabled(false, w, w.threads[t], o)
    requires !w.threads[t].apc.AtInstall?
    ensures Evident(p, Apply(w, t, MoveAttempt(p, w.m, w.threads[t], o)))
  {
    var th := w.threads[t];
    var mv := MoveAttempt(p, w.m, th, o);
    var w' := Apply(w, t, mv);
    assert ThreadOk(w, th) && EvidenceOf(p, w, th);
    if LiveAttempt(w.m, th) {
      assert !DisconnectUnderWay(w);
      if Won(th.apc) || th.apc.AtFinal? || th.apc.AtProbe? {
        SettlingMove(p, w, t, th, o);
      } else {
        WorkingMove(p, w, t, th, o);
      }
      OwnerEvidence(p, w, w', t);
    } else {
      StaleEvidence(p, w, t, th, o);
      QuietEvidence(p, w, w', t);
    }
  }

  lemma InstallEvidence(p: Policy, w: World, t: Tid, o: Outcome)
    requires p.Valid() && Orderly(w) && Evident(p, w) && t in w.threads
    requires LiveAttempt(w.m, w.threads[t]) && w.threads[t].apc.AtInstall?
    requires Enabled(false, w, w.threads[t], o)
    ensures Evident(p, Install(w, t, w.threads[t], o.t1, o.t2))
  {
    var th := w.threads[t];
    var w' := Install(w, t, th, o.t1, o.t2);
    assert EvidenceOf(p, w, th);
    assert !DisconnectUnderWay(w);
    forall s | s in w'.threads ensures EvidenceOf(p, w', w'.threads[s]) {
      if s in w.threads { assert EvidenceOf(p, w, w.threads[s]); }
    }
  }

  lemma DisconnectEvidence(p: Policy, w: World, t: Tid)
    requires p.Valid() && Orderly(w) && Evident(p, w) && t in w.threads
    requires w.threads[t].Disconnect? && !Finished(w.threads[t])
    ensures Evident(p, Apply(w, t, MoveDisconnect(w.m, w.threads[t])))
  {
    var th := w.threads[t];
    var mv := MoveDisconnect(w.m, th);
    var w' := Apply(w, t, mv);
    assert ThreadOk(w, th) && EvidenceOf(p, w, th);
    if th.dpc.DBegin? {
      assert MidDisconnect(w'.threads[t]);
      BoundaryEvidence(p, w, w', t);
    } else if th.dpc.DTake? || th.dpc.DFinish? {
      OwnerEvidence(p, w, w', t);
    } else {
      QuietEvidence(p, w, w', t);
    }
  }

  lemma TrailingMissesStep(log: seq<Event>, e: Event)
    ensures TrailingMisses(log + [e]) == if e.Missed? then 1 + TrailingMisses(log) else 0
  {
    assert (log + [e])[..|log|] == log;
  }

  lemma MonitorEvidence(p: Policy, w: World, t: Tid, o: Outcome)
    requires p.Valid() && Orderly(w) && Evident(p, w) && t in w.threads && !Finished(w.threads[t])
    requires w.threads[t].Ticker? || w.threads[t].Watcher?
    ensures Evident(p, Apply(w, t, MoveOf(p, w.m, w.threads[t], o)))
  {
    var th := w.threads[t];
    var mv := MoveOf(p, w.m, th, o);
    var w' := Apply(w, t, mv);
    assert ThreadOk(w, th) && EvidenceOf(p, w, th);
    if mv.m.generation > w.m.generation {
      BoundaryEvidence(p, w, w', t);
    } else if mv.effect.Note? {
      TrailingMissesStep(w.log, mv.effect.e);
      assert LiveMonitor(w.m, th);
      JudgedEvidence(p, w, w', t);
    } else if th.Ticker? && th.tpc.TTail? && w.m.phase == Disconnecting {
      forall s | s in w.threads ensures !Owner(w.m, w.threads[s]) {
        assert ThreadOk(w, w.threads[s]);
      }
      OwnerEvidence(p, w, w', t);
    } else {
      QuietEvidence(p, w, w', t);
    }
  }

  lemma VerifyEvidence(p: Policy, w: World, t: Tid, o: Outcome)
    requires p.Valid() && Orderly(w) && Evident(p, w) && t in w.threads && w.threads[t].Verify?
    ensures Evident(p, Apply(w, t, MoveVerify(p, w.m, w.threads[t], o)))
  {
    var mv := MoveVerify(p, w.m, w.threads[t], o);
    var w' := Apply(w, t, mv);
    if mv.effect.Note? {
      TrailingMissesStep(w.log, mv.effect.e);
      JudgedEvidence(p, w, w', t);
    } else {
      QuietEvidence(p, w, w', t);
    }
  }

  lemma StepKeepsEvidence(p: Policy, joins: bool, w: World, a: Action, w': World)
    requires p.Valid() && Orderly(w) && Evident(p, w)
    requires Allowed(ORDERLY, w, a) && Step(p, joins, w, a) == Some(w')
    ensures Evident(p, w')
  {
    match a
    case CallConnect(t) => BoundaryEvidence(p, w, w', t);
    case Run(t, o) =>
      match w.threads[t] {
        case Attempt(_, _, _, pc) =>
          if pc.AtInstall? { InstallEvidence(p, w, t, o); } else { AttemptEvidence(p, w, t, o); }
        case Disconnect(_, _) => DisconnectEvidence(p, w, t);
        case Verify(_, _) => VerifyEvidence(p, w, t, o);
        case _ => MonitorEvidence(p, w, t, o);
      }
    case _ =>
      forall s | s in w.threads ensures EvidenceOf(p, w', w.threads[s]) {
        assert EvidenceOf(p, w, w.threads[s]);
      }
      forall s | s in w.threads && MidDisconnect(w.threads[s]) ensures DisconnectUnderWay(w') {
        assert MidDisconnect(w'.threads[s]);
      }
  }

  lemma {:induction false} RunsKeepEvidence(p: Policy, w: World, acts: seq<Action>)
    requires p.Valid() && Orderly(w) && Evident(p, w) && Exec(p, true, ORDERLY, w, acts).Some?
    ensures var w' := Exec(p, true, ORDERLY, w, acts).value;
      Orderly(w') && Evident(p, w')
    decreases |acts|
  {
    if acts != [] {
      var next := Step(p, true, w, acts[0]).value;
      StepKeepsOrder(p, true, w, acts[0], next);
      StepKeepsEvidence(p, true, w, acts[0], next);
      RunsKeepEvidence(p, next, acts[1..]);
    }
  }

  /**
    In every reachable connected_verified state, also inside a Disconnect: the failure
    counter is the number of failed rechecks since the last success and is below the
    threshold, the slot holds a core, and the connect-time verification of the very session
    that launched it succeeded. Unless a Disconnect is under way, that core is open and
    that session is the current one.
   */
  lemma VerifiedStateIsBacked(p: Policy, w: World)
    requires p.Valid() && Reachable(p, ORDERLY, w) && w.m.phase == ConnectedVerified
    ensures w.m.verifyFailures == TrailingMisses(w.log) < p.threshold
    ensures w.m.slot.Some? && w.m.slot.value in w.started && Proved(w.started[w.m.slot.value]) in w.log
    ensures !DisconnectUnderWay(w) ==>
      w.m.slot.value !in w.closed && w.started[w.m.slot.value] == w.m.generation
  {
    var acts :| Exec(p, true, ORDERLY, START, acts) == Some(w);
    RunsKeepEvidence(p, START, acts);
  }

  // A move that leaves connected_verified, and why.
  ghost predicate LegitimateExit(p: Policy, w: World, th: Thread, o: Outcome, log: seq<Event>) {
    match th
    case Disconnect(_, pc) => pc == DTake
    case Watcher(_, g, x, pc) => pc == WCrash && g == w.m.generation && w.m.slot == Some(x)
    case Ticker(_, g, pc) =>
      && pc == TProbe && g == w.m.generation && !o.ok
      && log == w.log + [Missed(g)] && TrailingMisses(log) == p.threshold
    case _ => false
  }

  // An attempt never takes a verified session out of connected_verified.
  lemma AttemptKeepsVerified(p: Policy, w: World, th: Thread, o: Outcome)
    requires th.Attempt? && ThreadOk(w, th) && EvidenceOf(p, w, th) && !Finished(th) && !th.apc.AtInstall?
    requires w.m.phase == ConnectedVerified
    requires th.apc.AtBeginVerify? ==> !Superseded(w.m, th)
    ensures MoveAttempt(p, w.m, th, o).m.phase == ConnectedVerified
  {
  }

  lemma ExitMove(p: Policy, w: World, t: Tid, th: Thread, o: Outcome)
    requires ThreadOk(w, th) && EvidenceOf(p, w, th) && !Finished(th)
    requires w.m.phase == ConnectedVerified && InStep(w) && w.m.verifyFailures < p.threshold
    requires th.Attempt? ==> !th.apc.AtInstall? && (th.apc.AtBeginVerify? ==> !Superseded(w.m, th))
    requires MoveOf(p, w.m, th, o).m.phase != ConnectedVerified
    ensures LegitimateExit(p, w, th, o, Apply(w, t, MoveOf(p, w.m, th, o)).log)
  {
    match th
    case Attempt(_, _, _, _) => AttemptKeepsVerified(p, w, th, o);
    case Ticker(_, g, _) => TrailingMissesStep(w.log, Missed(g));
    case _ =>
  }

  /** The only ways out of connected_verified. */
  lemma LeavingVerifiedState(p: Policy, w: World, a: Action, w': World)
    requires p.Valid() && Reachable(p, ORDERLY, w) && w.m.phase == ConnectedVerified
    requires Allowed(ORDERLY, w, a) && Step(p, true, w, a) == Some(w')
    requires w'.m.phase != ConnectedVerified
    ensures a.Run? && a.t in w.threads && LegitimateExit(p, w, w.threads[a.t], a.o, w'.log)
  {
    var acts :| Exec(p, true, ORDERLY, START, acts) == Some(w);
    RunsKeepEvidence(p, START, acts);
    if a.Run? && !(w.threads[a.t].Attempt? && w.threads[a.t].apc.AtInstall?) {
      ExitMove(p, w, a.t, w.threads[a.t], a.o);
    }
  }
}
