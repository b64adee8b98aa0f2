/**
  The connection manager of engine/connection/connection.go: one active session, its
  lifecycle phase and the session generation that fences late results.

  Every function below is one section the source runs under `m.mu`. The class
  `SessionManager` performs the same sections by assigning fields, and each of its
  methods is proved against the function of the same name; the interleavings of the
  sections are modelled in module Interleaving.
 */
module Session {
  import opened Prelude

  datatype Phase =
    | Disconnected
    | Selecting
    | Preparing
    | StartingCore
    | WaitingForReady
    | Connected
    | Verifying
    | ConnectedVerified
    | Disconnecting
    | ConnectionFailed
  {
    // `State.Active`: note that Disconnecting is not active.
    predicate Active() {
      Selecting? || Preparing? || StartingCore? || WaitingForReady? || ConnectedLike()
    }

    predicate ConnectedLike() {
      Connected? || Verifying? || ConnectedVerified?
    }
  }

  // A launched core process.
  type Inst = nat

  // A monitor goroutine pair (`monitorCancel` and `monitorDone` of one startMonitor call).
  type MonitorId = nat

  datatype AttemptRecord = AttemptRecord(candidate: nat, ok: bool)

  // The options that steer the protocol. `New` replaces a non-positive threshold by 3.
  datatype Policy = Policy(skip: bool, threshold: nat, interval: int, grace: int) {
    ghost predicate Valid() { threshold >= 1 }

    // The phase an accepted attempt ends in.
    function Settled(): Phase { if skip then Connected else ConnectedVerified }
  }

  // Zero times of the source are None.
  datatype Manager = Manager(
    phase: Phase,
    slot: Option<Inst>,
    generation: nat,
    attempts: seq<AttemptRecord>,
    lastVerify: Option<bool>,
    verifiedAt: Option<int>,
    verifyFailures: nat,
    nextVerifyAt: Option<int>,
    monitor: Option<MonitorId>,
    shutdown: bool)
  {
    predicate Accepts() { !shutdown && !phase.Active() }

    function AcceptConnect(): Manager {
      this.(generation := generation + 1, phase := Selecting, attempts := [])
    }

    // A phase write behind a generation gate.
    function EnterAt(gen: nat, next: Phase): Manager {
      if generation == gen then this.(phase := next) else this
    }

    function PublishAt(gen: nat, x: Inst): Manager {
      if generation == gen then this.(phase := WaitingForReady, slot := Some(x)) else this
    }

    function ReadyAt(gen: nat, x: Inst): Manager {
      if generation == gen then this.(phase := Connected, slot := Some(x)) else this
    }

    function ClearUnreadyAt(gen: nat, x: Inst): Manager {
      if generation == gen && slot == Some(x) then this.(slot := None) else this
    }

    function ClearUnusableAt(gen: nat): Manager {
      if generation == gen then this.(slot := None, phase := Selecting) else this
    }

    // Applies one end-to-end verification result: the connect-time probe and
    // VerifyConnected share this rule.
    function JudgeAt(gen: nat, ok: bool, now: int, interval: int): Manager {
      if generation != gen then this
      else if ok then
        this.(lastVerify := Some(true), verifiedAt := Some(now), verifyFailures := 0,
              nextVerifyAt := Some(now + interval))
      else this.(lastVerify := Some(false))
    }

    function RecordAt(gen: nat, r: AttemptRecord): Manager {
      if generation == gen then this.(attempts := attempts + [r]) else this
    }

    function FailAt(gen: nat): Manager {
      if generation == gen then this.(phase := ConnectionFailed, slot := None) else this
    }

    function BeginDisconnect(): Manager {
      this.(generation := generation + 1)
    }

    function TakeDown(): Manager {
      this.(slot := None, phase := Disconnecting, verifyFailures := 0,
            nextVerifyAt := None, verifiedAt := None, lastVerify := None)
    }

    predicate RecheckDue(p: Policy, gen: nat, now: int) {
      && phase == ConnectedVerified && !p.skip
      && generation == gen
      && nextVerifyAt.Some? && nextVerifyAt.value <= now
    }

    function ReserveRecheck(p: Policy, gen: nat, now: int): Manager {
      if RecheckDue(p, gen, now) then this.(nextVerifyAt := Some(now + p.interval)) else this
    }

    // A failed recheck that reaches the threshold ends the session.
    predicate TearsDown(p: Policy, gen: nat, ok: bool) {
      generation == gen && !ok && verifyFailures + 1 >= p.threshold
    }

    function ApplyRecheck(p: Policy, gen: nat, ok: bool, now: int): Manager {
      if generation != gen then this
      else if ok then JudgeAt(gen, true, now, p.interval)
      else if TearsDown(p, gen, ok) then
        this.(lastVerify := Some(false), slot := None, verifyFailures := 0,
              phase := Disconnecting, generation := generation + 1)
      else
        this.(lastVerify := Some(false), verifyFailures := verifyFailures + 1,
              nextVerifyAt := Some(now + p.grace))
    }

    function FinishTeardown(): Manager {
      if phase == Disconnecting then this.(phase := ConnectionFailed) else this
    }

    predicate CrashApplies(gen: nat) {
      generation == gen && phase.ConnectedLike()
    }

    function CrashAt(gen: nat): Manager {
      if CrashApplies(gen) then
        this.(phase := ConnectionFailed, slot := None, generation := generation + 1)
      else this
    }
  }

  const FRESH_MANAGER := Manager(Disconnected, None, 0, [], None, None, 0, None, None, false)

  /** The manager as the source writes it: fields assigned under the lock. */
  class SessionManager {
    var phase: Phase
    var slot: Option<Inst>
    var generation: nat
    var attempts: seq<AttemptRecord>
    var lastVerify: Option<bool>
    var verifiedAt: Option<int>
    var verifyFailures: nat
    var nextVerifyAt: Option<int>
    var monitor: Option<MonitorId>
    var shutdown: bool
    const policy: Policy

    function View(): Manager
      reads this
    {
      Manager(phase, slot, generation, attempts, lastVerify, verifiedAt, verifyFailures,
              nextVerifyAt, monitor, shutdown)
    }

    constructor (skip: bool, threshold: int, interval: int, grace: int)
      ensures View() == FRESH_MANAGER
      ensures policy.Valid() && policy.skip == skip
      ensures policy.threshold == (if threshold <= 0 then 3 else threshold)
      ensures policy.interval == (if interval <= 0 then 30_000 else interval)
      ensures policy.grace == (if grace <= 0 then 8_000 else grace)
    {
      phase, slot, generation, attempts := Disconnected, None, 0, [];
      lastVerify, verifiedAt, verifyFailures, nextVerifyAt := None, None, 0, None;
      monitor, shutdown := None, false;
      policy := Policy(skip, if threshold <= 0 then 3 else threshold,
                       if interval <= 0 then 30_000 else interval,
                       if grace <= 0 then 8_000 else grace);
    }

    method AcceptConnect() returns (gen: Option<nat>)
      modifies this
      ensures gen.Some? <==> old(View().Accepts())
      ensures gen.Some? ==> View() == old(View()).AcceptConnect() && gen.value == generation
      ensures gen.None? ==> View() == old(View())
    {
      if shutdown { return None; }
      if phase.Active() { return None; }
      generation := generation + 1;
      phase := Selecting;
      attempts := [];
      gen := Some(generation);
    }

    method Publish(gen: nat, x: Inst) returns (stale: bool)
      modifies this
      ensures View() == old(View()).PublishAt(gen, x)
      ensures stale <==> old(generation) != gen
    {
      if generation != gen { return true; }
      phase := WaitingForReady;
      slot := Some(x);
      stale := false;
    }

    method MarkReady(gen: nat, x: Inst) returns (stale: bool)
      modifies this
      ensures View() == old(View()).ReadyAt(gen, x)
      ensures stale <==> old(generation) != gen
    {
      if generation != gen { return true; }
      slot := Some(x);
      phase := Connected;
      stale := false;
    }

    // The write that carries no generation gate.
    method BeginVerifying()
      modifies this`phase
      ensures View() == old(View()).(phase := Verifying)
    {
      phase := Verifying;
    }

    method Judge(gen: nat, ok: bool, now: int) returns (stale: bool)
      modifies this
      ensures View() == old(View()).JudgeAt(gen, ok, now, policy.interval)
      ensures stale <==> old(generation) != gen
    {
      if generation != gen { return true; }
      lastVerify := Some(ok);
      if ok {
        verifiedAt := Some(now);
        verifyFailures := 0;
        nextVerifyAt := Some(now + policy.interval);
      }
      stale := false;
    }

    // Generation 0 stands for a caller that cannot be superseded.
    method Fail(gen: nat)
      modifies this
      ensures View() == old(View()).FailAt(if gen == 0 then old(generation) else gen)
    {
      if gen == 0 || generation == gen {
        phase := ConnectionFailed;
        slot := None;
      }
    }

    method TakeDown() returns (taken: Option<Inst>)
      modifies this
      ensures View() == old(View()).TakeDown() && taken == old(slot)
    {
      taken := slot;
      slot := None;
      phase := Disconnecting;
      verifyFailures := 0;
      nextVerifyAt := None;
      verifiedAt := None;
      lastVerify := None;
    }

    // Returns the instance the caller must close when the threshold is reached.
    method ApplyRecheck(gen: nat, ok: bool, now: int) returns (torn: bool, taken: Option<Inst>)
      modifies this
      ensures View() == old(View()).ApplyRecheck(policy, gen, ok, now)
      ensures torn == old(View()).TearsDown(policy, gen, ok)
      ensures taken == if torn then old(slot) else None
    {
      torn, taken := false, None;
      if generation != gen { return; }
      lastVerify := Some(ok);
      if ok {
        verifyFailures := 0;
        verifiedAt := Some(now);
        nextVerifyAt := Some(now + policy.interval);
        return;
      }
      verifyFailures := verifyFailures + 1;
      if verifyFailures < policy.threshold {
        nextVerifyAt := Some(now + policy.grace);
        return;
      }
      torn, taken := true, slot;
      slot := None;
      verifyFailures := 0;
      phase := Disconnecting;
      generation := generation + 1;
    }

    method HandleCrash(gen: nat)
      modifies this
      ensures View() == old(View()).CrashAt(gen)
    {
      if generation == gen && phase.ConnectedLike() {
        phase := ConnectionFailed;
        slot := None;
        generation := generation + 1;
      }
    }
  }
}
