/**
  The lifecycle of one supervised process in system/system.go: the wait goroutine, which
  classifies the exit and reaps the supervision domain, interleaved with any number of
  Stop callers. One step is one section under `m.mu`, one channel operation or one call
  into the platform layer; process death, timeouts and cancellation are chosen freely.
 */
module Supervision {
  import opened Prelude

  datatype ProcessState = Running | Stopping | Stopped | Cancelled | Exited

  // `failed` of a stop says that the process survived forced termination.
  datatype Proc = Proc(
    state: ProcessState,
    stopStarted: bool,
    stopFailed: Option<bool>,   // stopErr, once recorded
    bound: bool,                // the process was started with a kill handle
    job: bool,                  // the handle is still owned
    jobClosed: nat,             // calls of job.close
    reaped: bool,
    exitedClosed: nat,          // closes of the `exited` channel
    stopDoneClosed: nat,        // closes of the `stopDone` channel
    terminations: nat,          // runs of terminateProcess
    polite: nat,                // requests to end, and
    forced: nat)                // forced terminations, sent to the process
  {
    // The first section of Stop; `stopped` always equals `stopStarted`.
    function BeginStop(): Proc {
      if stopStarted then this
      else this.(stopStarted := true, state := if state == Running then Stopping else state)
    }

    function RecordStop(failed: bool): Proc {
      this.(stopFailed := Some(failed),
            state := if state == Running || state == Stopping then Stopped else state)
    }

    function Finish(s: ProcessState): Proc {
      if state == Running then this.(state := s) else this
    }
  }

  /** The sections as the source writes them; the ghost fields count what they never touch. */
  class ManagedProcess {
    const bound: bool
    var state: ProcessState
    var stopped: bool
    var stopStarted: bool
    var stopFailed: Option<bool>
    var job: bool
    ghost var jobClosed: nat
    ghost var reaped: bool
    ghost var exitedClosed: nat
    ghost var stopDoneClosed: nat
    ghost var terminations: nat
    ghost var polite: nat
    ghost var forced: nat

    ghost function View(): Proc
      reads this
    {
      Proc(state, stopStarted, stopFailed, bound, job, jobClosed, reaped, exitedClosed, stopDoneClosed, terminations,
           polite, forced)
    }

    constructor (bound: bool)
      ensures View() == Proc(Running, false, None, bound, bound, 0, false, 0, 0, 0, 0, 0) && stopped == stopStarted
    {
      this.bound, state, stopped, stopStarted, stopFailed, job := bound, Running, false, false, None, bound;
      jobClosed, reaped, exitedClosed, stopDoneClosed, terminations := 0, false, 0, 0, 0;
      polite, forced := 0, 0;
    }

    // first says that the caller runs the termination itself.
    method BeginStop() returns (first: bool)
      requires stopped == stopStarted
      modifies this`stopStarted, this`stopped, this`state
      ensures first <==> !old(stopStarted)
      ensures View() == old(View()).BeginStop() && stopped == stopStarted
    {
      if stopStarted { return false; }
      stopStarted := true;
      stopped := true;
      if state == Running { state := Stopping; }
      first := true;
    }

    method RecordStop(failed: bool)
      modifies this`stopFailed, this`state
      ensures View() == old(View()).RecordStop(failed)
    {
      stopFailed := Some(failed);
      if state == Running || state == Stopping { state := Stopped; }
    }

    method Finish(s: ProcessState)
      modifies this`state
      ensures View() == old(View()).Finish(s)
    {
      if state == Running { state := s; }
    }

    // closeJob swaps the handle out under the lock; the caller closes what it got.
    method TakeJob() returns (held: bool)
      modifies this`job
      ensures held == old(job) && View() == old(View()).(job := false)
    {
      held := job;
      job := false;
    }
  }

  // ---- Interleavings ----

  datatype WaitPc =
    | Waiting
    | Classify(clean: bool)
    | Record(s: ProcessState)
    | Reap
    | TakeJob
    | CloseJob(held: bool)
    | Signal
    | Over

  datatype StopPc =
    | Enter
    | AwaitOther              // <-stopDone
    | ReadResult
    | Polite
    | Grace
    | Hard
    | Deadline
    | TakeJobLate
    | CloseJobLate(had: bool)
    | RecordResult(failed: bool)
    | Announce(failed: bool)  // close(stopDone)
    | Returned(failed: bool)

  datatype World = World(p: Proc, wait: WaitPc, stops: map<nat, StopPc>)

  datatype Action =
    | CallStop(t: nat)
    | RunStop(t: nat, timeout: bool)
    | RunWait(clean: bool, cancelled: bool)

  ghost predicate Init(w: World) {
    && w.wait == Waiting && w.stops == map[]
    && w.p == Proc(Running, false, None, w.p.bound, w.p.bound, 0, false, 0, 0, 0, 0, 0)
  }

  function StepWait(w: World, clean: bool, cancelled: bool): (r: Option<World>) {
    match w.wait
    case Waiting => Some(w.(wait := Classify(clean)))
    case Classify(c) =>
      Some(w.(wait := Record(if c then Exited
                             else if w.p.stopStarted then Stopped
                             else if cancelled then Cancelled
                             else Exited)))
    case Record(s) => Some(w.(wait := Reap, p := w.p.Finish(s)))
    case Reap => Some(w.(wait := TakeJob, p := w.p.(reaped := true)))
    case TakeJob => Some(w.(wait := CloseJob(w.p.job), p := w.p.(job := false)))
    case CloseJob(h) => Some(w.(wait := Signal, p := w.p.(jobClosed := w.p.jobClosed + if h then 1 else 0)))
    case Signal => Some(w.(wait := Over, p := w.p.(exitedClosed := w.p.exitedClosed + 1)))
    case Over => None
  }

  function GotoStop(w: World, t: nat, pc: StopPc, p: Proc): World {
    w.(p := p, stops := w.stops[t := pc])
  }

  function StepStop(w: World, t: nat, timeout: bool): (r: Option<World>)
    requires t in w.stops
  {
    var p := w.p;
    match w.stops[t]
    case Enter =>
      Some(GotoStop(w, t, if p.stopStarted then AwaitOther else Polite,
                    if p.stopStarted then p
                    else p.BeginStop().(terminations := p.terminations + 1)))
    case AwaitOther => if p.stopDoneClosed == 0 then None else Some(GotoStop(w, t, ReadResult, p))
    case ReadResult =>
      if p.stopFailed.None? then None else Some(GotoStop(w, t, Returned(p.stopFailed.value), p))
    case Polite => Some(GotoStop(w, t, Grace, p.(polite := p.polite + 1)))
    case Grace =>
      // select takes either ready case
      if timeout then Some(GotoStop(w, t, Hard, p))
      else if p.exitedClosed > 0 then Some(GotoStop(w, t, TakeJobLate, p)) else None
    case Hard => Some(GotoStop(w, t, Deadline, p.(forced := p.forced + 1)))
    case Deadline =>
      if timeout then Some(GotoStop(w, t, RecordResult(true), p))
      else if p.exitedClosed > 0 then Some(GotoStop(w, t, TakeJobLate, p)) else None
    case TakeJobLate => Some(GotoStop(w, t, CloseJobLate(p.job), p.(job := false)))
    case CloseJobLate(had) =>
      Some(GotoStop(w, t, RecordResult(false), p.(jobClosed := p.jobClosed + if had then 1 else 0)))
    case RecordResult(f) => Some(GotoStop(w, t, Announce(f), p.RecordStop(f)))
    case Announce(f) => Some(GotoStop(w, t, Returned(f), p.(stopDoneClosed := p.stopDoneClosed + 1)))
    case Returned(_) => None
  }

  function Step(w: World, a: Action): (r: Option<World>) {
    match a
    case CallStop(t) => if t in w.stops then None else Some(w.(stops := w.stops[t := Enter]))
    case RunStop(t, timeout) => if t in w.stops then StepStop(w, t, timeout) else None
    case RunWait(clean, cancelled) => StepWait(w, clean, cancelled)
  }

  // The caller that runs the termination.
  predicate Terminating(pc: StopPc) {
    pc.Polite? || pc.Grace? || pc.Hard? || pc.Deadline? || pc.TakeJobLate? || pc.CloseJobLate?
    || pc.RecordResult? || pc.Announce?
  }

  ghost predicate StopOk(w: World, pc: StopPc) {
    match pc
    case Enter => true
    case AwaitOther => w.p.stopStarted
    case ReadResult => w.p.stopDoneClosed == 1
    case Announce(f) => w.p.stopFailed == Some(f) && (f || w.p.exitedClosed == 1)
    case Returned(f) => w.p.stopFailed == Some(f) && w.p.stopDoneClosed == 1
    case RecordResult(f) => w.p.stopFailed == None && (f || w.p.exitedClosed == 1)
    case TakeJobLate => w.p.stopFailed == None && w.p.exitedClosed == 1
    case CloseJobLate(had) => w.p.stopFailed == None && w.p.exitedClosed == 1 && !had
    case _ => w.p.stopFailed == None
  }

  ghost predicate WaitOk(w: World) {
    && w.p.exitedClosed == (if w.wait.Over? then 1 else 0)
    && (w.wait.TakeJob? || w.wait.CloseJob? || w.wait.Signal? || w.wait.Over? ==> w.p.reaped)
    && w.p.job == (w.p.bound && !w.wait.CloseJob? && !w.wait.Signal? && !w.wait.Over?)
    && (w.wait.CloseJob? ==> w.wait.held == w.p.bound)
    && w.p.jobClosed == (if w.p.bound && (w.wait.Signal? || w.wait.Over?) then 1 else 0)
    && (w.wait == Record(Stopped) ==> w.p.stopStarted)
  }

  ghost predicate Inv(w: World) {
    && WaitOk(w)
    && (forall t | t in w.stops :: StopOk(w, w.stops[t]))
    && (forall t, s | t in w.stops && s in w.stops ::
          Terminating(w.stops[t]) && Terminating(w.stops[s]) ==> t == s)
    && (forall t | t in w.stops && Terminating(w.stops[t]) ::
          w.p.stopStarted && w.p.stopDoneClosed == 0)
    && w.p.terminations == (if w.p.stopStarted then 1 else 0)
    && w.p.stopDoneClosed <= 1
    && (w.p.stopDoneClosed == 1 ==> w.p.stopFailed.Some?)
    && (!w.p.stopStarted ==> w.p.stopFailed == None && w.p.stopDoneClosed == 0)
    && (w.p.stopFailed == Some(false) ==> w.p.exitedClosed == 1)
    && (w.p.stopStarted ==> w.p.state != Running)
  }

  lemma WaitKeepsInv(w: World, clean: bool, cancelled: bool, w': World)
    requires Inv(w) && StepWait(w, clean, cancelled) == Some(w')
    ensures Inv(w')
  {
    forall t | t in w'.stops ensures StopOk(w', w'.stops[t]) { assert StopOk(w, w.stops[t]); }
  }

  lemma EnterKeepsInv(w: World, t: nat, timeout: bool, w': World)
    requires Inv(w) && t in w.stops && StepStop(w, t, timeout) == Some(w')
    requires w.stops[t].Enter?
    ensures Inv(w')
  {
    assert StopOk(w, w.stops[t]);
    forall s | s in w'.stops ensures StopOk(w', w'.stops[s]) { assert StopOk(w, w.stops[s]); }
  }

  lemma ResultKeepsInv(w: World, t: nat, timeout: bool, w': World)
    requires Inv(w) && t in w.stops && StepStop(w, t, timeout) == Some(w')
    requires w.stops[t].RecordResult? || w.stops[t].Announce?
    ensures Inv(w')
  {
    assert StopOk(w, w.stops[t]);
    forall s | s in w'.stops ensures StopOk(w', w'.stops[s]) { assert StopOk(w, w.stops[s]); }
  }

  lemma OtherStopKeepsInv(w: World, t: nat, timeout: bool, w': World)
    requires Inv(w) && t in w.stops && StepStop(w, t, timeout) == Some(w')
    requires !w.stops[t].Enter? && !w.stops[t].RecordResult? && !w.stops[t].Announce?
    ensures Inv(w')
  {
    assert StopOk(w, w.stops[t]);
    forall s | s in w'.stops ensures StopOk(w', w'.stops[s]) { assert StopOk(w, w.stops[s]); }
  }

  lemma StopKeepsInv(w: World, t: nat, timeout: bool, w': World)
    requires Inv(w) && t in w.stops && StepStop(w, t, timeout) == Some(w')
    ensures Inv(w')
  {
    match w.stops[t]
    case Enter => EnterKeepsInv(w, t, timeout, w');
    case RecordResult(_) => ResultKeepsInv(w, t, timeout, w');
    case Announce(_) => ResultKeepsInv(w, t, timeout, w');
    case _ => OtherStopKeepsInv(w, t, timeout, w');
  }

  lemma StepKeepsInv(w: World, a: Action, w': World)
    requires Inv(w) && Step(w, a) == Some(w')
    ensures Inv(w')
  {
    match a
    case CallStop(t) =>
      forall s | s in w'.stops ensures StopOk(w', w'.stops[s]) {
        if s in w.stops { assert StopOk(w, w.stops[s]); }
      }
    case RunStop(t, timeout) => StopKeepsInv(w, t, timeout, w');
    case RunWait(clean, cancelled) => WaitKeepsInv(w, clean, cancelled, w');
  }

  function Exec(w: World, acts: seq<Action>): (r: Option<World>)
    decreases |acts|
  {
    if acts == [] then Some(w)
    else
      var next := Step(w, acts[0]);
      if next.None? then None else Exec(next.value, acts[1..])
  }

  lemma {:induction false} RunsKeepInv(w: World, acts: seq<Action>)
    requires Inv(w) && Exec(w, acts).Some?
    ensures Inv(Exec(w, acts).value)
    decreases |acts|
  {
    if acts != [] {
      var next := Step(w, acts[0]).value;
      StepKeepsInv(w, acts[0], next);
      RunsKeepInv(next, acts[1..]);
    }
  }

  ghost predicate Reachable(w: World) {
    exists w0, acts :: Init(w0) && Exec(w0, acts) == Some(w)
  }

  lemma ReachableInv(w: World)
    requires Reachable(w)
    ensures Inv(w)
  {
    var w0, acts :| Init(w0) && Exec(w0, acts) == Some(w);
    RunsKeepInv(w0, acts);
  }

  /**
    In every reachable state: termination ran at most once, no channel was closed twice
    and the job handle at most once, every returned Stop saw the recorded result, and a
    Stop that returned without error did so after the exit was signalled.
   */
  lemma StopIsIdempotent(w: World)
    requires Reachable(w)
    ensures w.p.terminations <= 1 && w.p.exitedClosed <= 1 && w.p.stopDoneClosed <= 1 && w.p.jobClosed <= 1
    ensures forall t, s | t in w.stops && s in w.stops && w.stops[t].Returned? && w.stops[s].Returned? ::
      w.stops[t].failed == w.stops[s].failed
    ensures forall t | t in w.stops && w.stops[t] == Returned(false) :: w.p.exitedClosed == 1
  {
    ReachableInv(w);
    forall t | t in w.stops ensures StopOk(w, w.stops[t]) {}
  }

  /** The exit is signalled only after descendants were reaped and the job was closed. */
  lemma ExitSignalledLast(w: World)
    requires Reachable(w) && w.p.exitedClosed > 0
    ensures w.p.reaped && (w.p.bound ==> w.p.jobClosed == 1)
  {
    ReachableInv(w);
  }

  predicate Transition(s: ProcessState, s': ProcessState) {
    || s == s'
    || (s == Running && (s' == Stopping || s' == Exited || s' == Cancelled))
    || (s == Stopping && s' == Stopped)
  }

  /** The state follows only the documented transitions. */
  lemma StateFollowsDiagram(w: World, a: Action, w': World)
    requires Reachable(w) && Step(w, a) == Some(w')
    ensures Transition(w.p.state, w'.p.state)
  {
    ReachableInv(w);
    if a.RunStop? { assert StopOk(w, w.stops[a.t]); }
  }

  // ---- Escalation ----

  // What has been sent to the process when a Stop stands at pc.
  predicate Sent(p: Proc, pc: StopPc) {
    match pc
    case Enter => true
    case AwaitOther => true
    case Polite => p.polite == 0 && p.forced == 0
    case Grace => p.polite == 1 && p.forced == 0
    case Hard => p.polite == 1 && p.forced == 0
    case Deadline => p.polite == 1 && p.forced == 1
    case RecordResult(failed) => p.polite == 1 && (failed ==> p.forced == 1)
    case Announce(failed) => p.polite == 1 && (failed ==> p.forced == 1)
    case Returned(failed) => p.polite == 1 && (failed ==> p.forced == 1)
    case _ => p.polite == 1
  }

  ghost predicate Escalates(w: World) {
    && w.p.forced <= w.p.polite <= w.p.terminations
    && (w.p.stopFailed.Some? ==> w.p.polite == 1 && w.p.state != Stopping)
    && (w.p.stopFailed == Some(true) ==> w.p.forced == 1)
    && forall t | t in w.stops :: Sent(w.p, w.stops[t])
  }

  lemma SendingKeepsEscalation(w: World, t: nat, timeout: bool, w': World)
    requires Inv(w) && Escalates(w) && t in w.stops && StepStop(w, t, timeout) == Some(w')
    requires Terminating(w.stops[t])
    ensures Escalates(w')
  {
    assert Sent(w.p, w.stops[t]) && StopOk(w, w.stops[t]);
    forall s | s in w'.stops ensures Sent(w'.p, w'.stops[s]) {
      assert Sent(w.p, w.stops[s]) && StopOk(w, w.stops[s]);
    }
  }

  lemma CallingKeepsEscalation(w: World, t: nat, timeout: bool, w': World)
    requires Inv(w) && Escalates(w) && t in w.stops && StepStop(w, t, timeout) == Some(w')
    requires !Terminating(w.stops[t])
    ensures Escalates(w')
  {
    assert Sent(w.p, w.stops[t]) && StopOk(w, w.stops[t]);
    forall s | s in w'.stops ensures Sent(w'.p, w'.stops[s]) {
      assert Sent(w.p, w.stops[s]) && StopOk(w, w.stops[s]);
    }
  }

  lemma StepKeepsEscalation(w: World, a: Action, w': World)
    requires Inv(w) && Escalates(w) && Step(w, a) == Some(w')
    ensures Escalates(w')
  {
    match a
    case CallStop(t) =>
    case RunStop(t, timeout) =>
      if Terminating(w.stops[t]) {
        SendingKeepsEscalation(w, t, timeout, w');
      } else {
        CallingKeepsEscalation(w, t, timeout, w');
      }
    case RunWait(clean, cancelled) =>
  }

  lemma {:induction false} RunsEscalate(w: World, acts: seq<Action>)
    requires Inv(w) && Escalates(w) && Exec(w, acts).Some?
    ensures Escalates(Exec(w, acts).value)
    decreases |acts|
  {
    if acts != [] {
      var next := Step(w, acts[0]).value;
      StepKeepsInv(w, acts[0], next);
      StepKeepsEscalation(w, acts[0], next);
      RunsEscalate(next, acts[1..]);
    }
  }

  /**
    In every interleaving the process is asked to end before it is forced, each at most once
    for all Stop callers together; a Stop that reports failure has forced it, and once any
    Stop returned, the process is no longer running or stopping.
   */
  lemma ForcedOnlyAfterAsking(w: World)
    requires Reachable(w)
    ensures w.p.forced <= w.p.polite <= w.p.terminations <= 1
    ensures forall t | t in w.stops && w.stops[t].Returned? :: w.p.polite == 1 && w.p.state != Running
                                                              && w.p.state != Stopping
    ensures forall t | t in w.stops && w.stops[t] == Returned(true) :: w.p.forced == 1
  {
    var w0, acts :| Init(w0) && Exec(w0, acts) == Some(w);
    RunsEscalate(w0, acts);
    ReachableInv(w);
    forall t | t in w.stops ensures Sent(w.p, w.stops[t]) && StopOk(w, w.stops[t]) {}
  }

  /**
    How an exit is classified: a clean one as exited, an unclean one as stopped once a Stop
    has begun, as cancelled if the caller's context ended, and else as exited too.
   */
  lemma ExitIsClassified(w: World, clean: bool, cancelled: bool, w': World)
    requires w.wait.Classify? && StepWait(w, clean, cancelled) == Some(w')
    ensures w'.wait.Record? && w'.p == w.p
    ensures w'.wait.s == Stopped <==> !w.wait.clean && w.p.stopStarted
    ensures w'.wait.s == Cancelled <==> !w.wait.clean && !w.p.stopStarted && cancelled
    ensures w'.wait.s in {Stopped, Cancelled, Exited}
  {
  }
}
