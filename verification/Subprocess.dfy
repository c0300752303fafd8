/** The POSIX worker of a child process against concurrent cancellations, under sequential consistency. */
module Subprocess {
  import opened Runs

  datatype Child = Unborn | Running | Exited | Reaped

  /** Where the worker stands in spawn_sync. */
  datatype Worker =
    | Forking
    | Forked          // child exists, pid not yet published
    | Published       // about to read the cancelled flag
    | MustKill        // read it as true
    | Draining        // head of the pipe-drain loop
    | Polling
    | Reaping         // the WNOHANG loop after both pipes closed
    | Idling          // not reaped yet: deadline and flag checks of that loop
    | Grace           // SIGTERM was sent, or the caller's kill_now sends it
    | Killing
    | Blocking        // the final blocking waitpid
    | Detaching
    | Returned

  /** A kill_now call: flag stored, then pid loaded, then the signal. */
  datatype Killer = Waiting | Flagged | Loaded(pid: bool) | Finished

  /** `pid` says that the channel holds the child's pid; `waitFailed` that a waitpid on the child reported an error. */
  datatype State = State(
    pid: bool,
    cancelled: bool,
    child: Child,
    signalled: bool,
    timedOut: bool,
    resultCancelled: bool,
    waitFailed: bool,
    worker: Worker,
    killers: seq<Killer>)

  /** The environment's choices for a worker step. */
  datatype Answer = ForkFails | DeadlinePassed | PipesClosed | WaitError | Otherwise

  datatype Act = Work(answer: Answer) | Kill(k: nat) | ChildExits

  predicate Enabled(s: State, a: Act)
  {
    match a
    case Work(answer) =>
      && !s.worker.Returned?
      // a blocking wait returns only for an exited child or with an error
      && (s.worker.Blocking? ==> s.child.Exited? || answer.WaitError?)
    case Kill(k) => k < |s.killers| && !s.killers[k].Finished?
    case ChildExits => s.child.Running?
  }

  /** kill(2): reaches the child unless it was reaped already. */
  function Signal(s: State): State
  {
    if s.child.Running? || s.child.Exited? then s.(signalled := true) else s
  }

  function WorkStep(s: State, answer: Answer): State
  {
    match s.worker
    case Forking => if answer.ForkFails? then s.(worker := Returned) else s.(child := Running, worker := Forked)
    case Forked => s.(pid := true, worker := Published)
    case Published => s.(worker := if s.cancelled then MustKill else Draining)
    case MustKill => Signal(s).(worker := Draining)
    case Draining =>
      if answer.DeadlinePassed? then Signal(s).(timedOut := true, worker := Grace)
      else if s.cancelled then s.(resultCancelled := true, worker := Grace)
      else s.(worker := Polling)
    case Polling => s.(worker := if answer.PipesClosed? then Reaping else Draining)
    case Reaping =>
      if answer.WaitError? then s.(waitFailed := true, pid := false, worker := Returned)
      else if s.child.Exited? then s.(child := Reaped, worker := Detaching)
      else s.(worker := Idling)
    case Idling =>
      if answer.DeadlinePassed? then Signal(s).(timedOut := true, worker := Grace)
      else if s.cancelled then s.(resultCancelled := true, worker := Grace)
      else s.(worker := Reaping)
    case Grace =>
      if answer.WaitError? || answer.DeadlinePassed? then s.(worker := Killing)
      else if s.child.Exited? then s.(child := Reaped, worker := Detaching)
      else s
    case Killing => Signal(s).(worker := Blocking)
    case Blocking =>
      if answer.WaitError? then s.(waitFailed := true, worker := Detaching)
      else s.(child := Reaped, worker := Detaching)
    case Detaching => s.(pid := false, worker := Returned)
    case Returned => s
  }

  function KillStep(s: State, k: nat): State
    requires k < |s.killers|
  {
    match s.killers[k]
    case Waiting => s.(cancelled := true, killers := s.killers[k := Flagged])
    case Flagged => s.(killers := s.killers[k := Loaded(s.pid)])
    case Loaded(pid) => (if pid then Signal(s) else s).(killers := s.killers[k := Finished])
    case Finished => s
  }

  function Apply(s: State, a: Act): State
    requires Enabled(s, a)
  {
    match a
    case Work(answer) => WorkStep(s, answer)
    case Kill(k) => KillStep(s, k)
    case ChildExits => s.(child := Exited)
  }

  ghost predicate Init(s: State)
  {
    && s == State(false, false, Unborn, false, false, false, false, Forking, s.killers)
    && forall k :: 0 <= k < |s.killers| ==> s.killers[k] == Waiting
  }

  ghost predicate Next(s: State, s': State)
  {
    exists a :: Enabled(s, a) && s' == Apply(s, a)
  }

  /** The worker has not yet decided whether it must signal the child itself. */
  predicate BeforeHandshake(w: Worker)
  {
    w.Forking? || w.Forked? || w.Published? || w.MustKill?
  }

  /** This call has read the channel as empty, or is over. */
  predicate Past(k: Killer)
  {
    k == Loaded(false) || k.Finished?
  }

  /** The child needs no signal any more. */
  predicate Safe(s: State)
  {
    s.signalled || !s.child.Running? || s.waitFailed
  }

  ghost predicate Inv(s: State)
  {
    && (s.pid <==> !s.worker.Forking? && !s.worker.Forked? && !s.worker.Returned?)
    && (s.worker.Forking? ==> s.child.Unborn?)
    && (!s.worker.Forking? && !s.worker.Returned? ==> !s.child.Unborn?)
    && (s.worker.Detaching? || s.worker.Returned? ==> s.child.Reaped? || s.child.Unborn? || s.waitFailed)
    && (s.child.Reaped? ==> s.worker.Detaching? || s.worker.Returned?)
    && (s.waitFailed ==> s.worker.Detaching? || s.worker.Returned?)
    && (s.worker.MustKill? ==> s.cancelled)
    && (s.resultCancelled ==> s.cancelled)
    && (forall k :: 0 <= k < |s.killers| && !s.killers[k].Waiting? ==> s.cancelled)
    && (forall k :: 0 <= k < |s.killers| && Past(s.killers[k]) ==> BeforeHandshake(s.worker) || Safe(s))
  }

  lemma StepInv(s: State, a: Act)
    requires Inv(s) && Enabled(s, a)
    ensures Inv(Apply(s, a))
  {
    match a
    case Work(answer) => WorkInv(s, answer);
    case Kill(k) => KillInv(s, k);
    case ChildExits =>
  }

  lemma WorkInv(s: State, answer: Answer)
    requires Inv(s) && Enabled(s, Work(answer))
    ensures Inv(WorkStep(s, answer))
  {
    if BeforeHandshake(s.worker) {
      HandshakeInv(s, answer);
    } else if s.worker.Draining? || s.worker.Polling? {
      DrainInv(s, answer);
    } else if s.worker.Reaping? || s.worker.Idling? {
      ReapInv(s, answer);
    } else {
      EndInv(s, answer);
    }
  }

  lemma HandshakeInv(s: State, answer: Answer)
    requires Inv(s) && BeforeHandshake(s.worker)
    ensures Inv(WorkStep(s, answer))
  {
  }

  lemma DrainInv(s: State, answer: Answer)
    requires Inv(s) && (s.worker.Draining? || s.worker.Polling?)
    ensures Inv(WorkStep(s, answer))
  {
  }

  lemma ReapInv(s: State, answer: Answer)
    requires Inv(s) && (s.worker.Reaping? || s.worker.Idling?)
    ensures Inv(WorkStep(s, answer))
  {
  }

  lemma EndInv(s: State, answer: Answer)
    requires Inv(s) && Enabled(s, Work(answer))
    requires s.worker.Grace? || s.worker.Killing? || s.worker.Blocking? || s.worker.Detaching?
    ensures Inv(WorkStep(s, answer))
  {
  }

  lemma KillInv(s: State, k: nat)
    requires Inv(s) && Enabled(s, Kill(k))
    ensures Inv(KillStep(s, k))
  {
  }

  lemma Invariant(s: State)
    requires Reachable(Init, Next, s)
    ensures Inv(s)
  {
    forall x, y | Inv(x) && Next(x, y) ensures Inv(y) {
      var a :| Enabled(x, a) && y == Apply(x, a);
      StepInv(x, a);
    }
    ReachableInvariant(Init, Next, Inv, s);
  }

  /** No cancellation falls between the two: once a kill_now call is over and the worker is past its own check, the child was signalled or is no longer running, or a wait on it failed. The worker reports a failed wait without hang; the result of its last, blocking wait is ignored, so one that is interrupted there leaves a zombie unreported. */
  lemma CancellationIsNotLost(s: State, k: nat)
    requires Reachable(Init, Next, s)
    requires k < |s.killers| && s.killers[k].Finished? && !BeforeHandshake(s.worker)
    ensures s.signalled || s.child.Exited? || s.child.Reaped? || s.child.Unborn? || s.waitFailed
  {
    Invariant(s);
  }

  /** When the worker returns there is no zombie: the child was reaped, was never born, or a wait on it failed. */
  lemma NoZombie(s: State)
    requires Reachable(Init, Next, s) && s.worker.Returned?
    ensures s.child.Reaped? || s.child.Unborn? || s.waitFailed
    ensures !s.pid
    ensures s.resultCancelled ==> s.cancelled
  {
    Invariant(s);
  }

  /** A kill_now call that reads the channel after the worker has detached the pid sends nothing. */
  lemma LateCallSendsNothing(s: State, k: nat)
    requires Reachable(Init, Next, s) && s.worker.Returned?
    requires k < |s.killers| && s.killers[k].Flagged?
    ensures KillStep(KillStep(s, k), k) == s.(killers := s.killers[k := Finished])
  {
    Invariant(s);
  }
}
