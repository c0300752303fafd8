/** One run of the pipeline together with the registry: what a cancel call does to the run whose guard it finds. */
module CancelledRuns {
  import opened Wrappers
  import opened Runs
  import A = ActiveTasks
  import P = Pipeline
  import C = PipelineCoverage

  /** The registry's world, the guard of this run in it, the run, and whether its coroutine was cancelled from outside. */
  datatype Joint = Joint(world: A.World, g: nat, run: P.State, interrupted: bool)

  datatype Act =
    | Others(act: A.Act)                         // other runs, and all cancel calls
    | Advance(env: P.Answers, now: int)
    | UploadEnds(file: string, error: Option<string>)

  /** The guard's flag, which the run reads. */
  predicate Flag(w: A.World, g: nat)
  {
    g < |w.guards| && w.guards[g].cell < |w.cells| && w.cells[w.guards[g].cell]
  }

  ghost predicate Enabled(j: Joint, a: Act)
  {
    match a
    case Others(act) => A.Enabled(j.world, act) && act != A.Leave(j.g)
    case Advance(_, _) => !j.run.pc.Done? && (j.run.pc.Ending? ==> A.Enabled(j.world, A.Leave(j.g)))
    case UploadEnds(file, _) => file in j.run.up.active
  }

  ghost function Apply(j: Joint, a: Act): Joint
    requires Enabled(j, a)
  {
    match a
    case Others(act) =>
      var w := A.Apply(j.world, act);
      j.(world := w, run := j.run.(flag := Flag(w, j.g)))
    case Advance(env, now) =>
      // leaving the function destroys the guard
      j.(world := if j.run.pc.Ending? then A.Apply(j.world, A.Leave(j.g)) else j.world,
         run := P.Advance(j.run, env, now),
         interrupted := j.interrupted || (j.run.pc.Head? && env.cancelled))
    case UploadEnds(file, error) => j.(run := P.Apply(j.run, P.UploadEnds(file, error)))
  }

  /** A run starts by entering the registry, in whatever state that is. */
  ghost predicate Init(j: Joint)
  {
    && !j.interrupted && P.Init(j.run)
    && exists w :: StartsIn(w, j)
  }

  ghost predicate StartsIn(w: A.World, j: Joint)
  {
    var id := j.run.task.metadata.id;
    && Reachable(A.Init, A.Next, w) && A.Enabled(w, A.Enter(id))
    && j.world == A.Apply(w, A.Enter(id)) && j.g == |w.guards|
  }

  ghost predicate Next(j: Joint, j': Joint)
  {
    exists a :: Enabled(j, a) && j' == Apply(j, a)
  }

  predicate ByCancel(pc: P.Pc)
  {
    || pc == P.Draining(P.ByCancel) || pc == P.Closing(P.ByCancel)
    || (P.Over(pc) && pc.verdict.Failure? && pc.verdict.stage.AtCancel?)
  }

  ghost predicate Inv(j: Joint)
  {
    && Reachable(A.Init, A.Next, j.world) && P.Inv(j.run)
    && j.g < |j.world.guards|
    && j.run.flag == Flag(j.world, j.g)
    && (j.run.registered <==> j.world.guards[j.g].live)
    && (ByCancel(j.run.pc) ==> j.run.flag || j.interrupted)
  }

  lemma InitInv(j: Joint)
    requires Init(j)
    ensures Inv(j)
  {
    var w :| StartsIn(w, j);
    Extend(A.Init, A.Next, w, j.world);
    A.Invariant(w);
    A.Invariant(j.world);
  }

  lemma OthersInv(j: Joint, act: A.Act)
    requires Inv(j) && Enabled(j, Others(act))
    ensures Inv(Apply(j, Others(act)))
  {
    var w := A.Apply(j.world, act);
    Extend(A.Init, A.Next, j.world, w);
    A.Invariant(j.world);
    A.Invariant(w);
    assert w.guards[j.g] == j.world.guards[j.g];
    assert Flag(j.world, j.g) ==> Flag(w, j.g);
    if Flag(w, j.g) {
      P.StepInv(j.run, P.CancelRequest);
      assert j.run.(flag := true) == P.Apply(j.run, P.CancelRequest);
    } else {
      assert j.run.(flag := false) == j.run;
    }
  }

  lemma AdvanceInv(j: Joint, env: P.Answers, now: int)
    requires Inv(j) && Enabled(j, Advance(env, now))
    ensures Inv(Apply(j, Advance(env, now)))
  {
    P.StepInv(j.run, P.Step(env, now));
    SameFlag(j.run, env, now);
    if j.run.pc.Ending? {
      Extend(A.Init, A.Next, j.world, A.Apply(j.world, A.Leave(j.g)));
    }
  }

  /** Steps of the run do not touch the flag; they leave the registry when the run ends, and turn to the cancel path at the loop head only. */
  ghost predicate Untouched(s: P.State, env: P.Answers, t: P.State)
  {
    && t.flag == s.flag
    && (t.registered <==> s.registered && !s.pc.Ending?)
    && (ByCancel(t.pc) ==> ByCancel(s.pc) || (s.pc.Head? && (s.flag || env.cancelled)))
  }

  lemma StartUntouched(s: P.State, env: P.Answers, now: int)
    requires P.TaskFits(s) && (s.pc.Started? || s.pc.Adding? || s.pc.Head?)
    ensures Untouched(s, env, P.Advance(s, env, now))
  {
  }

  lemma PollUntouched(s: P.State, env: P.Answers, now: int)
    requires P.TaskFits(s) && (s.pc.Polling? || s.pc.Scanning? || s.pc.Checking?)
    ensures Untouched(s, env, P.Advance(s, env, now))
  {
  }

  lemma SpawnUntouched(s: P.State, env: P.Answers, now: int)
    requires P.TaskFits(s) && (s.pc.Beginning? || s.pc.Spawning? || s.pc.Rendering? || s.pc.Tallying? || s.pc.Deciding?)
    ensures Untouched(s, env, P.Advance(s, env, now))
  {
  }

  lemma CloseUntouched(s: P.State, env: P.Answers, now: int)
    requires P.TaskFits(s) && (s.pc.Draining? || s.pc.Closing? || s.pc.Ending?)
    ensures Untouched(s, env, P.Advance(s, env, now))
  {
  }

  lemma FallbackUntouched(s: P.State, env: P.Answers, now: int)
    requires P.TaskFits(s) && (s.pc.Choosing? || s.pc.OneShot? || s.pc.Finishing?)
    ensures Untouched(s, env, P.Advance(s, env, now))
  {
  }

  lemma SameFlag(s: P.State, env: P.Answers, now: int)
    requires P.Inv(s) && !s.pc.Done?
    ensures Untouched(s, env, P.Advance(s, env, now))
  {
    if s.pc.Started? || s.pc.Adding? || s.pc.Head? {
      StartUntouched(s, env, now);
    } else if s.pc.Polling? || s.pc.Scanning? || s.pc.Checking? {
      PollUntouched(s, env, now);
    } else if s.pc.Draining? || s.pc.Closing? || s.pc.Ending? {
      CloseUntouched(s, env, now);
    } else if s.pc.Choosing? || s.pc.OneShot? || s.pc.Finishing? {
      FallbackUntouched(s, env, now);
    } else {
      SpawnUntouched(s, env, now);
    }
  }

  lemma EndsInv(j: Joint, file: string, error: Option<string>)
    requires Inv(j) && Enabled(j, UploadEnds(file, error))
    ensures Inv(Apply(j, UploadEnds(file, error)))
  {
    P.StepInv(j.run, P.UploadEnds(file, error));
  }

  lemma StepInv(j: Joint, a: Act)
    requires Inv(j) && Enabled(j, a)
    ensures Inv(Apply(j, a))
  {
    match a
    case Others(act) => OthersInv(j, act);
    case Advance(env, now) => AdvanceInv(j, env, now);
    case UploadEnds(file, error) => EndsInv(j, file, error);
  }

  lemma Invariant(j: Joint)
    requires Reachable(Init, Next, j)
    ensures Inv(j)
  {
    forall x | Init(x) ensures Inv(x) { InitInv(x); }
    forall x, y | Inv(x) && Next(x, y) ensures Inv(y) {
      var a :| Enabled(x, a) && y == Apply(x, a);
      StepInv(x, a);
    }
    ReachableInvariant(Init, Next, Inv, j);
  }

  /** A cancel call found this run's guard and has stored. */
  ghost predicate Asked(j: Joint)
  {
    exists c :: 0 <= c < |j.world.cancels| && j.world.cancels[c].stored && j.world.cancels[c].aimedAt == Some(j.g)
  }

  /** The run and the registry agree: the id is registered exactly while the run is not done, the flag is up exactly if a cancel call found this run, and a run is not cancelled unless somebody asked. */
  lemma CancelledOnlyIfAsked(j: Joint)
    requires Reachable(Init, Next, j)
    ensures j.g < |j.world.guards| && (j.world.guards[j.g].live <==> !j.run.pc.Done?)
    ensures j.run.flag <==> Asked(j)
    ensures j.run.task.state.Cancelled? ==> Asked(j) || j.interrupted
  {
    Invariant(j);
    A.FlagMeansCancelled(j.world, j.g);
    P.EndsClean(j.run);
  }

  /** A cancel call that found the run before a visit of the loop head is the end of it: from there on nothing more is uploaded, and the task can only become Cancelled. */
  lemma AskedIsCancelled(j: Joint, later: Joint)
    requires Reachable(Init, Next, j) && j.run.pc.Head? && Asked(j)
    requires Leads(Next, j, later)
    ensures later.run.up.started == j.run.up.started && later.run.oneShots == j.run.oneShots
    ensures P.Over(later.run.pc) ==> later.run.task.state.Cancelled?
  {
    CancelledOnlyIfAsked(j);
    Invariant(j);
    var inv := (x: Joint) => Inv(x) && C.Doomed(x.run, j.run.up.started, j.run.oneShots);
    forall x, y | inv(x) && Next(x, y) ensures inv(y) {
      var a :| Enabled(x, a) && y == Apply(x, a);
      StepInv(x, a);
      DoomedStep(x, a, j.run.up.started, j.run.oneShots);
    }
    LeadsInvariant(Next, inv, j, later);
    P.EndsClean(later.run);
  }

  lemma DoomedStep(j: Joint, a: Act, started: seq<string>, oneShots: nat)
    requires Inv(j) && C.Doomed(j.run, started, oneShots) && Enabled(j, a)
    ensures C.Doomed(Apply(j, a).run, started, oneShots)
  {
    match a
    case Others(act) => OthersInv(j, act); StaysUp(j, act);
    case Advance(env, now) => C.DoomedStep(j.run, P.Step(env, now), started, oneShots);
    case UploadEnds(file, error) => C.DoomedStep(j.run, P.UploadEnds(file, error), started, oneShots);
  }

  lemma StaysUp(j: Joint, act: A.Act)
    requires Inv(j) && Enabled(j, Others(act))
    ensures j.run.flag ==> Apply(j, Others(act)).run.flag
  {
    A.Invariant(j.world);
  }
}
