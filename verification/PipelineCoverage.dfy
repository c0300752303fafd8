/**
 * Two facts about whole runs of the pipeline: a cancellation seen at the loop head is final, and
 * a completed run has delivered every listed file if the pool is large enough, but not otherwise.
 */
module PipelineCoverage {
  import opened Runs
  import opened Sets
  import opened Pipeline

  // Cancellation

  ghost predicate Doomed(s: State, started: seq<string>, oneShots: nat)
  {
    && s.up.started == started && s.oneShots == oneShots
    && ((s.pc.Head? && s.flag) || s.pc == Draining(ByCancel) || s.pc == Closing(ByCancel)
        || (Over(s.pc) && s.pc.verdict.Failure? && s.pc.verdict.stage.AtCancel?))
  }

  lemma DoomedStep(s: State, e: Event, started: seq<string>, oneShots: nat)
    requires Doomed(s, started, oneShots) && Enabled(s, e)
    ensures Doomed(Apply(s, e), started, oneShots)
  {
  }

  lemma InvLater(s: State, later: State)
    requires Inv(s) && Leads(Next, s, later)
    ensures Inv(later)
  {
    forall x, y | Inv(x) && Next(x, y) ensures Inv(y) {
      var e :| Enabled(x, e) && y == Apply(x, e);
      StepInv(x, e);
    }
    LeadsInvariant(Next, Inv, s, later);
  }

  /** Once the flag is up at a visit of the loop head, whatever happens next: nothing more is uploaded, and if the run ends it ends as Cancelled. */
  lemma CancelIsFinal(s: State, later: State)
    requires Reachable(Init, Next, s) && s.pc.Head? && s.flag
    requires Leads(Next, s, later)
    ensures later.up.started == s.up.started && later.oneShots == s.oneShots
    ensures Over(later.pc) ==> later.task.state.Cancelled? && later.pc.verdict.Failure? && later.pc.verdict.stage.AtCancel?
  {
    Invariant(s);
    var doomed := (x: State) => Doomed(x, s.up.started, s.oneShots);
    forall x, y | doomed(x) && Next(x, y) ensures doomed(y) {
      var e :| Enabled(x, e) && y == Apply(x, e);
      DoomedStep(x, e, s.up.started, s.oneShots);
    }
    LeadsInvariant(Next, doomed, s, later);
    InvLater(s, later);
  }

  // Coverage, when the pool is at least as large as the list

  ghost predicate AllQueued(s: State, n: int)
  {
    forall k :: 0 <= k < n && k < |s.status.files| ==> s.status.files[k] in s.up.queued
  }

  /** Positions between the scan of one report and the arrival of the next, or after the last. */
  predicate AfterScan(s: State)
  {
    s.pc.Head? || s.pc.Polling? || s.pc.Rendering? || s.pc.Tallying? || s.pc.Deciding? || s.pc.Choosing? || s.pc.OneShot? || s.pc.Finishing?
    || (Over(s.pc) && s.pc.verdict.Success?)
  }

  /** Whatever was listed before the last report is queued. */
  ghost predicate OldQueued(s: State)
  {
    forall f :: f in s.listed ==> f in s.up.queued || f in s.status.files
  }

  ghost predicate ScanFits(s: State)
  {
    && (s.pc.Started? || s.pc.Adding? ==> s.listed == {})
    && (s.pc.Scanning? || InScan(s.pc) ==> AllQueued(s, s.pc.i) && OldQueued(s))
    && (AfterScan(s) ==> s.listed <= s.up.queued)
  }

  /** Everything queued, and everything in the last report, is in the list of all files ever reported. */
  ghost predicate Listed(s: State)
  {
    && (forall k :: 0 <= k < |s.status.files| ==> s.status.files[k] in s.listed)
    && s.up.queued <= s.listed
  }

  ghost predicate Covered(s: State)
  {
    && Listed(s)
    && (s.config.pipelining && |s.listed| <= s.config.PoolSize() ==> ScanFits(s))
  }

  lemma SubsetOfSameSize(a: set<string>, b: set<string>)
    requires a <= b && |a| >= |b|
    ensures a == b
  {
    if a != b {
      var x :| x in b && x !in a;
      SubsetSize(a, b - {x});
    }
  }

  /** A scan that stops for lack of room has queued as many files as the pool holds, hence all of a short list. */
  lemma FullPoolMeansAll(s: State)
    requires Listed(s) && Counted(s.up) && s.up.inFlight >= s.config.PoolSize() >= |s.listed|
    ensures s.listed <= s.up.queued
  {
    SubsetSize(s.up.active, s.up.queued);
    SubsetOfSameSize(s.up.queued, s.listed);
  }

  lemma ReportListed(s: State, st: Status)
    requires Listed(s)
    ensures Listed(OnStatus(s, st)) && s.listed <= OnStatus(s, st).listed
    ensures OnStatus(s, st).config == s.config
  {
    assert forall k :: 0 <= k < |st.files| ==> st.files[k] in FileSet(st.files);
  }

  /** A step outside the poll and the scan leaves the report and the uploads alone, and reaches a position after the scan only from another one. */
  ghost predicate Steady(s: State, t: State)
  {
    && t.config == s.config && t.listed == s.listed && t.status == s.status && t.up == s.up
    && !t.pc.Started? && !t.pc.Scanning? && !InScan(t.pc)
    && (t.pc.Adding? ==> s.pc.Started?)
    && (AfterScan(t) ==> AfterScan(s) || s.pc.Adding?)
  }

  lemma StartSteady(s: State, env: Answers, now: int)
    requires s.pc.Started? || s.pc.Adding? || s.pc.Head?
    ensures Steady(s, Advance(s, env, now))
  {
  }

  lemma LoopSteady(s: State, env: Answers, now: int)
    requires s.pc.Rendering? || s.pc.Tallying? || s.pc.Deciding? || s.pc.Draining? || s.pc.Closing? || s.pc.Ending?
    ensures Steady(s, Advance(s, env, now))
  {
  }

  lemma FallbackSteady(s: State, env: Answers, now: int)
    requires s.pc.Choosing? || s.pc.OneShot?
    ensures Steady(s, Advance(s, env, now))
  {
  }

  lemma EndSteady(s: State, env: Answers, now: int)
    requires s.pc.Finishing?
    ensures Steady(s, Advance(s, env, now))
  {
  }

  lemma SteadyCovered(s: State, t: State)
    requires Covered(s) && Steady(s, t)
    ensures Covered(t)
  {
  }

  lemma PollCovered(s: State, env: Answers, now: int)
    requires Covered(s) && s.pc.Polling?
    ensures Covered(Advance(s, env, now))
  {
    if env.status.Ok? {
      ReportListed(s, env.status.value);
      SubsetSize(s.listed, OnStatus(s, env.status.value).listed);
    }
  }

  lemma RoomCovered(s: State, env: Answers, now: int)
    requires Counted(s.up) && Covered(s) && s.pc.Scanning?
    ensures Covered(Advance(s, env, now))
  {
    if s.up.inFlight >= s.config.PoolSize() >= |s.listed| {
      FullPoolMeansAll(s);
    }
  }

  lemma CheckCovered(s: State, env: Answers, now: int)
    requires Covered(s) && s.pc.Checking?
    ensures Covered(Advance(s, env, now))
  {
  }

  lemma BeginCovered(s: State, env: Answers, now: int)
    requires Covered(s) && s.pc.Beginning?
    ensures Covered(Advance(s, env, now))
  {
  }

  lemma SpawnCovered(s: State, env: Answers, now: int)
    requires Covered(s) && s.pc.Spawning?
    ensures Covered(Advance(s, env, now))
  {
  }

  lemma ElsewhereCovered(s: State, env: Answers, now: int)
    requires Covered(s) && !s.pc.Polling? && !s.pc.Scanning? && !InScan(s.pc) && !s.pc.Done?
    ensures Covered(Advance(s, env, now))
  {
    if s.pc.Started? || s.pc.Adding? || s.pc.Head? {
      StartSteady(s, env, now);
    } else if s.pc.Choosing? || s.pc.OneShot? {
      FallbackSteady(s, env, now);
    } else if s.pc.Finishing? {
      EndSteady(s, env, now);
    } else {
      LoopSteady(s, env, now);
    }
    SteadyCovered(s, Advance(s, env, now));
  }

  lemma AdvanceCovered(s: State, env: Answers, now: int)
    requires Counted(s.up) && Covered(s) && !s.pc.Done?
    ensures Covered(Advance(s, env, now))
  {
    if s.pc.Polling? {
      PollCovered(s, env, now);
    } else if s.pc.Scanning? {
      RoomCovered(s, env, now);
    } else if s.pc.Checking? {
      CheckCovered(s, env, now);
    } else if s.pc.Beginning? {
      BeginCovered(s, env, now);
    } else if s.pc.Spawning? {
      SpawnCovered(s, env, now);
    } else {
      ElsewhereCovered(s, env, now);
    }
  }

  /** Between the steps of the loop only the flag and the counters of ended uploads change. */
  lemma EventCovered(s: State, e: Event)
    requires Covered(s) && Enabled(s, e) && !e.Step?
    ensures Covered(Apply(s, e))
  {
  }

  lemma CoveredStep(s: State, e: Event)
    requires Inv(s) && Covered(s) && Enabled(s, e)
    ensures Covered(Apply(s, e))
  {
    if e.Step? {
      AdvanceCovered(s, e.env, e.now);
    } else {
      EventCovered(s, e);
    }
  }

  ghost predicate CoveredInv(s: State)
  {
    Inv(s) && Covered(s)
  }

  lemma CoveredAlways(s: State)
    requires Reachable(Init, Next, s)
    ensures CoveredInv(s)
  {
    forall x, y | CoveredInv(x) && Next(x, y) ensures CoveredInv(y) {
      var e :| Enabled(x, e) && y == Apply(x, e);
      CoveredStep(x, e);
      StepInv(x, e);
    }
    ReachableInvariant(Init, Next, CoveredInv, s);
  }

  lemma QueuedIsDelivered(s: State)
    requires Counted(s.up) && Placed(s) && TaskFits(s) && Over(s.pc) && s.pc.verdict.Success?
    ensures s.up.delivered == s.up.queued
  {
    AllDelivered(s.up);
  }

  /** If no more distinct files are ever listed than the pool can hold, a pipelined run that returns Ok has delivered every file that was ever listed, those of the last report among them. */
  lemma ShortListsAreDelivered(s: State)
    requires Reachable(Init, Next, s)
    requires s.config.pipelining && |s.listed| <= s.config.PoolSize()
    requires Over(s.pc) && s.pc.verdict.Success?
    ensures s.listed <= s.up.delivered
    ensures forall k :: 0 <= k < |s.status.files| ==> s.status.files[k] in s.up.delivered
  {
    CoveredAlways(s);
    QueuedIsDelivered(s);
  }
}
