/**
 * The mirror and leech use cases from registration on: the poll loop, the uploads it spawns, the
 * cancellation flag and the task's state machine, as one transition system. The use-case coroutine
 * moves one lock region or awaited call at a time; uploads end and cancel requests arrive in between.
 */
module Pipeline {
  import opened Wrappers
  import opened Runs
  import opened Sets
  import opened Tasks

  datatype Mode = MirrorMode | LeechMode

  /** `pipelining` is the downloader's supports_pipelining(). */
  datatype Config = Config(mode: Mode, backend: DownloaderKind, pipelining: bool, configuredPool: int)
  {
    function PoolSize(): (n: int)
      ensures n >= 1
    {
      if configuredPool > 0 then configuredPool else 1
    }
  }

  datatype DownloadState = Waiting | Fetching | Paused | Complete | Error | Seeding | Removed

  datatype Status = Status(state: DownloadState, files: seq<string>, savePath: Option<string>, error: Option<string>)

  /** The stage a failure is reported under; `AtState` is a refused task transition. */
  datatype Stage = AtState | AtDownload | AtUpload | AtCancel

  /** Why the run is being wound down. */
  datatype Reason = ByCancel | UploadFailed | Because(stage: Stage, message: string)

  datatype Verdict = Success(id: string) | Failure(stage: Stage, message: string)

  datatype Pc =
    | Started
    | Adding
    | Head
    | Polling
    | Scanning(i: nat)        // can_spawn_more, before file i
    | Checking(i: nat)        // is file i already queued?
    | Beginning(i: nat)       // begin_upload, if not done yet
    | Spawning(i: nat)
    | Rendering
    | Tallying                // the locked read of in_flight and failed
    | Deciding(allDone: bool, anyFailed: bool)
    | Draining(reason: Reason)
    | Closing(reason: Reason)
    | Choosing                // after the loop: was anything uploaded?
    | OneShot
    | Finishing
    | Ending(verdict: Verdict)   // the task is marked; persisting, cleaning up and editing the message
    | Done(verdict: Verdict)

  /**
   * The PipelineState shared with the spawned uploads. The last four fields record history: the uploads now
   * running, those that ended well, those that ended badly, and every upload_file call in order.
   */
  datatype Uploads = Uploads(
    queued: set<string>,
    inFlight: int,
    completed: int,
    failed: int,
    firstError: Option<string>,
    active: set<string>,
    delivered: set<string>,
    lost: set<string>,
    started: seq<string>)

  /** `flag` is the cancellation flag shared with the registry and with cancel calls under way, `registered` the registry entry; `listed` and `oneShots` record every file ever listed and how often the one-shot upload was started. */
  datatype State = State(
    config: Config,
    task: TaskData,
    up: Uploads,
    transitioned: bool,
    downloadComplete: bool,
    status: Status,
    flag: bool,
    registered: bool,
    listed: set<string>,
    oneShots: nat,
    pc: Pc)

  /** The environment's answers to the calls the coroutine awaits; each step uses at most one. */
  datatype Answers = Answers(
    cancelled: bool,
    gid: Result<string, string>,
    status: Result<Status, string>,
    upload: Result<seq<string>, string>)

  datatype Event =
    | Step(env: Answers, now: int)
    | UploadEnds(file: string, error: Option<string>)
    | CancelRequest

  predicate Enabled(s: State, e: Event)
  {
    match e
    case Step(_, _) => !s.pc.Done?
    case UploadEnds(file, _) => file in s.up.active
    case CancelRequest => true
  }

  function FileSet(files: seq<string>): set<string>
  {
    set f | f in files
  }

  const NO_ERROR_TEXT := "downloader reported error"
  const REMOVED_EXTERNALLY := "download removed externally"
  const NO_FILES := "downloader reported no produced files"
  const NO_RESULTS := "upload produced no results"
  const CANCELLED_BY_USER := "cancelled by user"
  const UPLOAD_FAILED := "upload failed"

  /** The locked region of spawn_upload. */
  function Spawned(u: Uploads, f: string): Uploads
  {
    if f in u.queued then u
    else u.(queued := u.queued + {f}, inFlight := u.inFlight + 1, active := u.active + {f}, started := u.started + [f])
  }

  /** The locked region at the end of a spawned upload. */
  function Ended(u: Uploads, f: string, error: Option<string>): Uploads
  {
    var u := u.(inFlight := u.inFlight - 1, active := u.active - {f});
    if error.Some? then
      u.(failed := u.failed + 1, lost := u.lost + {f}, firstError := if u.firstError.None? then error else u.firstError)
    else
      u.(completed := u.completed + 1, delivered := u.delivered + {f})
  }

  function Close(s: State, stage: Stage, message: string): State
  {
    s.(pc := Closing(Because(stage, message)))
  }

  function Drain(s: State, stage: Stage, message: string): State
  {
    s.(pc := Draining(Because(stage, message)))
  }

  function Finish(s: State, task: TaskData, verdict: Verdict): State
  {
    s.(task := task, pc := Ending(verdict))
  }

  function OnStatus(s: State, st: Status): State
  {
    var s := s.(status := st, listed := s.listed + FileSet(st.files));
    if st.state.Error? then Drain(s, AtDownload, if st.error.Some? then st.error.value else NO_ERROR_TEXT)
    else if st.state.Removed? then Drain(s, AtDownload, REMOVED_EXTERNALLY)
    else
      s.(downloadComplete := st.state.Complete? || st.state.Seeding?,
         pc := if s.config.pipelining then Scanning(0) else Rendering)
  }

  function Conclude(s: State, reason: Reason, now: int): State
  {
    match reason
    case ByCancel =>
      Finish(s, Try(s.task, MarkCancelled, now), Failure(AtCancel, CANCELLED_BY_USER))
    case UploadFailed =>
      var message := if s.up.firstError.Some? then s.up.firstError.value else UPLOAD_FAILED;
      Finish(s, Try(s.task, MarkFailed(message), now), Failure(AtUpload, message))
    case Because(stage, message) =>
      Finish(s, Try(s.task, MarkFailed(message), now), Failure(stage, message))
  }

  function TryOneShot(s: State, upload: Result<seq<string>, string>): State
  {
    if s.status.files == [] then Close(s, AtDownload, NO_FILES)
    else
      var s := s.(oneShots := s.oneShots + 1);
      match upload
      case Err(e) => Close(s, AtUpload, e)
      case Ok(outcomes) =>
        if s.config.mode.LeechMode? && s.status.savePath.Some? && outcomes == []
        then Close(s, AtUpload, NO_RESULTS)
        else s.(pc := Finishing)
  }

  function Completing(s: State, now: int): State
  {
    var task := if s.transitioned then s.task else Try(s.task, BeginUpload, now);
    match Transit(task, MarkCompleted, now)
    case Ok(done) => Finish(s, done, Success(s.task.metadata.id))
    case Err(e) => Close(s.(task := task), AtState, e)
  }

  /** One step of the use-case coroutine. */
  function Advance(s: State, env: Answers, now: int): State
    requires !s.pc.Done?
  {
    match s.pc
    case Started =>
      (match Transit(s.task, StartDownload, now)
       case Ok(t) => s.(task := t, pc := Adding)
       case Err(e) => Close(s, AtState, e))
    case Adding =>
      (match env.gid
       case Ok(gid) => s.(task := Attach(s.task, gid, s.config.backend, now), pc := Head)
       case Err(e) => Close(s, AtDownload, e))
    case Head =>
      if env.cancelled || s.flag then s.(pc := Draining(ByCancel))
      else s.(pc := if s.downloadComplete then Tallying else Polling)
    case Polling =>
      (match env.status
       case Ok(st) => OnStatus(s, st)
       case Err(e) => Drain(s, AtDownload, e))
    case Scanning(i) =>
      s.(pc := if i < |s.status.files| && s.up.inFlight < s.config.PoolSize() then Checking(i) else Rendering)
    case Checking(i) =>
      s.(pc := if i < |s.status.files| && s.status.files[i] !in s.up.queued then Beginning(i) else Scanning(i + 1))
    case Beginning(i) =>
      if s.transitioned then s.(pc := Spawning(i))
      else
        (match Transit(s.task, BeginUpload, now)
         case Ok(t) => s.(task := t, transitioned := true, pc := Spawning(i))
         case Err(_) => s.(pc := Spawning(i)))
    case Spawning(i) =>
      s.(up := if i < |s.status.files| then Spawned(s.up, s.status.files[i]) else s.up, pc := Scanning(i + 1))
    case Rendering => s.(pc := Tallying)
    case Tallying => s.(pc := Deciding(s.up.inFlight == 0, s.up.failed > 0))
    case Deciding(allDone, anyFailed) =>
      s.(pc := if anyFailed then Draining(UploadFailed)
               else if s.downloadComplete && allDone then Choosing
               else Head)
    case Draining(reason) => if s.up.inFlight == 0 then s.(pc := Closing(reason)) else s
    case Closing(reason) => Conclude(s, reason, now)
    case Choosing =>
      if s.up.completed > 0 then s.(pc := Finishing)
      else
        (match Transit(s.task, BeginUpload, now)
         case Ok(t) => s.(task := t, pc := OneShot)
         case Err(e) => Close(s, AtState, e))
    case OneShot => TryOneShot(s, env.upload)
    case Finishing => Completing(s, now)
    case Ending(verdict) => s.(registered := false, pc := Done(verdict))
  }

  function Apply(s: State, e: Event): State
    requires Enabled(s, e)
  {
    match e
    case Step(env, now) => Advance(s, env, now)
    case UploadEnds(file, error) => s.(up := Ended(s.up, file, error))
    case CancelRequest => s.(flag := true)
  }

  const NO_STATUS := Status(Waiting, [], None, None)
  const NO_UPLOADS := Uploads({}, 0, 0, 0, None, {}, {}, {}, [])

  function Fresh(config: Config, task: TaskData): State
  {
    State(config, task, NO_UPLOADS, false, false, NO_STATUS, false, true, {}, 0, Started)
  }

  ghost predicate Init(s: State)
  {
    s.task == Tasks.Fresh(s.task.metadata) && s == Fresh(s.config, s.task)
  }

  ghost predicate Next(s: State, s': State)
  {
    exists e :: Enabled(s, e) && s' == Apply(s, e)
  }

  // The invariant

  /** The counters count: every queued file is in flight, delivered or lost. */
  ghost predicate Counted(u: Uploads)
  {
    && u.queued == u.active + u.delivered + u.lost
    && u.active !! u.delivered && u.active !! u.lost && u.delivered !! u.lost
    && u.inFlight == |u.active| && u.completed == |u.delivered| && u.failed == |u.lost|
    && (u.firstError.Some? <==> u.failed > 0)
  }

  /** Every queued file was handed to the uploader once. */
  ghost predicate StartedOnce(u: Uploads)
  {
    && FileSet(u.started) == u.queued
    && forall j, k :: 0 <= j < k < |u.started| ==> u.started[j] != u.started[k]
  }

  predicate InScan(pc: Pc)
  {
    pc.Checking? || pc.Beginning? || pc.Spawning?
  }

  /** The task is marked, and the outcome is decided. */
  predicate Over(pc: Pc)
  {
    pc.Ending? || pc.Done?
  }

  /** Positions in which no upload may be running any more. */
  predicate Quiet(pc: Pc)
  {
    pc.Started? || pc.Adding? || pc.Closing? || pc.Choosing? || pc.OneShot? || pc.Finishing? || Over(pc)
    || (pc.Deciding? && pc.allDone)
  }

  ghost predicate Placed(s: State)
  {
    && s.up.inFlight <= s.config.PoolSize()
    && (InScan(s.pc) ==> s.pc.i < |s.status.files| && s.up.inFlight < s.config.PoolSize())
    && (s.pc.Beginning? || s.pc.Spawning? ==> s.status.files[s.pc.i] !in s.up.queued)
    && (s.transitioned <==> s.up.queued != {} || s.pc.Spawning?)
    && (Quiet(s.pc) ==> s.up.inFlight == 0)
    && (s.pc.Deciding? && !s.pc.anyFailed && s.pc.allDone ==> s.up.failed == 0)
    && (s.pc.Choosing? || s.pc.OneShot? || s.pc.Finishing? ==> s.downloadComplete && s.up.failed == 0)
    && (s.pc.Started? || s.pc.Adding? || s.pc.OneShot? ==> s.up.queued == {})
    && (s.oneShots > 0 ==> s.up.queued == {} && (s.pc.Finishing? || s.pc.Closing? || Over(s.pc)))
    && s.oneShots <= 1
    && (s.registered <==> !s.pc.Done?)
  }

  predicate Ordinary(r: Reason)
  {
    r.Because? ==> r.stage.AtDownload? || r.stage.AtUpload?
  }

  function LoopState(s: State): TaskState
  {
    if s.transitioned then Uploading else Downloading
  }

  ghost predicate VerdictFits(s: State, verdict: Verdict)
  {
    match verdict
    case Success(_) => s.task.state == Completed && s.downloadComplete && s.up.failed == 0
    case Failure(stage, message) =>
      && !stage.AtState?
      && if stage.AtCancel? then s.task.state == Cancelled
         else s.task.state == Failed && s.task.error == Some(message)
  }

  ghost predicate TaskFits(s: State)
  {
    match s.pc
    case Started => s.task.state == Queued
    case OneShot => s.task.state == Uploading
    case Finishing => s.task.state == Uploading
    case Draining(r) => s.task.state == LoopState(s) && Ordinary(r)
    case Closing(r) => !Terminal(s.task.state) && Ordinary(r)
    case Ending(verdict) => VerdictFits(s, verdict)
    case Done(verdict) => VerdictFits(s, verdict)
    case _ => s.task.state == LoopState(s)
  }

  ghost predicate Inv(s: State)
  {
    && Counted(s.up)
    && StartedOnce(s.up)
    && Placed(s)
    && TaskFits(s)
  }

  lemma LostCounted(u: Uploads, f: string, e: string)
    requires Counted(u) && f in u.active
    ensures Counted(Ended(u, f, Some(e)))
  {
    OneElementLess(u.active, f);
    OneMoreElement(u.lost, f);
    PartsGrow(u.queued, u.active, u.delivered, u.lost, f);
  }

  lemma DeliveredCounted(u: Uploads, f: string)
    requires Counted(u) && f in u.active
    ensures Counted(Ended(u, f, None))
  {
    OneElementLess(u.active, f);
    OneMoreElement(u.delivered, f);
    PartsGrow(u.queued, u.active, u.delivered, u.lost, f);
  }

  lemma EndedCounted(u: Uploads, f: string, error: Option<string>)
    requires Counted(u) && f in u.active
    ensures Counted(Ended(u, f, error))
    ensures u.inFlight > 0
  {
    match error
    case Some(e) => LostCounted(u, f, e);
    case None => DeliveredCounted(u, f);
  }

  lemma SpawnedCounted(u: Uploads, f: string)
    requires Counted(u)
    ensures Counted(Spawned(u, f))
  {
    if f !in u.queued {
      OneMoreElement(u.active, f);
      PartsGrow(u.queued, u.active, u.delivered, u.lost, f);
    }
  }

  lemma SpawnedOnce(u: Uploads, f: string)
    requires StartedOnce(u)
    ensures StartedOnce(Spawned(u, f))
  {
    var v := Spawned(u, f);
    if f !in u.queued {
      assert FileSet(v.started) == FileSet(u.started) + {f};
      forall j, k | 0 <= j < k < |v.started| ensures v.started[j] != v.started[k] {
        if k == |u.started| {
          assert u.started[j] in FileSet(u.started);
        }
      }
    }
  }

  lemma AllDelivered(u: Uploads)
    requires Counted(u) && u.inFlight == 0 && u.failed == 0
    ensures u.completed == 0 <==> u.queued == {}
    ensures u.delivered == u.queued
  {
    assert u.active == {} && u.lost == {};
    assert u.queued == u.delivered;
  }

  ghost predicate Kept(s: State)
  {
    Placed(s) && TaskFits(s) && s.up.inFlight >= 0 && s.up.failed >= 0 && s.up.completed >= 0
  }

  lemma StartKeeps(s: State, env: Answers, now: int)
    requires Kept(s) && (s.pc.Started? || s.pc.Adding?)
    ensures Kept(Advance(s, env, now)) && Advance(s, env, now).up == s.up
  {
  }

  lemma HeadKeeps(s: State, env: Answers, now: int)
    requires Kept(s) && s.pc.Head?
    ensures Kept(Advance(s, env, now)) && Advance(s, env, now).up == s.up
  {
  }

  lemma PollKeeps(s: State, env: Answers, now: int)
    requires Kept(s) && s.pc.Polling?
    ensures Kept(Advance(s, env, now)) && Advance(s, env, now).up == s.up
  {
  }

  lemma TallyKeeps(s: State, env: Answers, now: int)
    requires Kept(s) && (s.pc.Rendering? || s.pc.Tallying? || s.pc.Deciding?)
    ensures Kept(Advance(s, env, now)) && Advance(s, env, now).up == s.up
  {
  }

  lemma ScanKeeps(s: State, env: Answers, now: int)
    requires Kept(s) && (s.pc.Scanning? || s.pc.Checking? || s.pc.Beginning?)
    ensures Kept(Advance(s, env, now)) && Advance(s, env, now).up == s.up
  {
  }

  lemma SpawnKeeps(s: State, env: Answers, now: int)
    requires Kept(s) && s.pc.Spawning?
    ensures Kept(Advance(s, env, now)) && Advance(s, env, now).up == Spawned(s.up, s.status.files[s.pc.i])
  {
  }

  lemma WindDownKeeps(s: State, env: Answers, now: int)
    requires Kept(s) && (s.pc.Draining? || s.pc.Closing? || s.pc.Ending?)
    ensures Kept(Advance(s, env, now)) && Advance(s, env, now).up == s.up
  {
  }

  lemma FallbackKeeps(s: State, env: Answers, now: int)
    requires Kept(s) && (s.pc.Choosing? || s.pc.OneShot? || s.pc.Finishing?)
    requires s.pc.Choosing? ==> (s.up.completed == 0 <==> s.up.queued == {})
    ensures Kept(Advance(s, env, now)) && Advance(s, env, now).up == s.up
  {
  }

  lemma AdvanceInv(s: State, env: Answers, now: int)
    requires Inv(s) && !s.pc.Done?
    ensures Inv(Advance(s, env, now))
  {
    if s.pc.Choosing? {
      AllDelivered(s.up);
    }
    if s.pc.Spawning? {
      SpawnKeeps(s, env, now);
      SpawnedCounted(s.up, s.status.files[s.pc.i]);
      SpawnedOnce(s.up, s.status.files[s.pc.i]);
    } else if s.pc.Scanning? || s.pc.Checking? || s.pc.Beginning? {
      ScanKeeps(s, env, now);
    } else if s.pc.Draining? || s.pc.Closing? || s.pc.Ending? {
      WindDownKeeps(s, env, now);
    } else if s.pc.Choosing? || s.pc.OneShot? || s.pc.Finishing? {
      FallbackKeeps(s, env, now);
    } else if s.pc.Started? || s.pc.Adding? {
      StartKeeps(s, env, now);
    } else if s.pc.Head? {
      HeadKeeps(s, env, now);
    } else if s.pc.Polling? {
      PollKeeps(s, env, now);
    } else {
      TallyKeeps(s, env, now);
    }
  }

  lemma EndedInv(s: State, f: string, error: Option<string>)
    requires Inv(s) && f in s.up.active
    ensures Inv(s.(up := Ended(s.up, f, error)))
  {
    EndedCounted(s.up, f, error);
    assert f in s.up.queued;
  }

  lemma StepInv(s: State, e: Event)
    requires Inv(s) && Enabled(s, e)
    ensures Inv(Apply(s, e))
  {
    match e
    case Step(env, now) => AdvanceInv(s, env, now);
    case UploadEnds(file, error) => EndedInv(s, file, error);
    case CancelRequest =>
  }

  lemma Invariant(s: State)
    requires Reachable(Init, Next, s)
    ensures Inv(s)
  {
    forall x, y | Inv(x) && Next(x, y) ensures Inv(y) {
      var e :| Enabled(x, e) && y == Apply(x, e);
      StepInv(x, e);
    }
    ReachableInvariant(Init, Next, Inv, s);
  }

  // What every run satisfies

  /** The task is terminal exactly from its marking on, Completed exactly when Ok is returned; from then on nothing is in flight; the id is registered exactly until the run is done; and it is never a refused transition that ends a run. */
  lemma EveryRunEndsClean(s: State)
    requires Reachable(Init, Next, s)
    ensures Terminal(s.task.state) <==> Over(s.pc)
    ensures s.registered <==> !s.pc.Done?
    ensures Over(s.pc) ==>
              && (s.task.state.Completed? <==> s.pc.verdict.Success?)
              && (s.task.state.Cancelled? <==> s.pc.verdict.Failure? && s.pc.verdict.stage.AtCancel?)
              && s.up.active == {} && s.up.inFlight == 0
    ensures s.pc.Closing? && s.pc.reason.Because? ==> !s.pc.reason.stage.AtState?
    ensures Over(s.pc) && s.pc.verdict.Failure? ==> !s.pc.verdict.stage.AtState?
  {
    Invariant(s);
    EndsClean(s);
  }

  lemma EndsClean(s: State)
    requires Counted(s.up) && Placed(s) && TaskFits(s)
    ensures Terminal(s.task.state) <==> Over(s.pc)
    ensures s.registered <==> !s.pc.Done?
    ensures Over(s.pc) ==>
              && (s.task.state.Completed? <==> s.pc.verdict.Success?)
              && (s.task.state.Cancelled? <==> s.pc.verdict.Failure? && s.pc.verdict.stage.AtCancel?)
              && s.up.active == {} && s.up.inFlight == 0
    ensures s.pc.Closing? && s.pc.reason.Because? ==> !s.pc.reason.stage.AtState?
    ensures Over(s.pc) && s.pc.verdict.Failure? ==> !s.pc.verdict.stage.AtState?
  {
  }

  /** In every interleaving the counters add up, the pool bound holds, the first error is there exactly when an upload failed, and no file is handed to the uploader twice: each queued file once by the pipeline, and the one-shot upload runs at most once and only if nothing was ever queued. */
  lemma UploadsAddUp(s: State)
    requires Reachable(Init, Next, s)
    ensures s.up.inFlight + s.up.completed + s.up.failed == |s.up.queued|
    ensures 0 <= s.up.inFlight <= s.config.PoolSize()
    ensures s.up.firstError.Some? <==> s.up.failed > 0
    ensures forall j, k :: 0 <= j < k < |s.up.started| ==> s.up.started[j] != s.up.started[k]
    ensures s.oneShots <= 1 && (s.oneShots == 1 ==> s.up.started == [])
  {
    Invariant(s);
    assert |s.up.queued| == |s.up.active| + |s.up.delivered| + |s.up.lost|;
    if s.up.started != [] {
      assert s.up.started[0] in FileSet(s.up.started);
    }
  }
}
