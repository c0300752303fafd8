/** The Task aggregate and its state machine. */
module Tasks {
  import opened Wrappers
  import opened Runs

  datatype TaskState = Queued | Downloading | Processing | Uploading | Completed | Failed | Cancelled

  datatype TaskKind = Mirror | Leech | Clone

  datatype DownloaderKind = NoDownloader | Aria2 | Qbittorrent

  datatype Metadata = Metadata(
    id: string,
    user: int,
    chat: int,
    statusMessage: int,
    kind: TaskKind,
    sourceUrl: string,
    createdAt: int,
    updatedAt: int)

  /** The value of a task: what its private fields hold. */
  datatype TaskData = TaskData(
    metadata: Metadata,
    state: TaskState,
    error: Option<string>,
    gid: Option<string>,
    downloader: DownloaderKind)

  datatype Transition =
    | StartDownload
    | BeginProcessing
    | BeginUpload
    | MarkCompleted
    | MarkFailed(reason: string)
    | MarkCancelled

  function StateName(s: TaskState): string
  {
    match s
    case Queued => "Queued"
    case Downloading => "Downloading"
    case Processing => "Processing"
    case Uploading => "Uploading"
    case Completed => "Completed"
    case Failed => "Failed"
    case Cancelled => "Cancelled"
  }

  predicate Terminal(s: TaskState)
  {
    s.Completed? || s.Failed? || s.Cancelled?
  }

  function Target(t: Transition): TaskState
  {
    match t
    case StartDownload => Downloading
    case BeginProcessing => Processing
    case BeginUpload => Uploading
    case MarkCompleted => Completed
    case MarkFailed(_) => Failed
    case MarkCancelled => Cancelled
  }

  predicate Allowed(s: TaskState, t: Transition)
  {
    match t
    case StartDownload => s.Queued?
    case BeginProcessing => s.Downloading?
    case BeginUpload => s.Downloading? || s.Processing?
    case MarkCompleted => s.Uploading?
    case MarkFailed(_) => !Terminal(s)
    case MarkCancelled => !Terminal(s)
  }

  function Refusal(s: TaskState, t: Transition): string
  {
    "Invalid task transition: " + StateName(s) + " -> " + StateName(Target(t))
  }

  /** The task after a transition attempted at time `now`: refused transitions change nothing. */
  function Transit(d: TaskData, t: Transition, now: int): Result<TaskData, string>
  {
    if !Allowed(d.state, t) then Err(Refusal(d.state, t))
    else Ok(d.(state := Target(t),
               error := if t.MarkFailed? then Some(t.reason) else d.error,
               metadata := d.metadata.(updatedAt := now)))
  }

  /** A transition whose result the caller ignores. */
  function Try(d: TaskData, t: Transition, now: int): TaskData
  {
    match Transit(d, t, now)
    case Ok(d') => d'
    case Err(_) => d
  }

  function Attach(d: TaskData, gid: string, kind: DownloaderKind, now: int): TaskData
  {
    d.(gid := Some(gid), downloader := kind, metadata := d.metadata.(updatedAt := now))
  }

  function Fresh(m: Metadata): TaskData
  {
    TaskData(m, Queued, None, None, NoDownloader)
  }

  class Task {
    var metadata: Metadata
    var state: TaskState
    var errorMessage: Option<string>
    var downloaderId: Option<string>
    var downloaderKind: DownloaderKind

    function View(): TaskData
      reads this
    {
      TaskData(metadata, state, errorMessage, downloaderId, downloaderKind)
    }

    constructor (m: Metadata)
      ensures View() == Fresh(m)
    {
      metadata, state, errorMessage, downloaderId, downloaderKind := m, Queued, None, None, NoDownloader;
    }

    method Touch(now: int)
      modifies this`metadata
      ensures metadata == old(metadata).(updatedAt := now)
    {
      metadata := metadata.(updatedAt := now);
    }

    method StartDownload(now: int) returns (r: Result<(), string>)
      modifies this
      ensures View() == Try(old(View()), Transition.StartDownload, now)
      ensures r == if Allowed(old(state), Transition.StartDownload) then Ok(()) else Err(Refusal(old(state), Transition.StartDownload))
    {
      if state != Queued {
        return Err(Refusal(state, Transition.StartDownload));
      }
      state := Downloading;
      Touch(now);
      r := Ok(());
    }

    method BeginProcessing(now: int) returns (r: Result<(), string>)
      modifies this
      ensures View() == Try(old(View()), Transition.BeginProcessing, now)
      ensures r == if Allowed(old(state), Transition.BeginProcessing) then Ok(()) else Err(Refusal(old(state), Transition.BeginProcessing))
    {
      if state != Downloading {
        return Err(Refusal(state, Transition.BeginProcessing));
      }
      state := Processing;
      Touch(now);
      r := Ok(());
    }

    method BeginUpload(now: int) returns (r: Result<(), string>)
      modifies this
      ensures View() == Try(old(View()), Transition.BeginUpload, now)
      ensures r == if Allowed(old(state), Transition.BeginUpload) then Ok(()) else Err(Refusal(old(state), Transition.BeginUpload))
    {
      if state != Downloading && state != Processing {
        return Err(Refusal(state, Transition.BeginUpload));
      }
      state := Uploading;
      Touch(now);
      r := Ok(());
    }

    method MarkCompleted(now: int) returns (r: Result<(), string>)
      modifies this
      ensures View() == Try(old(View()), Transition.MarkCompleted, now)
      ensures r == if Allowed(old(state), Transition.MarkCompleted) then Ok(()) else Err(Refusal(old(state), Transition.MarkCompleted))
    {
      if state != Uploading {
        return Err(Refusal(state, Transition.MarkCompleted));
      }
      state := Completed;
      Touch(now);
      r := Ok(());
    }

    method MarkFailed(reason: string, now: int) returns (r: Result<(), string>)
      modifies this
      ensures View() == Try(old(View()), Transition.MarkFailed(reason), now)
      ensures r == if Allowed(old(state), Transition.MarkFailed(reason)) then Ok(()) else Err(Refusal(old(state), Transition.MarkFailed(reason)))
    {
      if Terminal(state) {
        return Err(Refusal(state, Transition.MarkFailed(reason)));
      }
      errorMessage := Some(reason);
      state := Failed;
      Touch(now);
      r := Ok(());
    }

    method MarkCancelled(now: int) returns (r: Result<(), string>)
      modifies this
      ensures View() == Try(old(View()), Transition.MarkCancelled, now)
      ensures r == if Allowed(old(state), Transition.MarkCancelled) then Ok(()) else Err(Refusal(old(state), Transition.MarkCancelled))
    {
      if Terminal(state) {
        return Err(Refusal(state, Transition.MarkCancelled));
      }
      state := Cancelled;
      Touch(now);
      r := Ok(());
    }

    method AttachDownloader(gid: string, kind: DownloaderKind, now: int)
      modifies this
      ensures View() == Attach(old(View()), gid, kind, now)
    {
      downloaderId := Some(gid);
      downloaderKind := kind;
      Touch(now);
    }
  }

  // Lives of a task under its public operations

  ghost predicate Init(d: TaskData)
  {
    d == Fresh(d.metadata)
  }

  /** One public call. */
  ghost predicate Next(d: TaskData, d': TaskData)
  {
    || (exists t, now :: d' == Try(d, t, now))
    || (exists gid, kind, now :: d' == Attach(d, gid, kind, now))
  }

  /** As in the program, which attaches a downloader only with a real backend kind. */
  ghost predicate BoundNext(d: TaskData, d': TaskData)
  {
    || (exists t, now :: d' == Try(d, t, now))
    || (exists gid, kind, now :: kind != NoDownloader && d' == Attach(d, gid, kind, now))
  }

  predicate Sound(d: TaskData)
  {
    d.error.Some? <==> d.state.Failed?
  }

  /** The binding is whole: a downloader id exactly when there is a backend. */
  predicate Bound(d: TaskData)
  {
    d.gid.Some? <==> d.downloader != NoDownloader
  }

  /** Whatever calls are made, a task has an error message exactly when it failed. */
  lemma SoundAlways(d: TaskData)
    requires Reachable(Init, Next, d)
    ensures Sound(d)
  {
    ReachableInvariant(Init, Next, Sound, d);
  }

  /** A task that is never attached to a downloader without a backend has a downloader id exactly when it has a backend. */
  lemma BoundAlways(d: TaskData)
    requires Reachable(Init, BoundNext, d)
    ensures Bound(d)
  {
    ReachableInvariant(Init, BoundNext, Bound, d);
  }

  /** An attach decides the binding, whatever came before. */
  lemma AttachBinds(d: TaskData, gid: string, kind: DownloaderKind, now: int)
    ensures Bound(Attach(d, gid, kind, now)) <==> kind != NoDownloader
  {
  }

  /** Once terminal, no sequence of calls changes the state or the error message. */
  lemma TerminalForever(d: TaskData, later: TaskData)
    requires Terminal(d.state) && Leads(Next, d, later)
    ensures later.state == d.state && later.error == d.error
  {
    var same := (x: TaskData) => x.state == d.state && x.error == d.error;
    LeadsInvariant(Next, same, d, later);
  }
}
