/** The task table: what a save writes, how a row is read back, and what survives the trip. */
module TaskRepository {
  import opened Wrappers
  import opened Runs
  import opened TimeCodec
  import T = Tasks

  datatype Row = Row(
    id: string,
    user: int,
    chat: int,
    statusMessage: int,
    kind: string,
    state: string,
    sourceUrl: string,
    error: Option<string>,
    createdAt: string,
    updatedAt: string,
    downloaderKind: string,
    downloaderId: Option<string>)

  function KindName(k: T.TaskKind): string
  {
    match k
    case Mirror => "Mirror"
    case Leech => "Leech"
    case Clone => "Clone"
  }

  function DownloaderName(k: T.DownloaderKind): string
  {
    match k
    case NoDownloader => "None"
    case Aria2 => "Aria2"
    case Qbittorrent => "Qbittorrent"
  }

  function ParseKind(s: string): Result<T.TaskKind, string>
  {
    if s == "Mirror" then Ok(T.Mirror)
    else if s == "Leech" then Ok(T.Leech)
    else if s == "Clone" then Ok(T.Clone)
    else Err("Unknown TaskKind")
  }

  function ParseDownloader(s: string): Result<T.DownloaderKind, string>
  {
    if s == "None" then Ok(T.NoDownloader)
    else if s == "Aria2" then Ok(T.Aria2)
    else if s == "Qbittorrent" then Ok(T.Qbittorrent)
    else Err("Unknown DownloaderKind")
  }

  function ParseState(s: string): Result<T.TaskState, string>
  {
    if s == "Queued" then Ok(T.Queued)
    else if s == "Downloading" then Ok(T.Downloading)
    else if s == "Processing" then Ok(T.Processing)
    else if s == "Uploading" then Ok(T.Uploading)
    else if s == "Completed" then Ok(T.Completed)
    else if s == "Failed" then Ok(T.Failed)
    else if s == "Cancelled" then Ok(T.Cancelled)
    else Err("Unknown TaskState")
  }

  lemma NamesParse(k: T.TaskKind, d: T.DownloaderKind, s: T.TaskState)
    ensures ParseKind(KindName(k)) == Ok(k)
    ensures ParseDownloader(DownloaderName(d)) == Ok(d)
    ensures ParseState(T.StateName(s)) == Ok(s)
  {
    KindNames(k);
    DownloaderNames(d);
    StateNames(s);
  }

  lemma KindNames(k: T.TaskKind)
    ensures ParseKind(KindName(k)) == Ok(k)
  {
    assert "Leech"[0] == 'L' && "Mirror"[0] == 'M' && "Clone"[0] == 'C';
  }

  lemma DownloaderNames(d: T.DownloaderKind)
    ensures ParseDownloader(DownloaderName(d)) == Ok(d)
  {
    assert "None"[0] == 'N' && "Aria2"[0] == 'A' && "Qbittorrent"[0] == 'Q';
  }

  lemma StateNames(s: T.TaskState)
    ensures ParseState(T.StateName(s)) == Ok(s)
  {
    assert "Queued"[0] == 'Q' && "Downloading"[0] == 'D' && "Processing"[0] == 'P' && "Uploading"[0] == 'U';
    assert "Completed"[1] == 'o' && "Failed"[0] == 'F' && "Cancelled"[1] == 'a';
  }

  predicate Storable(t: T.TaskData)
  {
    InRange(t.metadata.createdAt) && InRange(t.metadata.updatedAt)
  }

  function Save(t: T.TaskData): Row
    requires Storable(t)
  {
    var md := t.metadata;
    Row(md.id, md.user, md.chat, md.statusMessage, KindName(md.kind), T.StateName(t.state), md.sourceUrl, t.error,
        ToIso8601(md.createdAt), ToIso8601(md.updatedAt), DownloaderName(t.downloader), t.gid)
  }

  /** The task that reading a row is meant to give: the stored state, error and binding, restamped if anything was replayed. */
  function Restored(md: T.Metadata, target: T.TaskState, error: Option<string>,
                    kind: T.DownloaderKind, gid: Option<string>, now: int): T.TaskData
  {
    var bound := kind != T.NoDownloader && gid.Some?;
    T.TaskData(if target.Queued? && !bound then md else md.(updatedAt := now),
               target,
               if target.Failed? then Some(if error.Some? then error.value else "(unknown)") else None,
               if bound then gid else None,
               if bound then kind else T.NoDownloader)
  }

  method AttachIfSet(task: T.Task, kind: T.DownloaderKind, gid: Option<string>, now: int)
    modifies task
    ensures task.View() == if kind != T.NoDownloader && gid.Some? then T.Attach(old(task.View()), gid.value, kind, now) else old(task.View())
  {
    if kind != T.NoDownloader && gid.Some? {
      task.AttachDownloader(gid.value, kind, now);
    }
  }

  /** Drives a fresh task to the stored state by its own transitions. The source returns an error if one of them is refused; the assertions show that none ever is. */
  method Reconstitute(md: T.Metadata, target: T.TaskState, error: Option<string>,
                      kind: T.DownloaderKind, gid: Option<string>, now: int)
    returns (r: Result<T.Task, string>)
    ensures r.Ok? && fresh(r.value)
    ensures r.value.View() == Restored(md, target, error, kind, gid, now)
  {
    var task := new T.Task(md);
    var step: Result<(), string>;
    if target.Failed? || target.Cancelled? {
      AttachIfSet(task, kind, gid, now);
    }
    match target {
      case Queued =>
      case Downloading =>
        step := task.StartDownload(now);
        assert step.Ok?;
      case Processing =>
        step := task.StartDownload(now);
        assert step.Ok?;
        step := task.BeginProcessing(now);
        assert step.Ok?;
      case Uploading =>
        step := task.StartDownload(now);
        assert step.Ok?;
        step := task.BeginUpload(now);
        assert step.Ok?;
      case Completed =>
        step := task.StartDownload(now);
        assert step.Ok?;
        step := task.BeginUpload(now);
        assert step.Ok?;
        step := task.MarkCompleted(now);
        assert step.Ok?;
      case Failed =>
        step := task.MarkFailed(if error.Some? then error.value else "(unknown)", now);
        assert step.Ok?;
      case Cancelled =>
        step := task.MarkCancelled(now);
        assert step.Ok?;
    }
    if !target.Failed? && !target.Cancelled? {
      AttachIfSet(task, kind, gid, now);
    }
    r := Ok(task);
  }

  function Load(row: Row, now: int): Result<T.TaskData, string>
  {
    match (ParseKind(row.kind), ParseState(row.state), ParseIso8601(row.createdAt), ParseIso8601(row.updatedAt), ParseDownloader(row.downloaderKind))
    case (Err(e), _, _, _, _) => Err(e)
    case (Ok(_), Err(e), _, _, _) => Err(e)
    case (Ok(_), Ok(_), Err(e), _, _) => Err(e)
    case (Ok(_), Ok(_), Ok(_), Err(e), _) => Err(e)
    case (Ok(_), Ok(_), Ok(_), Ok(_), Err(e)) => Err(e)
    case (Ok(kind), Ok(state), Ok(created), Ok(updated), Ok(downloader)) =>
      var md := T.Metadata(row.id, row.user, row.chat, row.statusMessage, kind, row.sourceUrl, created, updated);
      Ok(Restored(md, state, row.error, downloader, row.downloaderId, now))
  }

  /** The row mapping of find(): parse every column, then rebuild. */
  method Find(row: Row, now: int) returns (r: Result<T.Task, string>)
    ensures r.Ok? ==> Load(row, now) == Ok(r.value.View())
    ensures r.Err? ==> Load(row, now) == Err(r.error)
  {
    var kind := ParseKind(row.kind);
    var state := ParseState(row.state);
    var created := Parse(row.createdAt);
    var updated := Parse(row.updatedAt);
    var downloader := ParseDownloader(row.downloaderKind);
    if kind.Err? { return Err(kind.error); }
    if state.Err? { return Err(state.error); }
    if created.Err? { return Err(created.error); }
    if updated.Err? { return Err(updated.error); }
    if downloader.Err? { return Err(downloader.error); }
    var md := T.Metadata(row.id, row.user, row.chat, row.statusMessage, kind.value, row.sourceUrl, created.value, updated.value);
    r := Reconstitute(md, state.value, row.error, downloader.value, row.downloaderId, now);
  }

  /** `t` with its creation time floored to milliseconds and any update time. */
  function Floored(t: T.TaskData, updated: int): T.TaskData
  {
    t.(metadata := t.metadata.(createdAt := FloorMs(t.metadata.createdAt) * TICKS_PER_MS, updatedAt := updated))
  }

  lemma LoadSaved(t: T.TaskData, now: int)
    requires Storable(t)
    ensures var md := t.metadata.(createdAt := FloorMs(t.metadata.createdAt) * TICKS_PER_MS,
                                  updatedAt := FloorMs(t.metadata.updatedAt) * TICKS_PER_MS);
            Load(Save(t), now) == Ok(Restored(md, t.state, t.error, t.downloader, t.gid, now))
  {
    NamesParse(t.metadata.kind, t.downloader, t.state);
    RoundTrip(t.metadata.createdAt);
    RoundTrip(t.metadata.updatedAt);
  }

  /** Saving and loading never fails on a task whose error message is there exactly when it failed, and gives that task back, but for the update time, if and only if its binding is whole. */
  lemma SurvivesIfBound(t: T.TaskData, now: int)
    requires Storable(t) && (t.error.Some? <==> t.state.Failed?)
    ensures Load(Save(t), now).Ok?
    ensures (exists u :: Load(Save(t), now) == Ok(Floored(t, u))) <==> T.Bound(t)
  {
    LoadSaved(t, now);
    var got := Load(Save(t), now).value;
    if T.Bound(t) {
      assert got == Floored(t, got.metadata.updatedAt);
    }
  }

  /** A task that any public calls have produced loads, and survives exactly if its binding is whole; the update time is the stored one only if nothing is replayed. */
  lemma ReachableTasksSurvive(t: T.TaskData, now: int)
    requires Reachable(T.Init, T.Next, t) && Storable(t)
    ensures Load(Save(t), now).Ok?
    ensures T.Bound(t) <==>
            Load(Save(t), now) ==
            Ok(Floored(t, if t.state.Queued? && t.gid.None? then FloorMs(t.metadata.updatedAt) * TICKS_PER_MS else now))
  {
    T.SoundAlways(t);
    LoadSaved(t, now);
  }

  /** The tasks of the program survive: it attaches downloaders with a real backend only. */
  lemma BoundTasksSurvive(t: T.TaskData, now: int)
    requires Reachable(T.Init, T.BoundNext, t) && Storable(t)
    ensures exists u :: Load(Save(t), now) == Ok(Floored(t, u))
  {
    T.BoundAlways(t);
    WithoutBound(t);
    SurvivesIfBound(t, now);
  }

  lemma WithoutBound(t: T.TaskData)
    requires Reachable(T.Init, T.BoundNext, t)
    ensures T.Sound(t)
  {
    ReachableInvariant(T.Init, T.BoundNext, T.Sound, t);
  }

  /** A downloader id attached without a backend is lost: the guard of the attach step drops it. */
  lemma UnboundIdIsLost(t: T.TaskData, gid: string, at: int, now: int)
    requires Reachable(T.Init, T.Next, t) && Storable(t) && InRange(at)
    ensures var saved := Save(T.Attach(t, gid, T.NoDownloader, at));
            Load(saved, now).Ok? && Load(saved, now).value.gid == None
  {
    T.SoundAlways(t);
    LoadSaved(T.Attach(t, gid, T.NoDownloader, at), now);
  }
}
