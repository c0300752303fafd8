# Verified model of a mirror and leech bot's core

The program downloads files on behalf of chat users and uploads them to Google Drive or Telegram.
This project models the parts of it that are hard to get right and proves, with Dafny 4.11, what
they promise: the parallel upload engines, the download-to-upload pipeline, the protocols around
shared resources and pending requests, the printers and parsers it relies on, and the rebuilding of
tasks from their stored rows.

A protocol is a transition system (`Runs.dfy`): a state, the steps of every participant, and an
environment that may answer anything at any suspension point. The theorems hold in every state of
every run, that is for every interleaving. Loops, in-place buffers and objects are imperative methods
and classes whose contracts tie them to functions, and the theorems are about those functions.

| file | subject |
|---|---|
| `ClaimPool.dfy` | workers that claim items by an atomic counter, a shared abort flag, a live counter that signals the join |
| `ChunkPlan.dfy`, `ChunkRetry.dfy`, `DriveUpload.dfy`, `DriveRetries.dfy`, `DriveResult.dfy` | the Drive resumable upload: tiling, retries, the worker pool, how often a range is sent, what an Ok means |
| `Splitting.dfy`, `TelegramUpload.dfy` | splitting a file, sending its parts through a pool, collecting the result |
| `Task.dfy`, `Pipeline.dfy`, `PipelineCoverage.dfy`, `PipelineCut.dfy` | the task state machine and the poll loop with its concurrent uploads, for mirror and leech alike (`src/application/leech_url.cpp:211-437` has the same steps; where they differ the machine asks its mode) |
| `ActiveTasks.dfy`, `SharedGuards.dfy`, `CancelledRuns.dfy` | the cancellation registry and its guards; guards that share an id; the registry and a pipeline run as one machine |
| `StatusMessage.dfy` | the status message of a chat |
| `Gateway.dfy` | pending requests of the Telegram gateway |
| `ConnectionPool.dfy` | the SQLite slot pool and its move-only handles |
| `Subprocess.dfy` | the cancel handshake of a child process |
| `CommandLine.dfy`, `LineSlicer.dfy` | Windows argument quoting, incremental line slicing |
| `TimeCodec.dfy`, `TaskRepository.dfy` | the timestamp codec, the task table |
| `Formatting.dfy`, `Encodings.dfy` | UTF-8 truncation, HTML escaping, percent-encoding, form bodies, base64 |
| `Runs.dfy`, `Sets.dfy`, `Sequences.dfy`, `Arithmetic.dfy`, `Wrappers.dfy` | shared vocabulary and small facts |

Some promises that one would expect do not hold of the code. Each of them has an exact condition:

- An Ok from the Drive uploader is always a whole file if and only if the file fits into one chunk
  (`DriveResult.OkIsWholeIffSmall`): the parent reads neither the abort flag nor the byte counter. For
  every longer file, every number of workers and every retry limit it can return Ok with only the first
  chunk sent, when its wait for the join is cut short by a cancellation
  (`DriveResult.EarlyReturnMayBeCut`) and also after the join, when workers were torn down
  (`DriveResult.LongFilesMayBeCut`). With a server that answers 200 or 201 only when it has the whole file,
  Ok does mean that every chunk was accepted (`DriveResult.OkMeansAccepted`), and a join without abort or
  torn-down worker is complete in any case (`DriveUpload.CleanJoinIsComplete`).
- A pipelined run that returns Ok has delivered everything it listed if and only if the upload pool
  holds as many files (`PipelineCut.OkDeliversAllIffShort`).
- A read error while a file is split for Telegram is taken for its end, and short or empty parts are
  reported as success. The parts are the file if and only if no read loses a byte, a condition on the reads
  alone (`Splitting.SplitFile`), and then the size reported is the file's
  (`TelegramUpload.ReportedSizeIsFileSize`).
- The status message displays the cached text, the text of an edit under way, or the text of an edit that
  was never confirmed (`StatusMessage.CacheIsTrue`). Until the next call it stays true to the cache if and
  only if it is so now and no edit that may still take effect has another text
  (`StatusMessage.CacheIsTrueExactly`). If it is not, a refresh to the cached text may be skipped although
  the chat shows another (`StatusMessage.UnconfirmedEditIsForgotten`).
- A task survives storage if and only if it has a downloader id exactly with a backend kind
  (`TaskRepository.SurvivesIfBound`).
- A Windows command line gives back the arguments if and only if none contains a NUL
  (`CommandLine.ArgumentsSurvive`).

## Model

| member | source | states |
|---|---|---|
| ClaimPool.ClaimedAtMostOnce | src/infrastructure/upload/google_drive_uploader.cpp:579-588 | In every interleaving no index is claimed twice, by one worker or by two, and the counter overshoots by at most one per worker |
| ClaimPool.JoinFinishesAll | src/infrastructure/upload/google_drive_uploader.cpp:528-733 | A join with no abort and no torn-down worker means that no error was recorded, every item was finished and every worker is gone |
| ClaimPool.JoinIsLast | src/infrastructure/upload/google_drive_uploader.cpp:559-567 | The join is signalled exactly when the last worker has left, and no step of the pool is possible after it |
| ChunkPlan.ChunkBytes | src/infrastructure/upload/google_drive_uploader.cpp:468-471 | For every configured size the size in force is positive and a whole number of 256 KiB units, and within one unit of the configured size when that is at least one unit |
| ChunkPlan.BuildPlan | src/infrastructure/upload/google_drive_uploader.cpp:484-496 | The loop builds ceil(total/chunk) chunks that follow each other without gap or overlap from 0 to the file size, all offsets aligned and all but the last of full length |
| ChunkPlan.EveryByteOnce | src/infrastructure/upload/google_drive_uploader.cpp:484-496 | A byte position lies in some chunk if and only if it is in the file, and never in two |
| ChunkPlan.SumAll | src/infrastructure/upload/google_drive_uploader.cpp:484-496 | The chunk lengths add up to the file size |
| ChunkPlan.SumMonotone | src/infrastructure/upload/google_drive_uploader.cpp:718-727 | More finished chunks mean no fewer bytes, and the same bytes only if the finished chunks are the same |
| ChunkRetry.PutChunk | src/infrastructure/upload/google_drive_uploader.cpp:608-703 | The two retry layers end after at most max_retries + 1 attempts with at most two PUTs each; the backoff asked for is the capped doubling sum and bounded by it at max_retries; all answers but the last were transient or 401; the outcome is the abort flag, the error or the status of the last exchange, as the fold over the answers has it |
| ChunkRetry.Attempt | src/infrastructure/upload/google_drive_uploader.cpp:608-703 | One attempt ends the loop for the reason the last answer or the bearer gives, or leads to the next attempt |
| ChunkRetry.GoingOn | src/infrastructure/upload/google_drive_uploader.cpp:608-703 | While the loop goes on no answer was decisive and at most two PUTs were sent in each attempt |
| ChunkRetry.StatusIsLast | src/infrastructure/upload/google_drive_uploader.cpp:655-663 | A status is reported only if it is the last answer and not retryable, and 401 only if it came twice |
| ChunkRetry.Authorized | src/infrastructure/upload/google_drive_uploader.cpp:630-663 | One attempt sends at most twice, the second time only after a 401, and reports the bearer error or the last answer |
| DriveUpload.Parallelism | src/infrastructure/upload/google_drive_uploader.cpp:498-499 | At least one worker, at most one per chunk, and the configured number when that is possible |
| DriveUpload.Invariant | src/infrastructure/upload/google_drive_uploader.cpp:497-733 | The inductive invariant of the upload machine holds in every reachable state: what is counted is finished, what is finished was accepted, what was accepted was sent, and what was sent is a range of the plan |
| DriveUpload.BytesAreHonest | src/infrastructure/upload/google_drive_uploader.cpp:704-730 | In every reachable state bytes_uploaded is at most the length of the accepted chunks, and equals the file size if and only if every chunk was finished |
| DriveUpload.CleanJoinIsComplete | src/infrastructure/upload/google_drive_uploader.cpp:638-650 | After a join without abort or torn-down worker every chunk was accepted, bytes_uploaded is the file size, and the Content-Range values sent cover every byte of the file and nothing else, each byte by one range, retries aside (section 14.4 of RFC 9110) |
| DriveRetries.PutsAreBounded | src/infrastructure/upload/google_drive_uploader.cpp:608-703 | In every run each range of the plan is sent at most 2 * (max_retries + 1) times, and nothing else is sent |
| DriveResult.OkMeansAccepted | src/infrastructure/upload/google_drive_uploader.cpp:704-763 | If 200 and 201 are answered only once the whole file was accepted, Ok means that every chunk was accepted, whatever was torn down and whenever the parent looks |
| DriveResult.OneChunkIsWhole | src/infrastructure/upload/google_drive_uploader.cpp:704-763 | Whatever the server says and whenever the parent looks, Ok for a file of at most one chunk means that it was accepted |
| DriveResult.EarlyReturnMayBeCut | src/infrastructure/upload/google_drive_uploader.cpp:745-763 | For every plan of two or more chunks, every number of workers and every retry limit, a parent that stops waiting for the join may return Ok although no chunk but the first was ever sent, with no error, abort or torn-down worker |
| DriveResult.LongFilesMayBeCut | src/infrastructure/upload/google_drive_uploader.cpp:551-567 | The same after a join, when the workers were torn down by exceptions |
| DriveResult.OkIsWholeIffOneChunk | src/infrastructure/upload/google_drive_uploader.cpp:745-763 | Every Ok of a job, whether or not the parent waits for the join, is a whole file if and only if the plan has at most one chunk; and so for the Oks after a join alone |
| DriveResult.OkIsWholeIffSmall | src/infrastructure/upload/google_drive_uploader.cpp:491-496 | Both hold if and only if the file is no longer than the chunk size |
| Splitting.CopyPart | src/infrastructure/upload/telegram_uploader.cpp:126-141 | A part copied in buffers is the next stretch of the file; it has full size while the stream is good, and otherwise ends where the reads stopped delivering; it fails only if a write does |
| Splitting.SplitFile | src/infrastructure/upload/telegram_uploader.cpp:92-146 | Success means ceil(n/chunk) parts whose concatenation is exactly what the reads delivered; it is the file if and only if every read inside the file is unbroken, or is the last and breaks after the last byte; then no part is empty and all but the last have exactly the chunk size; failure means a file that cannot be opened, a non-positive size, or a part that cannot be created or written |
| Splitting.OneRead | src/infrastructure/upload/telegram_uploader.cpp:127-132 | From the position that the reads so far determine, a read goes on to the next such position or stops where the first broken read, or the end of the file, says |
| Splitting.WholeOrNot | src/infrastructure/upload/telegram_uploader.cpp:126-141 | The position at which the stream stops is the end of the file if and only if no read loses a byte |
| TelegramUpload.PartsWeigh | src/infrastructure/upload/telegram_uploader.cpp:403-412 | The part sizes add up to the size of the concatenation |
| TelegramUpload.Collect | src/infrastructure/upload/telegram_uploader.cpp:400-415 | The parent's loop reports the first error, a missing part, or the sum of the recorded sizes |
| TelegramUpload.SuccessMeansAllSent | src/infrastructure/upload/telegram_uploader.cpp:259-415 | In every interleaving, torn-down workers included, success is reported if and only if no error was recorded and every part was sent, and then with the size on disk |
| TelegramUpload.CleanJoinSucceeds | src/infrastructure/upload/telegram_uploader.cpp:300-415 | When all workers are gone, none torn down and no error recorded, success is what is reported |
| TelegramUpload.ReportedSizeIsFileSize | src/infrastructure/upload/telegram_uploader.cpp:239-415 | End to end, the size reported for a file that was split and sent is the size of its parts together, and its own size if and only if the parts are the file |
| Tasks.Task.constructor | src/domain/task.cpp:54-55 | A new task is Queued, without error or downloader |
| Tasks.Task.StartDownload | src/domain/task.cpp:73-80 | Allowed only from Queued; a refused call changes nothing |
| Tasks.Task.BeginProcessing | src/domain/task.cpp:82-89 | Allowed only from Downloading; a refused call changes nothing |
| Tasks.Task.BeginUpload | src/domain/task.cpp:91-98 | Allowed only from Downloading and Processing; a refused call changes nothing |
| Tasks.Task.MarkCompleted | src/domain/task.cpp:100-107 | Allowed only from Uploading; a refused call changes nothing |
| Tasks.Task.MarkFailed | src/domain/task.cpp:109-117 | Allowed from every state that is not terminal and stores the reason; a refused call changes nothing |
| Tasks.Task.MarkCancelled | src/domain/task.cpp:119-126 | Allowed from every state that is not terminal; a refused call changes nothing |
| Tasks.Task.AttachDownloader | src/domain/task.cpp:136-140 | Stores id and kind in any state |
| Tasks.SoundAlways | src/domain/task.cpp:73-140 | After any sequence of public calls the error message is present exactly in Failed |
| Tasks.BoundAlways | src/domain/task.cpp:136-140 | If no call attaches a downloader without a backend, the downloader id is present exactly with a backend |
| Tasks.TerminalForever | src/domain/task.cpp:64-126 | Once terminal, no sequence of calls changes the state or the error message |
| Pipeline.Invariant | src/application/mirror_url.cpp:263-507 | The inductive invariant on counters, position and task state holds in every reachable state of the pipeline |
| Pipeline.EveryRunEndsClean | src/application/mirror_url.cpp:335-507 | The task is terminal exactly from its marking on, Completed if and only if Ok is returned and Cancelled if and only if the run ends at the cancel stage; from then on nothing is in flight; the id is registered exactly until the run is done, so also in the window between marking and leaving; no run ends at a refused transition |
| Pipeline.UploadsAddUp | src/application/mirror_url.cpp:271-332 | In every interleaving in_flight + completed + failed is the number of queued files, in_flight never exceeds the pool size, first_error is set exactly when an upload failed, no file is handed to the uploader twice, and the one-shot upload runs at most once and only if nothing was queued |
| PipelineCoverage.CancelIsFinal | src/application/mirror_url.cpp:335-354 | Once the loop head is visited with the flag up, no further upload starts whatever happens, and the run can only end as Cancelled |
| PipelineCoverage.ShortListsAreDelivered | src/application/mirror_url.cpp:356-408 | If no more distinct files are ever listed than the pool holds, a pipelined run that returns Ok has delivered every file ever listed |
| PipelineCut.LongListsMayBeCut | src/application/mirror_url.cpp:389-408 | For every pipelining configuration and every list of distinct files longer than the pool, some run returns Ok although a listed file was never handed to the uploader |
| PipelineCut.OkDeliversAllIffShort | src/application/mirror_url.cpp:356-408 | For every pipelining configuration and list of distinct files, Ok means that everything listed was delivered if and only if the list is no longer than the pool |
| ActiveTasks.ActiveTaskRegistry.RegisterTask | include/cmlb/application/active_task_registry.hpp:36-45 | A known id gives the flag it has; an unknown one gets a fresh flag that is down; no other entry changes |
| ActiveTasks.ActiveTaskRegistry.Unregister | include/cmlb/application/active_task_registry.hpp:47-54 | Removes that entry and no other |
| ActiveTasks.ActiveTaskRegistry.Cancel | include/cmlb/application/active_task_registry.hpp:56-69 | Returns whether the id is known and raises that flag only |
| ActiveTasks.ActiveTaskGuard.constructor | include/cmlb/application/active_task_registry.hpp:81-83 | A guard holds the flag that the registry has for its id |
| ActiveTasks.ActiveTaskGuard.Destroy | include/cmlb/application/active_task_registry.hpp:90-93 | Takes the entry of its id away |
| ActiveTasks.FlagMeansCancelled | include/cmlb/application/active_task_registry.hpp:36-97 | With one live guard per id, in every interleaving a guard's flag is up if and only if a cancel call that found this guard has stored; a late store meant for an earlier guard of the same id does not touch a later one |
| ActiveTasks.LiveGuardIsFound | include/cmlb/application/active_task_registry.hpp:36-69 | While a guard lives the registry answers for its id with its flag, and a guard nobody cancelled starts and stays down |
| ActiveTasks.FlagsStayUp | include/cmlb/application/active_task_registry.hpp:56-69 | A raised flag is up in every later state |
| SharedGuards.FoundUntilOneLeaves | include/cmlb/application/active_task_registry.hpp:36-93 | Without the rule of one live guard per id, a cancel reaches a guard's flag if and only if no guard with its id has left since it entered |
| CancelledRuns.CancelledOnlyIfAsked | src/application/mirror_url.cpp:335-354 | In the joint machine of registry and run the guard lives exactly until the run is done, the run sees its flag up if and only if a cancel call that found its guard has stored, and a task becomes Cancelled only then or when its coroutine is cancelled |
| CancelledRuns.AskedIsCancelled | src/application/mirror_url.cpp:335-354 | Once a cancel call that found the run has stored and the loop head is visited, no further upload starts in any later state, and the task can only end as Cancelled |
| StatusMessage.Invariant | src/presentation/progress_renderer.cpp:112-250 | The inductive invariant on token, holders, times, chat and cache holds in every reachable state |
| StatusMessage.OneHolder | src/presentation/progress_renderer.cpp:56-66 | The tokens in the channel and the calls holding it are one together in every reachable state, interruptions included |
| StatusMessage.CacheIsTrue | src/presentation/progress_renderer.cpp:147-188 | In every reachable state the cached message, unless deleted, displays the cached text, the text of the one edit under way, or the text of an edit of it that was never confirmed |
| StatusMessage.NoOtherTextNoDoubt | src/presentation/progress_renderer.cpp:164-183 | With no call under way, if no unconfirmed edit of the message had another text than the cached one, the display is the cached text and stays so until a call runs |
| StatusMessage.CacheIsTrueExactly | src/presentation/progress_renderer.cpp:147-188 | With no call under way, the display stays the cached text in every later state until a call runs if and only if it is so now and no unconfirmed edit that may still take effect has another text |
| StatusMessage.LastEditNeverDecreases | src/presentation/progress_renderer.cpp:130-250 | The time of the last edit never goes back along any run |
| StatusMessage.PeriodicWaits | src/presentation/progress_renderer.cpp:129-134 | A periodic update of an existing message comes at least one throttle interval after the last edit of any kind |
| StatusMessage.PeriodicPace | src/presentation/progress_renderer.cpp:129-188 | In every run n + 1 periodic updates of existing messages span at least n throttle intervals |
| StatusMessage.NoSecondMessage | src/presentation/progress_renderer.cpp:150-183 | The confirmed messages are at most one more than the failed edits, and the posted ones at most that plus the unconfirmed sends |
| StatusMessage.UnconfirmedEditIsForgotten | src/presentation/progress_renderer.cpp:211-250 | For any two texts, a run in which an edit takes effect but is answered with an error leaves the cache behind the chat, and a forced refresh to the cached text changes nothing |
| Gateway.CalledExactlyOnce | src/infrastructure/telegram/telegram_gateway.cpp:202-265 | In every interleaving of requests, replies of any kind, sweeps and shutdown each registered continuation is pending or was called exactly once; after the drain everything registered before it was called; a request stays unregistered only if its id is still taken after a whole wrap of the 64-bit counter |
| Gateway.IdsRepeatOnlyAfterWrap | src/infrastructure/telegram/telegram_gateway.cpp:202-204 | Two requests get the same id if and only if they are a whole number of 2^64 wraps apart |
| Gateway.ResumeAllInv | src/infrastructure/telegram/telegram_gateway.cpp:214-230 | Calling any list of continuations in any order keeps the invariant |
| Gateway.Impl.constructor | src/infrastructure/telegram/telegram_gateway.cpp:176-185 | Nothing is pending and the first id is the first that is not reserved |
| Gateway.Impl.AllocateId | src/infrastructure/telegram/telegram_gateway.cpp:202-204 | Hands out the counter and advances it modulo 2^64 |
| Gateway.Impl.SendRequest | src/infrastructure/telegram/telegram_gateway.cpp:384-390 | Refines the request step: registers the continuation under the new id, unless that id is taken |
| Gateway.Impl.HandleEvent | src/infrastructure/telegram/telegram_gateway.cpp:248-265 | Refines the reply step: a known id is erased and its continuation called, an unknown one and id 0 change nothing |
| Gateway.Impl.EvictStale | src/infrastructure/telegram/telegram_gateway.cpp:214-230 | The sweep calls exactly the stale continuations, each once, and keeps exactly the others |
| Gateway.Impl.DrainPending | src/infrastructure/telegram/telegram_gateway.cpp:502-508 | Every pending continuation is called, then the map is empty |
| Gateway.Impl.Shutdown | src/infrastructure/telegram/telegram_gateway.cpp:494-508 | When run() returns every continuation registered before the drain was called |
| ConnectionPool.SqliteConnectionPool.constructor | src/infrastructure/persistence/sqlite_connection_pool.cpp:96-108 | After priming every slot is free exactly once |
| ConnectionPool.SqliteConnectionPool.Open | src/infrastructure/persistence/sqlite_connection_pool.cpp:88-95 | Refuses a pool of no connections and only that |
| ConnectionPool.SqliteConnectionPool.Acquire | src/infrastructure/persistence/sqlite_connection_pool.cpp:121-137 | Takes the first free slot into a new handle and keeps the partition; a failed wait changes nothing |
| ConnectionPool.SqliteConnectionHandle.Moved | include/cmlb/infrastructure/persistence/sqlite_connection_pool.hpp:41-46 | The new handle takes the slot over, the old one is empty, the partition is kept |
| ConnectionPool.SqliteConnectionHandle.MoveAssign | include/cmlb/infrastructure/persistence/sqlite_connection_pool.hpp:47-58 | Gives the old slot back, takes the other's over and empties the other; nothing happens on itself; the partition is kept |
| ConnectionPool.SqliteConnectionHandle.Release | src/infrastructure/persistence/sqlite_connection_pool.cpp:75-82 | Gives the slot back, if there is one, into a channel that is not full; the partition is kept |
| ConnectionPool.NeverFull | src/infrastructure/persistence/sqlite_connection_pool.cpp:139-148 | While a slot is held the channel has room for it |
| ConnectionPool.RunAll | src/infrastructure/persistence/sqlite_connection_pool.cpp:121-148 | After any sequence of acquire, move, self-move and destroy, free slots and held slots partition the pool without repeats |
| Subprocess.Invariant | src/infrastructure/system/subprocess.cpp:399-610 | The inductive invariant of worker, child and cancellations holds in every reachable state |
| Subprocess.CancellationIsNotLost | src/infrastructure/system/subprocess.cpp:126-154 | In every interleaving, once a kill_now call is over and the worker is past its own check, the child was signalled, is not running, or a wait on it failed |
| Subprocess.NoZombie | src/infrastructure/system/subprocess.cpp:554-610 | When the worker returns the child was reaped or never born, or a wait failed (reported only for the wait without hang, since the result of the last wait is ignored); the pid is withdrawn, and the result says cancelled only if a cancellation was asked for |
| Subprocess.LateCallSendsNothing | src/infrastructure/system/subprocess.cpp:134-148 | A kill_now call that loads the pid after the worker returned sends no signal |
| CommandLine.QuoteArg | src/infrastructure/system/subprocess.cpp:158-190 | The loop with its backslash counter writes the quoted form |
| CommandLine.JoinArgs | src/infrastructure/system/subprocess.cpp:202-206 | The arguments follow each other, each quoted and after a blank |
| CommandLine.ScanQuote | src/infrastructure/system/subprocess.cpp:158-190 | Whatever blank or end follows, reading one quoted argument by the backslash and quote rules, with any of the three readings of a doubled quote, gives it back whole and stops there |
| CommandLine.ParseTail | src/infrastructure/system/subprocess.cpp:202-206 | Parsing the joined line gives back every list of arguments |
| CommandLine.ArgumentsSurvive | src/infrastructure/system/subprocess.cpp:158-206 | In a NUL-terminated buffer, and with any of the three readings of a doubled quote, the parsed list is the given list if and only if no argument contains a NUL |
| LineSlicing.LineSlicer.constructor | src/infrastructure/system/subprocess.cpp:82-85 | Nothing pending, nothing emitted, an empty capture if one is wanted |
| LineSlicing.LineSlicer.Feed | src/infrastructure/system/subprocess.cpp:87-106 | Captures the chunk, emits the complete lines of what was pending together with it and keeps the rest |
| LineSlicing.LineSlicer.Slice | src/infrastructure/system/subprocess.cpp:92-106 | The scan emits exactly the complete lines, without line feed or a carriage return before it |
| LineSlicing.LineSlicer.Flush | src/infrastructure/system/subprocess.cpp:108-118 | Emits what is left, without a last carriage return, unless nothing remains |
| LineSlicing.LineSlicer.Drain | src/infrastructure/system/subprocess.cpp:82-119 | However the stream was cut into chunks, the listener sees the lines of the whole stream and the capture is the stream |
| LineSlicing.SplitIsExact | src/infrastructure/system/subprocess.cpp:92-106 | Lines and rest put together again are the stream, and none of them contains a line feed |
| LineSlicing.SplitIsUnique | src/infrastructure/system/subprocess.cpp:92-106 | Any cut of a stream into lines without line feeds and a rest is the one computed |
| LineSlicing.SplitInTwo | src/infrastructure/system/subprocess.cpp:87-106 | Splitting a + b is splitting a, then splitting what a left over together with b |
| TimeCodec.ReadInt | src/infrastructure/persistence/time_codec.hpp:39-51 | Reads a field exactly when all its characters are there and are digits |
| TimeCodec.ReadFraction | src/infrastructure/persistence/time_codec.hpp:60-78 | Up to three digits after a point as a decimal fraction in milliseconds |
| TimeCodec.Parse | src/infrastructure/persistence/time_codec.hpp:26-90 | The cursor-driven parser computes the parsing function, errors included |
| TimeCodec.DateIsValid | src/infrastructure/persistence/time_codec.hpp:20-24 | The date computed for a day number is a calendar date with that day number |
| TimeCodec.RoundTrip | src/infrastructure/persistence/time_codec.hpp:20-90 | For every instant of the years 0000 to 9999 parsing the printed text gives the instant floored to milliseconds (section 5.6 of RFC 3339) |
| TimeCodec.TextOrderIsTimeOrder | src/infrastructure/persistence/sqlite_task_repository.cpp:445-446 | One stored text is smaller than another if and only if its instant is earlier to the millisecond, which ORDER BY created_at relies on (section 5.1 of RFC 3339) |
| TimeCodec.CalendarAnchors | src/infrastructure/persistence/time_codec.hpp:20-24 | Day 0 is 1970-01-01, and two other known dates have their known day numbers |
| TaskRepository.NamesParse | src/infrastructure/persistence/sqlite_task_repository.cpp:29-79 | Every kind, downloader kind and state is read back from its own name |
| TaskRepository.Reconstitute | src/infrastructure/persistence/sqlite_task_repository.cpp:82-153 | Drives a fresh task to the stored state, error and binding; none of the transitions it uses is ever refused |
| TaskRepository.Find | src/infrastructure/persistence/sqlite_task_repository.cpp:262-317 | Parses every column and rebuilds the task, or reports the first column that does not parse |
| TaskRepository.SurvivesIfBound | src/infrastructure/persistence/sqlite_task_repository.cpp:157-183 | For a task with an error exactly in Failed, saving and loading never fails and restores everything but the update time if and only if it has a downloader id exactly with a backend |
| TaskRepository.ReachableTasksSurvive | src/infrastructure/persistence/sqlite_task_repository.cpp:82-183 | Every task that the public calls can produce loads, and is restored, with the creation time to the millisecond, if and only if its binding is whole; the update time is the stored one only if nothing is replayed |
| TaskRepository.BoundTasksSurvive | src/infrastructure/persistence/sqlite_task_repository.cpp:82-183 | Every task that is attached to real backends only survives |
| TaskRepository.UnboundIdIsLost | src/infrastructure/persistence/sqlite_task_repository.cpp:94-98 | An id attached to any reachable task without a backend is gone after loading |
| Formatting.TruncateForDisplay | src/core/formatting.cpp:218-238 | Never longer than the limit; the text itself if it fits, else dots or a prefix with dots; valid UTF-8 stays valid (section 4 of RFC 3629) and at most three bytes more than necessary are dropped |
| Formatting.BoundarySplits | src/core/formatting.cpp:226-232 | Cut before a byte that is not a continuation byte, a valid text falls into two valid texts |
| Formatting.StartIsNear | src/core/formatting.cpp:226-232 | In a valid text a character start is never more than three bytes back |
| Formatting.EscapeHtml | src/core/formatting.cpp:196-216 | The loop replaces exactly the three special characters by their entities |
| Formatting.EscapeIsInverted | src/core/formatting.cpp:196-216 | Unescaping gives every text back |
| Formatting.EscapeIsClean | src/core/formatting.cpp:196-216 | An escaped text has no angle bracket, and every ampersand in it starts an entity |
| Encodings.UrlEscape | src/infrastructure/upload/google_drive_uploader.cpp:219-233 | The Drive encoder, by membership in a list of safe characters, computes percent-encoding |
| Encodings.UrlEncode | src/infrastructure/download/qbittorrent_downloader.cpp:46-64 | The qBittorrent encoder, by ranges and a digit table, computes the same function |
| Encodings.PercentIsInverted | src/infrastructure/download/qbittorrent_downloader.cpp:46-64 | Decoding by URI rules or by form rules gives every byte string back (section 2.1 of RFC 3986) |
| Encodings.PercentIsClean | src/infrastructure/upload/google_drive_uploader.cpp:219-233 | Every character of an encoded text is unreserved or is a percent sign before two upper-case hexadecimal digits (section 2.3 of RFC 3986) |
| Encodings.MakeForm | src/infrastructure/download/qbittorrent_downloader.cpp:66-79 | The loop with its first flag writes the encoded fields with separators between them only |
| Encodings.FormIsInverted | src/infrastructure/download/qbittorrent_downloader.cpp:66-79 | Every list of fields, empty names and values included, is what its form body parses to |
| Encodings.Base64Encode | src/infrastructure/download/aria2_downloader.cpp:149-178 | The loop over groups of three and the padded end compute the encoding |
| Encodings.Base64IsInverted | src/infrastructure/download/aria2_downloader.cpp:149-178 | A strict decoder gives every byte string back (section 4 of RFC 4648) |
| Encodings.Base64IsUnique | src/infrastructure/download/aria2_downloader.cpp:149-178 | The decoder accepts one text only for each byte string, so the encoding is the only possible one |
| Encodings.Base64Length | src/infrastructure/download/aria2_downloader.cpp:149-178 | The length is 4 times ceil(n/3) |

## Left out

- Machine integers: counters and sizes are unbounded, except for the gateway's 64-bit request ids; the source's int and int64 counters and sizes stay far below their limits. Nanosecond ticks in 64 bits end in the year 2262, so the timestamp theorems, which go to the year 9999, cover more than the clock can represent.
- Cancellation of the parent of an upload pool: it stops waiting for the join. The results about Ok and success hold whenever the parent looks; that workers then go on beside the returned call is not followed further.
- Cancellation of a use-case coroutine: by asio's default it throws at its next await, so the orderly cancel path that the pipeline takes for it is more benign than the program; the path for a flag raised by the registry is the program's.
- Detached workers have no cancellation slot, so the step in which a worker sees its own cancellation and raises the abort flag is in the machine but does not occur in the program.
- Buffered writes: a part counts as written when the stream is good after the write; the flush in the stream's destructor is unchecked in the source and not modelled.
- Weak memory: atomics, channels and strands are sequentially consistent steps.
- Liveness: that timers fire, uploads finish, or the parent wakes after the join; a cancel of the join timer before the wait is armed has no effect in the source.
- Exceptions out of an upload: an upload is assumed to return a result, as the pipeline itself assumes; a throwing upload would leave in_flight too high.
- The session abort request after a failed Drive upload, the simple upload path and the directory pools of both uploaders, which follow the same claim protocol.
- The awaits between marking a task and leaving the run (persisting, removing the download, editing the message) are one position in which other steps may intervene; their own failures are ignored by the source.
- Recording a pool's first error is one step together with raising the abort flag, although the source takes a mutex in between.
- The wait inside the HTTP client and its own cancellation are answers of the environment.
- Persisting the task at each transition, and that CancelTask may overwrite a stored terminal state with a copy it loaded earlier: the theorems are about the task in memory.
- The texts of status messages and logs.
- The Windows half of the process runner, signals sent to a pid that the kernel has reused between the load and the kill, and timeouts as durations.
- CommandLine.ArgumentsSurvive: arguments are sequences of characters; the conversion of bytes to wide characters and the executable token are not modelled.
- TimeCodec.RoundTrip: the chrono formatting and calendar conversion of the libraries are replaced by the definition of the Gregorian calendar; instants outside the years 0000 to 9999 are not printed in this format.
- SQL statements, migrations, and the other repositories.
- Configuration, RSS, the HTTP connection pool, help and settings commands, system metrics and the wrappers around external tools: easy or foreign code.
