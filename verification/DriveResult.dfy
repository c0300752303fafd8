/**
 * What an Ok from the Drive uploader says when workers may be torn down and the parent's wait for
 * the join may be cut short. The parent looks at the recorded error and the file id, not at the
 * abort flag or the byte counter, so an Ok is a whole file exactly when the file is a single chunk,
 * or the server vouches for it.
 */
module DriveResult {
  import opened Wrappers
  import opened Runs
  import opened Sequences
  import opened Arithmetic
  import opened ChunkPlan
  import opened DriveUpload
  import R = ChunkRetry
  import P = ClaimPool

  ghost predicate AllAcked(u: Upload)
  {
    forall i :: 0 <= i < |u.acked| ==> u.acked[i]
  }

  // A server that keeps its word

  predicate FinalStatus(code: int)
  {
    code == 200 || code == 201
  }

  predicate FinalAnswer(a: R.Answer)
  {
    a.Http? && FinalStatus(a.code)
  }

  /** The server says 200 or 201 only once it has accepted every chunk. */
  ghost predicate HonestNext(u: Upload, u': Upload)
  {
    exists w, a :: Enabled(u, w, a) && u' == Apply(u, w, a) && (a.Put? && FinalAnswer(a.answer) ==> AllAcked(u'))
  }

  ghost predicate SawFinal(phase: Phase)
  {
    || (phase.Sending? && exists k :: 0 <= k < |phase.answers| && FinalAnswer(phase.answers[k]))
    || (phase.Answered? && phase.outcome.Status? && FinalStatus(phase.outcome.code))
  }

  ghost predicate FinalMeansAll(u: Upload)
  {
    && (u.fileId != "" ==> AllAcked(u))
    && (forall w :: 0 <= w < |u.phases| && SawFinal(u.phases[w]) ==> AllAcked(u))
  }

  ghost predicate HonestInv(u: Upload)
  {
    Inv(u) && FinalMeansAll(u)
  }

  /** With a server that keeps its word, Ok means that the server accepted every chunk, whatever was torn down and whenever the parent looks. */
  lemma OkMeansAccepted(u: Upload)
    requires Reachable(Init, HonestNext, u)
    requires Returned(u).Ok?
    ensures AllAcked(u)
  {
    forall s | Init(s) ensures HonestInv(s) {
      InitInv(s);
      assert forall w :: 0 <= w < |s.phases| ==> s.phases[w] == Opening;
    }
    forall s, s' | HonestInv(s) && HonestNext(s, s') ensures HonestInv(s') {
      var w, a :| Enabled(s, w, a) && s' == Apply(s, w, a) && (a.Put? && FinalAnswer(a.answer) ==> AllAcked(s'));
      StepInv(s, w, a);
      HonestStep(s, w, a);
    }
    ReachableInvariant(Init, HonestNext, HonestInv, u);
  }

  lemma SawFinalStep(u: Upload, w: nat, a: Act)
    requires Inv(u) && Enabled(u, w, a)
    ensures |Apply(u, w, a).phases| == |u.phases|
    ensures SawFinal(Apply(u, w, a).phases[w]) ==> SawFinal(u.phases[w]) || (a.Put? && FinalAnswer(a.answer))
  {
    if a.EndChunk? && a.outcome.Status? {
      assert PhaseFits(u, w);
      R.StatusIsLast(u.retries, u.phases[w].answers, a.outcome.code);
    }
  }

  lemma AckedKept(u: Upload, w: nat, a: Act)
    requires Enabled(u, w, a)
    ensures var v := Apply(u, w, a);
      && |v.acked| == |u.acked| && (forall i :: 0 <= i < |u.acked| && u.acked[i] ==> v.acked[i])
      && |v.phases| == |u.phases| && (forall x :: 0 <= x < |u.phases| && x != w ==> v.phases[x] == u.phases[x])
      && (v.fileId == u.fileId || SawFinal(u.phases[w]))
  {
  }

  lemma HonestStep(u: Upload, w: nat, a: Act)
    requires Inv(u) && FinalMeansAll(u) && Enabled(u, w, a)
    requires a.Put? && FinalAnswer(a.answer) ==> AllAcked(Apply(u, w, a))
    ensures FinalMeansAll(Apply(u, w, a))
  {
    AckedKept(u, w, a);
    SawFinalStep(u, w, a);
    HonestKept(u, Apply(u, w, a), w);
  }

  lemma HonestKept(u: Upload, v: Upload, w: nat)
    requires FinalMeansAll(u) && w < |u.phases| == |v.phases| && |v.acked| == |u.acked|
    requires forall i :: 0 <= i < |u.acked| && u.acked[i] ==> v.acked[i]
    requires forall x :: 0 <= x < |u.phases| && x != w ==> v.phases[x] == u.phases[x]
    requires v.fileId == u.fileId || SawFinal(u.phases[w])
    requires SawFinal(v.phases[w]) ==> SawFinal(u.phases[w]) || AllAcked(v)
    ensures FinalMeansAll(v)
  {
    assert AllAcked(u) ==> AllAcked(v);
  }

  // Any server: a file of at most one chunk

  ghost predicate SomeAcked(u: Upload)
  {
    exists i :: 0 <= i < |u.acked| && u.acked[i]
  }

  ghost predicate IdMeansSome(u: Upload)
  {
    u.fileId != "" ==> SomeAcked(u)
  }

  lemma IdStep(u: Upload, w: nat, a: Act)
    requires Inv(u) && IdMeansSome(u) && Enabled(u, w, a)
    ensures IdMeansSome(Apply(u, w, a))
  {
    var v := Apply(u, w, a);
    if u.fileId != "" {
      var i :| 0 <= i < |u.acked| && u.acked[i];
      assert v.acked[i];
    } else if a.Settle? {
      assert PhaseFits(u, w);
      var i := u.pool.workers[w].item;
      assert v.fileId != "" ==> v.acked[i];
    }
  }

  ghost predicate IdInv(u: Upload)
  {
    Inv(u) && IdMeansSome(u)
  }

  lemma IdAlways(u: Upload)
    requires Reachable(Init, Next, u)
    ensures IdInv(u)
  {
    forall s | Init(s) ensures IdInv(s) {
      InitInv(s);
    }
    forall s, s' | IdInv(s) && Next(s, s') ensures IdInv(s') {
      var w, a :| Enabled(s, w, a) && s' == Apply(s, w, a);
      StepInv(s, w, a);
      IdStep(s, w, a);
    }
    ReachableInvariant(Init, Next, IdInv, u);
  }

  /** A file of at most one chunk was accepted whole if Ok is returned. */
  lemma OneChunkIsWhole(u: Upload)
    requires Reachable(Init, Next, u) && |u.plan| <= 1 && Returned(u).Ok?
    ensures AllAcked(u)
  {
    IdAlways(u);
    assert |u.acked| == |u.plan|;
  }

  // Any server: a file of two chunks or more, and any number of workers

  datatype Job = Job(total: int, retries: nat, plan: seq<Chunk>, workers: nat)

  ghost predicate Proper(j: Job)
  {
    j.total >= 0 && Contiguous(j.plan, j.total) && j.workers >= 1
  }

  predicate Long(j: Job)
  {
    |j.plan| >= 2 && j.workers >= 1
  }

  /** Worker 0 alone has moved, and has claimed at most chunk 0; `died` says that it was torn down since. */
  function Alone(j: Job, worker: P.Worker, phase: Phase, item: P.Item, died: bool, acked: bool, id: string): Upload
    requires Long(j)
  {
    var claimed := !item.Unclaimed?;
    Upload(j.total, j.retries, j.plan,
           P.Pool([item] + Repeat(P.Unclaimed, |j.plan| - 1), [worker] + Repeat(P.Idle, j.workers - 1),
                  if claimed then 1 else 0, j.workers, false, false, None, if claimed then [(0, 0)] else [], died),
           [phase] + Repeat(Opening, j.workers - 1),
           if item.Finished? then j.plan[0].length else 0, id,
           [acked] + Repeat(false, |j.plan| - 1),
           if acked then [RangeOf(j.plan[0], j.total)] else [])
  }

  lemma FirstOf<T>(x: T, y: T, rest: seq<T>)
    ensures ([x] + rest)[0 := y] == [y] + rest
  {
  }

  lemma Took(u: Upload, w: nat, a: Act, v: Upload)
    requires Enabled(u, w, a) && v == Apply(u, w, a)
    ensures Next(u, v)
  {
  }

  const NONE := P.Unclaimed
  const MINE := P.Held(0)

  lemma Begins(j: Job)
    requires Proper(j) && Long(j)
    ensures Init(Alone(j, P.Idle, Opening, NONE, false, false, ""))
  {
    var u := Alone(j, P.Idle, Opening, NONE, false, false, "");
    assert u.pool == P.Fresh(|j.plan|, j.workers);
    assert u == Fresh(j.total, j.retries, j.plan, j.workers);
  }

  lemma Opens(j: Job)
    requires Long(j)
    ensures Next(Alone(j, P.Idle, Opening, NONE, false, false, ""), Alone(j, P.Idle, AtLoop, NONE, false, false, ""))
  {
    FirstOf(Opening, AtLoop, Repeat(Opening, j.workers - 1));
    Took(Alone(j, P.Idle, Opening, NONE, false, false, ""), 0, Open(None), Alone(j, P.Idle, AtLoop, NONE, false, false, ""));
  }

  lemma Checks(j: Job, item: P.Item, acked: bool, id: string)
    requires Long(j)
    ensures Next(Alone(j, P.Idle, AtLoop, item, false, acked, id), Alone(j, P.Ready, AtLoop, item, false, acked, id))
  {
    FirstOf(P.Idle, P.Ready, Repeat(P.Idle, j.workers - 1));
    Took(Alone(j, P.Idle, AtLoop, item, false, acked, id), 0, Loop(P.PassCheck), Alone(j, P.Ready, AtLoop, item, false, acked, id));
  }

  lemma Claims(j: Job)
    requires Long(j)
    ensures Next(Alone(j, P.Ready, AtLoop, NONE, false, false, ""), Alone(j, P.Holding(0), Reading, MINE, false, false, ""))
  {
    FirstOf(P.Ready, P.Holding(0), Repeat(P.Idle, j.workers - 1));
    FirstOf(NONE, MINE, Repeat(P.Unclaimed, |j.plan| - 1));
    FirstOf(AtLoop, Reading, Repeat(Opening, j.workers - 1));
    Took(Alone(j, P.Ready, AtLoop, NONE, false, false, ""), 0, Loop(P.Claim), Alone(j, P.Holding(0), Reading, MINE, false, false, ""));
  }

  /** The phases between the claim and the credit. */
  function Working(j: Job, phase: Phase, acked: bool, id: string): Upload
    requires Long(j)
  {
    Alone(j, P.Holding(0), phase, MINE, false, acked, id)
  }

  lemma Shapely(j: Job, phase: Phase, acked: bool, id: string)
    requires Long(j)
    ensures Busy(Working(j, phase, acked, id), 0) && Working(j, phase, acked, id).phases[0] == phase
  {
  }

  lemma Sends(j: Job)
    requires Long(j)
    ensures Next(Working(j, Reading, false, ""), Working(j, Sending([]), false, ""))
    ensures Next(Working(j, Sending([]), false, ""), Working(j, Sending([R.Http(200)]), true, ""))
  {
    Shapely(j, Reading, false, "");
    FirstOf(Reading, Sending([]), Repeat(Opening, j.workers - 1));
    Took(Working(j, Reading, false, ""), 0, Read(None), Working(j, Sending([]), false, ""));
    Shapely(j, Sending([]), false, "");
    FirstOf(Sending([]), Sending([R.Http(200)]), Repeat(Opening, j.workers - 1));
    FirstOf(false, true, Repeat(false, |j.plan| - 1));
    assert [] + [R.Http(200)] == [R.Http(200)] && [] + [RangeOf(j.plan[0], j.total)] == [RangeOf(j.plan[0], j.total)];
    Took(Working(j, Sending([]), false, ""), 0, Put(R.Http(200)), Working(j, Sending([R.Http(200)]), true, ""));
  }

  const ANSWERED := Answered(R.Status(200))

  lemma Settles(j: Job)
    requires Long(j)
    ensures Next(Working(j, Sending([R.Http(200)]), true, ""), Working(j, ANSWERED, true, ""))
    ensures Next(Working(j, ANSWERED, true, ""), Working(j, Crediting, true, "id"))
  {
    Shapely(j, Sending([R.Http(200)]), true, "");
    FirstOf(Sending([R.Http(200)]), ANSWERED, Repeat(Opening, j.workers - 1));
    R.AfterNext(j.retries, [], R.Http(200));
    assert [] + [R.Http(200)] == [R.Http(200)];
    Took(Working(j, Sending([R.Http(200)]), true, ""), 0, EndChunk(R.Status(200)), Working(j, ANSWERED, true, ""));
    Shapely(j, ANSWERED, true, "");
    FirstOf(ANSWERED, Crediting, Repeat(Opening, j.workers - 1));
    Took(Working(j, ANSWERED, true, ""), 0, Settle(Some("id")), Working(j, Crediting, true, "id"));
  }

  lemma Credits(j: Job)
    requires Long(j)
    ensures Next(Working(j, Crediting, true, "id"), Alone(j, P.Idle, AtLoop, P.Finished, false, true, "id"))
  {
    Shapely(j, Crediting, true, "id");
    FirstOf(P.Holding(0), P.Idle, Repeat(P.Idle, j.workers - 1));
    FirstOf(MINE, P.Finished, Repeat(P.Unclaimed, |j.plan| - 1));
    FirstOf(Crediting, AtLoop, Repeat(Opening, j.workers - 1));
    Took(Working(j, Crediting, true, "id"), 0, Credit, Alone(j, P.Idle, AtLoop, P.Finished, false, true, "id"));
  }

  /** Chunk 0 is sent, answered 200 and counted; nothing else has happened. */
  function Counted(j: Job): Upload
    requires Long(j)
  {
    Alone(j, P.Idle, AtLoop, P.Finished, false, true, "id")
  }

  lemma CountsFirst(j: Job)
    requires Proper(j) && Long(j)
    ensures Reachable(Init, Next, Counted(j))
  {
    var s0 := Alone(j, P.Idle, Opening, NONE, false, false, "");
    Begins(j);
    Start(Init, Next, s0);
    Opens(j);
    Checks(j, NONE, false, "");
    Claims(j);
    Sends(j);
    var s1 := Alone(j, P.Idle, AtLoop, NONE, false, false, "");
    var s4 := Working(j, Sending([]), false, "");
    Extend4(Init, Next, s0, s1, Alone(j, P.Ready, AtLoop, NONE, false, false, ""), Working(j, Reading, false, ""), s4);
    Settles(j);
    Credits(j);
    Extend4(Init, Next, s4, Working(j, Sending([R.Http(200)]), true, ""), Working(j, ANSWERED, true, ""), Working(j, Crediting, true, "id"), Counted(j));
  }

  lemma TornDown(j: Job)
    requires Long(j)
    ensures Next(Counted(j), Thinned(j, 0))
  {
    FirstOf(P.Idle, P.Leaving, Repeat(P.Idle, j.workers - 1));
    var v := Alone(j, P.Leaving, AtLoop, P.Finished, true, true, "id");
    Took(Counted(j), 0, Die, v);
    assert Thinned(j, 0).pool.workers == v.pool.workers;
    assert Thinned(j, 0) == v;
  }

  /** Worker 0 was torn down, `k` more workers have left, and worker `k` + 1 is at `worker`. */
  function Thinning(j: Job, k: nat, worker: P.Worker): Upload
    requires Long(j) && k + 1 < j.workers
  {
    var u := Alone(j, P.Leaving, AtLoop, P.Finished, true, true, "id");
    u.(pool := u.pool.(workers := ([P.Leaving] + Repeat(P.Gone, k)) + [worker] + Repeat(P.Idle, j.workers - 2 - k), live := j.workers - k))
  }

  /** `k` workers besides worker 0 have left. */
  function Thinned(j: Job, k: nat): Upload
    requires Long(j) && k < j.workers
  {
    var u := Alone(j, P.Leaving, AtLoop, P.Finished, true, true, "id");
    u.(pool := u.pool.(workers := ([P.Leaving] + Repeat(P.Gone, k)) + Repeat(P.Idle, j.workers - 1 - k), live := j.workers - k))
  }

  lemma MiddleOf<T>(before: seq<T>, x: T, y: T, after: seq<T>)
    ensures (before + [x] + after)[|before| := y] == before + [y] + after
    ensures (before + [x] + after)[|before|] == x
  {
  }

  lemma TurnsTo(j: Job, k: nat)
    requires Long(j) && k + 1 < j.workers
    ensures Thinned(j, k) == Thinning(j, k, P.Idle)
    ensures Thinned(j, k + 1) == Thinning(j, k, P.Gone).(pool := Thinning(j, k, P.Gone).pool.(live := j.workers - k - 1))
  {
    var n := j.workers - 2 - k;
    assert Repeat(P.Idle, n + 1) == [P.Idle] + Repeat(P.Idle, n);
    assert Repeat(P.Gone, k + 1) == Repeat(P.Gone, k) + [P.Gone];
    Regroup([P.Leaving] + Repeat(P.Gone, k), P.Idle, Repeat(P.Idle, n));
    Regroup([P.Leaving], P.Gone, Repeat(P.Gone, k));
  }

  lemma Regroup<T>(a: seq<T>, x: T, b: seq<T>)
    ensures a + ([x] + b) == a + [x] + b
    ensures a + (b + [x]) == (a + b) + [x]
  {
  }

  /** The next worker is torn down before it has done anything. */
  lemma Leaves(j: Job, k: nat)
    requires Long(j) && k + 1 < j.workers
    ensures Next(Thinned(j, k), Thinning(j, k, P.Leaving))
  {
    TurnsTo(j, k);
    MiddleOf([P.Leaving] + Repeat(P.Gone, k), P.Idle, P.Leaving, Repeat(P.Idle, j.workers - 2 - k));
    Took(Thinning(j, k, P.Idle), k + 1, Die, Thinning(j, k, P.Leaving));
  }

  lemma Exits(j: Job, k: nat)
    requires Long(j) && k + 1 < j.workers
    ensures Next(Thinning(j, k, P.Leaving), Thinned(j, k + 1))
  {
    MiddleOf([P.Leaving] + Repeat(P.Gone, k), P.Leaving, P.Gone, Repeat(P.Idle, j.workers - 2 - k));
    TurnsTo(j, k);
    Took(Thinning(j, k, P.Leaving), k + 1, Exit, Thinned(j, k + 1));
  }

  lemma ExtendTwice(s: Upload, t: Upload, u: Upload)
    requires Reachable(Init, Next, s) && Next(s, t) && Next(t, u)
    ensures Reachable(Init, Next, u)
  {
    Extend(Init, Next, s, t);
    Extend(Init, Next, t, u);
  }

  lemma FirstLeaves(j: Job)
    requires Proper(j) && Long(j)
    ensures Reachable(Init, Next, Thinned(j, 0))
  {
    CountsFirst(j);
    TornDown(j);
    Extend(Init, Next, Counted(j), Thinned(j, 0));
  }

  lemma OneMoreLeaves(j: Job, k: nat)
    requires Long(j) && k + 1 < j.workers && Reachable(Init, Next, Thinned(j, k))
    ensures Reachable(Init, Next, Thinned(j, k + 1))
  {
    Leaves(j, k);
    Exits(j, k);
    ExtendTwice(Thinned(j, k), Thinning(j, k, P.Leaving), Thinned(j, k + 1));
  }

  lemma {:induction false} AllLeave(j: Job, k: nat)
    requires Proper(j) && Long(j) && k < j.workers
    ensures Reachable(Init, Next, Thinned(j, k))
  {
    if k == 0 {
      FirstLeaves(j);
    } else {
      AllLeave(j, k - 1);
      OneMoreLeaves(j, k - 1);
    }
  }

  /** The run belongs to this job. */
  predicate RunOf(j: Job, u: Upload)
  {
    u.total == j.total && u.retries == j.retries && u.plan == j.plan && |u.phases| == j.workers
  }

  /** An Ok for this job of which only the first chunk was ever sent. */
  ghost predicate OnlyFirstSent(j: Job, u: Upload)
  {
    && Reachable(Init, Next, u) && RunOf(j, u) && Returned(u) == Ok(j.total)
    && !AllAcked(u) && u.bytes < u.total
    && forall i :: 0 < i < |j.plan| ==> RangeOf(j.plan[i], j.total) !in u.log
  }

  lemma FirstIsNotAll(j: Job, u: Upload)
    requires Proper(j) && Long(j) && Reachable(Init, Next, u) && RunOf(j, u) && Returned(u) == Ok(j.total)
    requires u.acked == [true] + Repeat(false, |j.plan| - 1) && u.pool.items == [P.Finished] + Repeat(P.Unclaimed, |j.plan| - 1)
    requires u.log == [RangeOf(j.plan[0], j.total)]
    ensures OnlyFirstSent(j, u)
  {
    assert !u.acked[1] && !u.pool.items[1].Finished?;
    BytesAreHonest(u);
    forall i | 0 < i < |j.plan| ensures RangeOf(j.plan[i], j.total) != RangeOf(j.plan[0], j.total) {
      Ordered(j.plan, j.total, 0, i);
    }
  }

  /** A file of two chunks or more, any number of workers: a parent whose wait for the join is cut short may return Ok although only the first chunk was ever sent, with no error and nothing torn down. */
  lemma EarlyReturnMayBeCut(j: Job) returns (u: Upload)
    requires Proper(j) && Long(j)
    ensures OnlyFirstSent(j, u) && !u.pool.signalled && !u.pool.abort && !u.pool.died
  {
    u := Counted(j);
    CountsFirst(j);
    FirstIsNotAll(j, u);
  }

  /** So may a parent that waits for the join, if the workers are torn down. */
  lemma LongFilesMayBeCut(j: Job) returns (u: Upload)
    requires Proper(j) && Long(j)
    ensures OnlyFirstSent(j, u) && u.pool.signalled && !u.pool.abort
  {
    AllLeave(j, j.workers - 1);
    u := Left(j);
    LastExit(j);
    Extend(Init, Next, Thinned(j, j.workers - 1), u);
    FirstIsNotAll(j, u);
  }

  /** Everybody has left. */
  function Left(j: Job): Upload
    requires Long(j)
  {
    var u := Alone(j, P.Leaving, AtLoop, P.Finished, true, true, "id");
    u.(pool := u.pool.(workers := [P.Gone] + Repeat(P.Gone, j.workers - 1), live := 0, signalled := true))
  }

  lemma LastExit(j: Job)
    requires Long(j)
    ensures Next(Thinned(j, j.workers - 1), Left(j))
  {
    var s := Thinned(j, j.workers - 1);
    FirstOf(P.Leaving, P.Gone, Repeat(P.Gone, j.workers - 1));
    assert s.pool.workers == [P.Leaving] + Repeat(P.Gone, j.workers - 1);
    Took(s, 0, Exit, Left(j));
  }

  /** Whenever the parent looks, before the join if its wait is cut short or after it, an Ok is a whole file. */
  ghost predicate OkIsWhole(j: Job)
  {
    forall u :: Reachable(Init, Next, u) && RunOf(j, u) && Returned(u).Ok? ==> AllAcked(u)
  }

  ghost predicate JoinedOkIsWhole(j: Job)
  {
    forall u :: Reachable(Init, Next, u) && RunOf(j, u) && u.pool.signalled && Returned(u).Ok? ==> AllAcked(u)
  }

  /** An Ok is always a whole file if and only if the plan has at most one chunk, whatever the number of workers and retries, and whether or not the parent waits for the join. */
  lemma OkIsWholeIffOneChunk(j: Job)
    requires Proper(j)
    ensures OkIsWhole(j) <==> |j.plan| <= 1
    ensures JoinedOkIsWhole(j) <==> |j.plan| <= 1
  {
    if |j.plan| <= 1 {
      forall u | Reachable(Init, Next, u) && RunOf(j, u) && Returned(u).Ok? ensures AllAcked(u) {
        OneChunkIsWhole(u);
      }
    } else {
      var u := LongFilesMayBeCut(j);
      assert !AllAcked(u);
    }
  }

  /** As a caller can tell beforehand: exactly when the file fits into one chunk. */
  lemma OkIsWholeIffSmall(j: Job, chunkBytes: int)
    requires Proper(j) && chunkBytes > 0 && |j.plan| == (j.total + chunkBytes - 1) / chunkBytes
    ensures OkIsWhole(j) <==> j.total <= chunkBytes
    ensures JoinedOkIsWhole(j) <==> j.total <= chunkBytes
  {
    OkIsWholeIffOneChunk(j);
    CeilingAtMostOne(j.total, chunkBytes);
  }
}
