/**
 * The resumable Drive upload as a whole: a pool of workers over a chunk plan, every interleaving
 * of their steps, and what the parent may conclude once the join is signalled.
 */
module DriveUpload {
  import opened Wrappers
  import opened Runs
  import opened ChunkPlan
  import R = ChunkRetry
  import P = ClaimPool

  /** The Content-Range header of a PUT, "bytes first-last/total". */
  datatype ContentRange = ContentRange(first: int, last: int, total: int)

  /** What a worker is doing with its item; `Opening` and `AtLoop` are the phases without one. */
  datatype Phase =
    | Opening
    | AtLoop
    | Reading
    | Sending(answers: seq<R.Answer>)            // the answers to this chunk's PUTs so far
    | Answered(outcome: R.Outcome)
    | Crediting                                  // accepted, bytes not yet added

  /** `retries` is the configured number, at least 0. `bytes` and `fileId` are shared variables; `acked` and `log` record what the server accepted and what was sent. */
  datatype Upload = Upload(
    total: int,
    retries: nat,
    plan: seq<Chunk>,
    pool: P.Pool,
    phases: seq<Phase>,
    bytes: int,
    fileId: string,
    acked: seq<bool>,
    log: seq<ContentRange>)

  datatype Act =
    | Open(error: Option<string>)
    | Loop(step: P.Act)
    | Read(error: Option<string>)
    | Put(answer: R.Answer)
    | EndChunk(outcome: R.Outcome)
    | Settle(parsed: Option<string>)             // the id in a 200/201 body, if it parses
    | Credit
    | Die
    | Exit

  predicate AcceptedBy(a: R.Answer)
  {
    a.Http? && Accepted(a.code)
  }

  predicate Accepted(code: int)
  {
    code == 200 || code == 201 || code == 308
  }

  function RangeOf(c: Chunk, total: int): ContentRange
  {
    ContentRange(c.offset, c.offset + c.length - 1, total)
  }

  predicate LoopStep(a: P.Act)
  {
    a.PassCheck? || a.SeeAbort? || a.RaiseAbort? || a.Claim?
  }

  predicate Shaped(u: Upload)
  {
    && |u.phases| == |u.pool.workers|
    && |u.plan| == |u.pool.items| == |u.acked|
    && forall w :: 0 <= w < |u.pool.workers| && u.pool.workers[w].Holding? ==> u.pool.workers[w].item < |u.plan|
  }

  /** The worker holds an item and is in a phase that belongs to one. */
  predicate Busy(u: Upload, w: nat)
  {
    Shaped(u) && w < |u.phases| && u.pool.workers[w].Holding?
  }

  predicate Enabled(u: Upload, w: nat, a: Act)
  {
    && Shaped(u) && w < |u.phases|
    && match a
       case Open(_) => u.phases[w].Opening? && u.pool.workers[w].Idle?
       case Loop(step) => u.phases[w].AtLoop? && LoopStep(step) && P.Enabled(u.pool, w, step)
       case Read(_) => Busy(u, w) && u.phases[w].Reading?
       case Put(_) => Busy(u, w) && u.phases[w].Sending? && R.After(u.retries, u.phases[w].answers).At?
       case EndChunk(o) =>
         Busy(u, w) && u.phases[w].Sending? && R.Ends(u.retries, u.phases[w].answers, o) && (o.AbortSeen? ==> u.pool.abort)
       case Settle(_) =>
         Busy(u, w) && u.phases[w].Answered? && (u.phases[w].outcome.AbortSeen? ==> u.pool.abort)
       case Credit => Busy(u, w) && u.phases[w].Crediting?
       case Die => P.Enabled(u.pool, w, P.Die)
       case Exit => P.Enabled(u.pool, w, P.Exit)
  }

  function Pooled(u: Upload, w: nat, a: P.Act): Upload
    requires P.Enabled(u.pool, w, a)
  {
    u.(pool := P.Apply(u.pool, w, a))
  }

  function Apply(u: Upload, w: nat, a: Act): Upload
    requires Enabled(u, w, a)
  {
    match a
    case Open(None) => u.(phases := u.phases[w := AtLoop])
    case Open(Some(e)) => Pooled(u, w, P.Fail(e))
    case Loop(step) =>
      var v := Pooled(u, w, step);
      if v.pool.workers[w].Holding? then v.(phases := u.phases[w := Reading]) else v
    case Read(None) => u.(phases := u.phases[w := Sending([])])
    case Read(Some(e)) => Pooled(u, w, P.Fail(e))
    case Put(answer) =>
      var i := u.pool.workers[w].item;
      u.(log := u.log + [RangeOf(u.plan[i], u.total)],
         phases := u.phases[w := Sending(u.phases[w].answers + [answer])],
         acked := if AcceptedBy(answer) then u.acked[i := true] else u.acked)
    case EndChunk(o) => u.(phases := u.phases[w := Answered(o)])
    case Settle(parsed) =>
      var o := u.phases[w].outcome;
      if o.Failed? then Pooled(u, w, P.Fail(o.error))
      else if u.pool.abort then Pooled(u, w, P.Drop)
      else if o.code == 200 || o.code == 201 then
        if parsed.Some? then u.(fileId := parsed.value, phases := u.phases[w := Crediting])
        else Pooled(u, w, P.Fail("gdrive: final chunk parse"))
      else if o.code == 308 then u.(phases := u.phases[w := Crediting])
      else Pooled(u, w, P.Fail("gdrive: chunk PUT returned an unexpected status"))
    case Credit =>
      Pooled(u, w, P.Finish).(bytes := u.bytes + u.plan[u.pool.workers[w].item].length,
                              phases := u.phases[w := AtLoop])
    case Die => Pooled(u, w, P.Die)
    case Exit => Pooled(u, w, P.Exit)
  }

  /** Workers spawned: the configured number, at least one and at most one per chunk. */
  function Parallelism(configured: int, chunks: nat): (workers: nat)
    ensures 1 <= workers <= Max(1, chunks)
    ensures 1 <= configured <= chunks ==> workers == configured
  {
    Max(1, Min(configured, Max(1, chunks)))
  }

  function Fresh(total: nat, retries: nat, plan: seq<Chunk>, workers: nat): Upload
  {
    Upload(total, retries, plan, P.Fresh(|plan|, workers), seq(workers, _ => Opening), 0, "", seq(|plan|, _ => false), [])
  }

  ghost predicate Init(u: Upload)
  {
    && u.total >= 0
    && Contiguous(u.plan, u.total)
    && |u.phases| > 0
    && u == Fresh(u.total, u.retries, u.plan, |u.phases|)
  }

  ghost predicate Next(u: Upload, u': Upload)
  {
    exists w, a :: Enabled(u, w, a) && u' == Apply(u, w, a)
  }

  /** The value returned once the join is signalled; the session abort on error is left out. */
  function Returned(u: Upload): (r: Result<int, string>)
  {
    if u.pool.firstError.Some? then Err(u.pool.firstError.value)
    else if u.fileId == "" then Err("gdrive: no chunk returned final response")
    else Ok(u.total)
  }

  ghost function Finished(items: seq<P.Item>): (flags: seq<bool>)
    ensures |flags| == |items|
  {
    seq(|items|, i requires 0 <= i < |items| => items[i].Finished?)
  }

  ghost predicate PhaseFits(u: Upload, w: nat)
    requires Busy(u, w)
  {
    var i := u.pool.workers[w].item;
    match u.phases[w]
    case Opening => false
    case AtLoop => false
    case Reading => true
    case Sending(answers) => R.Sent(u.retries, answers) && forall k :: 0 <= k < |answers| && AcceptedBy(answers[k]) ==> u.acked[i]
    case Answered(o) => (o.Status? && Accepted(o.code) ==> u.acked[i]) && (o.AbortSeen? ==> u.pool.abort)
    case Crediting => u.acked[i]
  }

  ghost predicate PhasesFit(u: Upload)
    requires Shaped(u)
  {
    forall w :: 0 <= w < |u.phases| && u.pool.workers[w].Holding? ==> PhaseFits(u, w)
  }

  /** What is finished was accepted, what was accepted was sent, and what was sent is a range of the plan. */
  ghost predicate Backed(u: Upload)
    requires Shaped(u)
  {
    && (forall i :: 0 <= i < |u.plan| && u.pool.items[i].Finished? ==> u.acked[i])
    && (forall i :: 0 <= i < |u.plan| && u.acked[i] ==> RangeOf(u.plan[i], u.total) in u.log)
    && (forall r :: r in u.log ==> InPlan(u, r))
  }

  ghost predicate InPlan(u: Upload, r: ContentRange)
  {
    exists i :: 0 <= i < |u.plan| && r == RangeOf(u.plan[i], u.total)
  }

  ghost predicate Inv(u: Upload)
  {
    && Shaped(u)
    && u.total >= 0
    && Contiguous(u.plan, u.total)
    && P.Inv(u.pool)
    && u.bytes == Sum(u.plan, Finished(u.pool.items))
    && PhasesFit(u)
    && Backed(u)
  }

  lemma InitInv(u: Upload)
    requires Init(u)
    ensures Inv(u)
  {
    P.InitInv(u.pool);
    SumNone(u.plan, Finished(u.pool.items));
  }

  lemma {:induction false} SumNone(plan: seq<Chunk>, flags: seq<bool>)
    requires |plan| == |flags| && forall k :: 0 <= k < |flags| ==> !flags[k]
    ensures Sum(plan, flags) == 0
  {
    if plan != [] {
      SumNone(plan[1..], flags[1..]);
    }
  }

  lemma QuietInv(u: Upload, pool: P.Pool)
    requires Inv(u) && P.Inv(pool) && P.Quiet(u.pool, pool)
    ensures Inv(u.(pool := pool))
  {
    var v := u.(pool := pool);
    assert Finished(pool.items) == Finished(u.pool.items);
    assert Shaped(v);
    forall r | r in v.log ensures InPlan(v, r) { assert InPlan(u, r); }
    forall x | 0 <= x < |v.phases| && pool.workers[x].Holding? ensures PhaseFits(v, x) {
      assert PhaseFits(u, x);
    }
  }

  lemma PooledInv(u: Upload, w: nat, a: P.Act)
    requires Inv(u) && P.Enabled(u.pool, w, a) && !a.Finish? && !a.Claim?
    ensures Inv(Pooled(u, w, a))
  {
    P.StepInv(u.pool, w, a);
    P.QuietStep(u.pool, w, a);
    QuietInv(u, P.Apply(u.pool, w, a));
  }

  lemma PhaseInv(u: Upload, w: nat, phase: Phase, fileId: string)
    requires Inv(u) && w < |u.phases|
    requires u.pool.workers[w].Holding? ==> PhaseFits(u.(phases := u.phases[w := phase]), w)
    ensures Inv(u.(phases := u.phases[w := phase], fileId := fileId))
  {
    var v := u.(phases := u.phases[w := phase], fileId := fileId);
    forall r | r in v.log ensures InPlan(v, r) { assert InPlan(u, r); }
    forall x | 0 <= x < |v.phases| && v.pool.workers[x].Holding? ensures PhaseFits(v, x) {
      if x != w { assert PhaseFits(u, x); }
    }
  }

  lemma ClaimKeeps(u: Upload, w: nat)
    requires Shaped(u) && PhasesFit(u) && Backed(u) && P.Accounted(u.pool)
    requires Enabled(u, w, Loop(P.Claim))
    ensures var v := Apply(u, w, Loop(P.Claim)); Shaped(v) && PhasesFit(v) && Backed(v) && Finished(v.pool.items) == Finished(u.pool.items)
  {
    var v := Apply(u, w, Loop(P.Claim));
    assert Finished(v.pool.items) == Finished(u.pool.items);
    forall r | r in v.log ensures InPlan(v, r) { assert InPlan(u, r); }
    ClaimPhases(u, w);
  }

  lemma ClaimPhases(u: Upload, w: nat)
    requires Shaped(u) && PhasesFit(u) && P.Accounted(u.pool)
    requires Enabled(u, w, Loop(P.Claim))
    ensures PhasesFit(Apply(u, w, Loop(P.Claim)))
  {
    var v := Apply(u, w, Loop(P.Claim));
    forall x | 0 <= x < |v.phases| && v.pool.workers[x].Holding? ensures PhaseFits(v, x) {
      if x != w { assert PhaseFits(u, x); }
    }
  }

  lemma ClaimInv(u: Upload, w: nat)
    requires Inv(u) && Enabled(u, w, Loop(P.Claim))
    ensures Inv(Apply(u, w, Loop(P.Claim)))
  {
    P.StepInv(u.pool, w, P.Claim);
    ClaimKeeps(u, w);
  }

  lemma CreditKeeps(u: Upload, w: nat)
    requires Shaped(u) && PhasesFit(u) && Backed(u) && P.Accounted(u.pool)
    requires Enabled(u, w, Credit)
    ensures var v := Apply(u, w, Credit); Shaped(v) && PhasesFit(v) && Backed(v)
    ensures var i := u.pool.workers[w].item;
            !u.pool.items[i].Finished? && Finished(Apply(u, w, Credit).pool.items) == Finished(u.pool.items)[i := true]
  {
    var v := Apply(u, w, Credit);
    assert PhaseFits(u, w);
    assert Finished(v.pool.items) == Finished(u.pool.items)[u.pool.workers[w].item := true];
    forall r | r in v.log ensures InPlan(v, r) { assert InPlan(u, r); }
    forall x | 0 <= x < |v.phases| && v.pool.workers[x].Holding? ensures PhaseFits(v, x) {
      if x != w { assert PhaseFits(u, x); }
    }
  }

  lemma CreditInv(u: Upload, w: nat)
    requires Inv(u) && Enabled(u, w, Credit)
    ensures Inv(Apply(u, w, Credit))
  {
    P.StepInv(u.pool, w, P.Finish);
    CreditKeeps(u, w);
    SumUpdate(u.plan, Finished(u.pool.items), u.pool.workers[w].item);
  }

  lemma PutKeeps(u: Upload, w: nat, answer: R.Answer)
    requires Shaped(u) && PhasesFit(u) && Backed(u)
    requires Enabled(u, w, Put(answer))
    ensures var v := Apply(u, w, Put(answer)); Shaped(v) && PhasesFit(v) && Backed(v)
  {
    var v := Apply(u, w, Put(answer));
    var item := u.pool.workers[w].item;
    forall i | 0 <= i < |u.plan| && v.acked[i] ensures RangeOf(u.plan[i], u.total) in v.log {
      if i != item {
        assert u.acked[i] && RangeOf(u.plan[i], u.total) in u.log;
      } else {
        assert v.log[|u.log|] == RangeOf(u.plan[i], u.total);
      }
    }
    forall r | r in v.log ensures InPlan(v, r) {
      if r in u.log { assert InPlan(u, r); } else { assert r == RangeOf(v.plan[item], v.total); }
    }
    forall x | 0 <= x < |u.phases| && v.pool.workers[x].Holding? ensures PhaseFits(v, x) {
      assert PhaseFits(u, x);
      if x == w {
        var answers := u.phases[w].answers;
        assert (answers + [answer])[..|answers|] == answers;
      }
    }
  }

  lemma PutInv(u: Upload, w: nat, answer: R.Answer)
    requires Inv(u) && Enabled(u, w, Put(answer))
    ensures Inv(Apply(u, w, Put(answer)))
  {
    PutKeeps(u, w, answer);
  }

  lemma SettleInv(u: Upload, w: nat, parsed: Option<string>)
    requires Inv(u) && Enabled(u, w, Settle(parsed))
    ensures Inv(Apply(u, w, Settle(parsed)))
  {
    assert PhaseFits(u, w);
    var o := u.phases[w].outcome;
    if o.Failed? { PooledInv(u, w, P.Fail(o.error)); }
    else if u.pool.abort { PooledInv(u, w, P.Drop); }
    else if !Accepted(o.code) { PooledInv(u, w, P.Fail("gdrive: chunk PUT returned an unexpected status")); }
    else if o.code == 308 { PhaseInv(u, w, Crediting, u.fileId); }
    else if parsed.Some? { PhaseInv(u, w, Crediting, parsed.value); }
    else { PooledInv(u, w, P.Fail("gdrive: final chunk parse")); }
  }

  lemma EndChunkInv(u: Upload, w: nat, o: R.Outcome)
    requires Inv(u) && Enabled(u, w, EndChunk(o))
    ensures Inv(Apply(u, w, EndChunk(o)))
  {
    assert PhaseFits(u, w);
    if o.Status? {
      R.StatusIsLast(u.retries, u.phases[w].answers, o.code);
    }
    PhaseInv(u, w, Answered(o), u.fileId);
  }

  lemma StepInv(u: Upload, w: nat, a: Act)
    requires Inv(u) && Enabled(u, w, a)
    ensures Inv(Apply(u, w, a))
  {
    match a
    case Open(None) => PhaseInv(u, w, AtLoop, u.fileId);
    case Open(Some(e)) => PooledInv(u, w, P.Fail(e));
    case Loop(step) => if step.Claim? { ClaimInv(u, w); } else { PooledInv(u, w, step); }
    case Read(None) => PhaseInv(u, w, Sending([]), u.fileId);
    case Read(Some(e)) => PooledInv(u, w, P.Fail(e));
    case Put(answer) => PutInv(u, w, answer);
    case EndChunk(o) => EndChunkInv(u, w, o);
    case Settle(parsed) => SettleInv(u, w, parsed);
    case Credit => CreditInv(u, w);
    case Die => PooledInv(u, w, P.Die);
    case Exit => PooledInv(u, w, P.Exit);
  }

  lemma Invariant(u: Upload)
    requires Reachable(Init, Next, u)
    ensures Inv(u)
  {
    forall s | Init(s) ensures Inv(s) { InitInv(s); }
    forall s, s' | Inv(s) && Next(s, s') ensures Inv(s') {
      var w, a :| Enabled(s, w, a) && s' == Apply(s, w, a);
      StepInv(s, w, a);
    }
    ReachableInvariant(Init, Next, Inv, u);
  }

  lemma FinishedSums(u: Upload)
    requires |u.plan| == |u.acked| == |u.pool.items| && Contiguous(u.plan, u.total)
    requires u.bytes == Sum(u.plan, Finished(u.pool.items))
    requires forall i :: 0 <= i < |u.plan| && u.pool.items[i].Finished? ==> u.acked[i]
    ensures u.bytes <= Sum(u.plan, u.acked) <= u.total
    ensures u.bytes == u.total <==> forall i :: 0 <= i < |u.plan| ==> u.pool.items[i].Finished?
  {
    var all := seq(|u.plan|, _ => true);
    var fin := Finished(u.pool.items);
    SumAll(u.plan, all, u.total);
    SumMonotone(u.plan, fin, u.acked);
    SumMonotone(u.plan, u.acked, all);
    SumMonotone(u.plan, fin, all);
    if forall i :: 0 <= i < |u.plan| ==> u.pool.items[i].Finished? {
      assert fin == all;
    } else {
      var i :| 0 <= i < |u.plan| && !u.pool.items[i].Finished?;
      assert fin[i] != all[i];
    }
  }

  /** In every reachable state the byte counter is at most what the server has accepted, and equals the file size exactly when every chunk was finished. */
  lemma BytesAreHonest(u: Upload)
    requires Reachable(Init, Next, u)
    ensures |u.plan| == |u.acked| == |u.pool.items|
    ensures u.bytes <= Sum(u.plan, u.acked) <= u.total
    ensures u.bytes == u.total <==> forall i :: 0 <= i < |u.plan| ==> u.pool.items[i].Finished?
  {
    Invariant(u);
    FinishedSums(u);
  }

  /** A join with no abort and no torn-down worker: everything was accepted, counted, and the ranges sent are those of the plan, so they cover every byte of the file exactly once. */
  lemma CleanJoinIsComplete(u: Upload, byte: int)
    requires Reachable(Init, Next, u)
    requires u.pool.signalled && !u.pool.abort && !u.pool.died
    ensures u.bytes == u.total && u.pool.firstError.None?
    ensures forall i :: 0 <= i < |u.acked| ==> u.acked[i]
    ensures forall i :: 0 <= i < |u.plan| ==> RangeOf(u.plan[i], u.total) in u.log
    ensures 0 <= byte < u.total <==> exists r :: r in u.log && r.first <= byte <= r.last
    ensures forall r, q :: r in u.log && q in u.log && r.first <= byte <= r.last && q.first <= byte <= q.last ==> r == q
  {
    Invariant(u);
    P.JoinFinishesAll(u.pool);
    FinishedSums(u);
    RangesCover(u, byte);
  }

  lemma RangesCover(u: Upload, byte: int)
    requires u.total >= 0 && Contiguous(u.plan, u.total)
    requires forall r :: r in u.log ==> InPlan(u, r)
    requires forall i :: 0 <= i < |u.plan| ==> RangeOf(u.plan[i], u.total) in u.log
    ensures 0 <= byte < u.total <==> exists r :: r in u.log && r.first <= byte <= r.last
    ensures forall r, q :: r in u.log && q in u.log && r.first <= byte <= r.last && q.first <= byte <= q.last ==> r == q
  {
    EveryByteOnce(u.plan, u.total, byte);
    if 0 <= byte < u.total {
      var k :| 0 <= k < |u.plan| && Covers(u.plan[k], byte);
      var r := RangeOf(u.plan[k], u.total);
      assert r in u.log && r.first <= byte <= r.last;
    }
    forall r | r in u.log && r.first <= byte <= r.last
      ensures 0 <= byte < u.total && exists k :: 0 <= k < |u.plan| && r == RangeOf(u.plan[k], u.total) && Covers(u.plan[k], byte)
    {
      assert InPlan(u, r);
      var k :| 0 <= k < |u.plan| && r == RangeOf(u.plan[k], u.total);
      assert Covers(u.plan[k], byte);
    }
  }
}
