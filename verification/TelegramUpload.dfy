/** The Telegram uploader: sending the parts of a file through a pool, and collecting the result. */
module TelegramUpload {
  import opened Wrappers
  import opened Sequences
  import opened Splitting
  import opened Runs
  import P = ClaimPool

  function Total(sizes: seq<int>): int
  {
    if sizes == [] then 0 else Total(sizes[..|sizes| - 1]) + sizes[|sizes| - 1]
  }

  /** The parts of a split file weigh as much as the file. */
  lemma {:induction false} PartsWeigh<T>(parts: seq<seq<T>>, sizes: seq<int>)
    requires |sizes| == |parts| && forall k :: 0 <= k < |parts| ==> sizes[k] == |parts[k]|
    ensures Total(sizes) == |Flatten(parts)|
  {
    if parts != [] {
      PartsWeigh(parts[..|parts| - 1], sizes[..|sizes| - 1]);
    }
  }

  // The part pool

  datatype Phase = Elsewhere | Sizing | Sending

  /** `sizes` are the part sizes on disk; `recorded` and `results` are the shared vectors the workers fill. */
  datatype Sends = Sends(
    sizes: seq<int>,
    pool: P.Pool,
    phases: seq<Phase>,
    recorded: seq<int>,
    results: seq<Option<int>>)

  datatype Act =
    | Loop(step: P.Act)
    | CancelSeen
    | Size(error: Option<string>)
    | Send(answer: Result<int, string>)
    | Die
    | Exit

  predicate Shaped(s: Sends)
  {
    && |s.phases| == |s.pool.workers|
    && |s.sizes| == |s.pool.items| == |s.recorded| == |s.results|
    && forall w :: 0 <= w < |s.pool.workers| && s.pool.workers[w].Holding? ==> s.pool.workers[w].item < |s.sizes|
  }

  predicate Enabled(s: Sends, w: nat, a: Act)
  {
    && Shaped(s) && w < |s.phases|
    && match a
       case Loop(step) => (step.PassCheck? || step.SeeAbort? || step.Claim?) && P.Enabled(s.pool, w, step)
       case CancelSeen => s.pool.workers[w].Ready?
       case Size(_) => s.pool.workers[w].Holding? && s.phases[w].Sizing?
       case Send(_) => s.pool.workers[w].Holding? && s.phases[w].Sending?
       case Die => P.Enabled(s.pool, w, P.Die)
       case Exit => P.Enabled(s.pool, w, P.Exit)
  }

  function Apply(s: Sends, w: nat, a: Act): Sends
    requires Enabled(s, w, a)
  {
    match a
    case Loop(step) =>
      var pool := P.Apply(s.pool, w, step);
      s.(pool := pool, phases := if pool.workers[w].Holding? then s.phases[w := Sizing] else s.phases)
    case CancelSeen => s.(pool := P.Apply(s.pool, w, P.Fail("telegram_uploader: cancelled")))
    case Size(None) =>
      var i := s.pool.workers[w].item;
      s.(recorded := s.recorded[i := s.sizes[i]], phases := s.phases[w := Sending])
    case Size(Some(e)) => s.(pool := P.Apply(s.pool, w, P.Fail(e)))
    case Send(Ok(id)) =>
      s.(results := s.results[s.pool.workers[w].item := Some(id)],
         pool := P.Apply(s.pool, w, P.Finish),
         phases := s.phases[w := Elsewhere])
    case Send(Err(e)) => s.(pool := P.Apply(s.pool, w, P.Fail(e)))
    case Die => s.(pool := P.Apply(s.pool, w, P.Die))
    case Exit => s.(pool := P.Apply(s.pool, w, P.Exit))
  }

  ghost predicate Init(s: Sends)
  {
    && |s.phases| > 0
    && s == Sends(s.sizes, P.Fresh(|s.sizes|, |s.phases|), seq(|s.phases|, _ => Elsewhere),
                  seq(|s.sizes|, _ => 0), seq(|s.sizes|, _ => None))
  }

  ghost predicate Next(s: Sends, s': Sends)
  {
    exists w, a :: Enabled(s, w, a) && s' == Apply(s, w, a)
  }

  /** What the parent computes after the join: the first error, or a missing part, or the size and first message id. */
  method Collect(firstError: Option<string>, results: seq<Option<int>>, recorded: seq<int>) returns (r: Result<int, string>)
    requires |results| == |recorded|
    ensures r == Returned(firstError, results, recorded)
  {
    if firstError.Some? {
      return Err(firstError.value);
    }
    var size := 0;
    for i := 0 to |results|
      invariant size == Total(recorded[..i])
      invariant forall k :: 0 <= k < i ==> results[k].Some?
    {
      if results[i].None? {
        return Err("telegram_uploader: missing result for part");
      }
      assert recorded[..i + 1][..i] == recorded[..i];
      size := size + recorded[i];
    }
    assert recorded[..|results|] == recorded;
    r := Ok(size);
  }

  function Returned(firstError: Option<string>, results: seq<Option<int>>, recorded: seq<int>): Result<int, string>
  {
    if firstError.Some? then Err(firstError.value)
    else if exists k :: 0 <= k < |results| && results[k].None? then Err("telegram_uploader: missing result for part")
    else Ok(Total(recorded))
  }

  ghost predicate Filled(s: Sends)
    requires Shaped(s)
  {
    && (forall i :: 0 <= i < |s.sizes| ==> (s.results[i].Some? <==> s.pool.items[i].Finished?))
    && (forall i :: 0 <= i < |s.sizes| && s.pool.items[i].Finished? ==> s.recorded[i] == s.sizes[i])
    && (forall w :: 0 <= w < |s.phases| && s.pool.workers[w].Holding? && s.phases[w].Sending? ==>
          s.recorded[s.pool.workers[w].item] == s.sizes[s.pool.workers[w].item])
  }

  ghost predicate Inv(s: Sends)
  {
    && Shaped(s)
    && P.Inv(s.pool)
    && (s.pool.abort ==> s.pool.firstError.Some?)
    && Filled(s)
  }

  lemma QuietInv(s: Sends, w: nat, a: P.Act)
    requires Inv(s) && P.Enabled(s.pool, w, a) && !a.Finish? && !a.Claim? && !a.RaiseAbort?
    ensures Inv(s.(pool := P.Apply(s.pool, w, a)))
  {
    P.StepInv(s.pool, w, a);
    P.QuietStep(s.pool, w, a);
  }

  lemma ClaimKeeps(s: Sends, w: nat)
    requires Shaped(s) && P.Accounted(s.pool) && Filled(s) && Enabled(s, w, Loop(P.Claim))
    ensures Shaped(Apply(s, w, Loop(P.Claim))) && Filled(Apply(s, w, Loop(P.Claim)))
  {
  }

  lemma SizeKeeps(s: Sends, w: nat)
    requires Shaped(s) && P.Accounted(s.pool) && Filled(s) && Enabled(s, w, Size(None))
    ensures Shaped(Apply(s, w, Size(None))) && Filled(Apply(s, w, Size(None)))
  {
  }

  lemma SentKeeps(s: Sends, w: nat, id: int)
    requires Shaped(s) && P.Accounted(s.pool) && Filled(s) && Enabled(s, w, Send(Ok(id)))
    ensures Shaped(Apply(s, w, Send(Ok(id)))) && Filled(Apply(s, w, Send(Ok(id))))
  {
  }

  lemma StepInv(s: Sends, w: nat, a: Act)
    requires Inv(s) && Enabled(s, w, a)
    ensures Inv(Apply(s, w, a))
  {
    match a
    case Loop(step) =>
      if step.Claim? {
        P.StepInv(s.pool, w, P.Claim);
        ClaimKeeps(s, w);
      } else {
        QuietInv(s, w, step);
      }
    case CancelSeen => QuietInv(s, w, P.Fail("telegram_uploader: cancelled"));
    case Size(None) => SizeKeeps(s, w);
    case Size(Some(e)) => QuietInv(s, w, P.Fail(e));
    case Send(Ok(id)) =>
      P.StepInv(s.pool, w, P.Finish);
      SentKeeps(s, w, id);
    case Send(Err(e)) => QuietInv(s, w, P.Fail(e));
    case Die => QuietInv(s, w, P.Die);
    case Exit => QuietInv(s, w, P.Exit);
  }

  lemma Invariant(s: Sends)
    requires Reachable(Init, Next, s)
    ensures Inv(s)
  {
    forall x | Init(x) ensures Inv(x) { P.InitInv(x.pool); }
    forall x, y | Inv(x) && Next(x, y) ensures Inv(y) {
      var w, a :| Enabled(x, w, a) && y == Apply(x, w, a);
      StepInv(x, w, a);
    }
    ReachableInvariant(Init, Next, Inv, s);
  }

  /** However the workers interleave, and even if some of them are torn down, success is reported exactly when no error was recorded and every part was sent, and then with the size on disk. */
  lemma SuccessMeansAllSent(s: Sends)
    requires Reachable(Init, Next, s)
    ensures Returned(s.pool.firstError, s.results, s.recorded).Ok? <==>
            s.pool.firstError.None? && forall i :: 0 <= i < |s.pool.items| ==> s.pool.items[i].Finished?
    ensures Returned(s.pool.firstError, s.results, s.recorded).Ok? ==>
            Returned(s.pool.firstError, s.results, s.recorded) == Ok(Total(s.sizes))
  {
    Invariant(s);
    if Returned(s.pool.firstError, s.results, s.recorded).Ok? {
      assert forall i :: 0 <= i < |s.pool.items| ==> s.results[i].Some?;
      assert s.recorded == s.sizes;
    }
  }

  /** When the workers are all gone, none was torn down and no error was recorded, success is what is reported. */
  lemma CleanJoinSucceeds(s: Sends)
    requires Reachable(Init, Next, s)
    requires s.pool.signalled && !s.pool.died && s.pool.firstError.None?
    ensures Returned(s.pool.firstError, s.results, s.recorded) == Ok(Total(s.sizes))
  {
    Invariant(s);
    P.JoinFinishesAll(s.pool);
    SuccessMeansAllSent(s);
  }

  /** From end to end: what is reported for a file that was split and whose parts went through the pool is the size of what was split off, hence its own size exactly when the parts are the file. */
  lemma ReportedSizeIsFileSize<T>(src: seq<T>, parts: seq<seq<T>>, s: Sends)
    requires Flatten(parts) <= src
    requires |s.sizes| == |parts| && forall k :: 0 <= k < |parts| ==> s.sizes[k] == |parts[k]|
    requires Reachable(Init, Next, s)
    requires Returned(s.pool.firstError, s.results, s.recorded).Ok?
    ensures Returned(s.pool.firstError, s.results, s.recorded) == Ok(|Flatten(parts)|)
    ensures Returned(s.pool.firstError, s.results, s.recorded) == Ok(|src|) <==> Flatten(parts) == src
  {
    SuccessMeansAllSent(s);
    PartsWeigh(parts, s.sizes);
  }
}
