/** The other half of coverage: for every list longer than the pool there is a run that returns Ok and never uploads a listed file. */
module PipelineCut {
  import opened Wrappers
  import opened Runs
  import T = Tasks
  import opened Pipeline
  import opened PipelineCoverage

  /** A download that is complete, with its file list, at the first poll. */
  datatype Download = Download(config: Config, metadata: T.Metadata, files: seq<string>)

  ghost predicate Fits(d: Download)
  {
    && d.config.pipelining
    && |d.files| > d.config.PoolSize()
    && forall j, k :: 0 <= j < k < |d.files| ==> d.files[j] != d.files[k]
  }

  const ENV := Answers(false, Ok("gid"), Err(""), Ok([]))

  function Report(d: Download): Status
  {
    Status(Complete, d.files, None, None)
  }

  function Downloading(d: Download): T.TaskData
  {
    T.Attach(T.Fresh(d.metadata).(state := T.Downloading, metadata := d.metadata.(updatedAt := 0)), "gid", d.config.backend, 0)
  }

  function Uploading(d: Download): T.TaskData
  {
    Downloading(d).(state := T.Uploading)
  }

  /** `n` files were spawned in order, and the first `j` of them have ended well. */
  function Progress(d: Download, n: nat, j: nat): Uploads
    requires j <= n <= |d.files|
  {
    Uploads(FileSet(d.files[..n]), n - j, j, 0, None, FileSet(d.files[j..n]), FileSet(d.files[..j]), {}, d.files[..n])
  }

  function At(d: Download, n: nat, j: nat, begun: bool, pc: Pc): State
    requires j <= n <= |d.files|
  {
    State(d.config, if begun then Uploading(d) else Downloading(d), Progress(d, n, j), begun, true, Report(d),
          false, true, FileSet(d.files), 0, pc)
  }

  lemma Took(s: State, e: Event, t: State)
    requires Enabled(s, e) && t == Apply(s, e)
    ensures Next(s, t)
  {
  }

  lemma Listing(d: Download)
    ensures Reachable(Init, Next, At(d, 0, 0, false, Scanning(0))) || !d.config.pipelining
  {
    if d.config.pipelining {
      var s := Fresh(d.config, T.Fresh(d.metadata));
      var env := ENV.(status := Ok(Report(d)));
      var a := Advance(s, env, 0);
      var b := Advance(a, env, 0);
      var c := Advance(b, env, 0);
      var t := At(d, 0, 0, false, Scanning(0));
      assert FileSet(d.files[..0]) == {} && FileSet(d.files[0..0]) == {};
      assert Progress(d, 0, 0) == NO_UPLOADS;
      assert a.pc == Adding && b.pc == Head && c.pc == Polling;
      assert t == Advance(c, env, 0);
      Took(s, Step(env, 0), a);
      Took(a, Step(env, 0), b);
      Took(b, Step(env, 0), c);
      Took(c, Step(env, 0), t);
      Start(Init, Next, s);
      Extend4(Init, Next, s, a, b, c, t);
    }
  }

  lemma OneMore(d: Download, n: nat)
    requires Fits(d) && n < |d.files|
    ensures d.files[n] !in FileSet(d.files[..n])
    ensures Spawned(Progress(d, n, 0), d.files[n]) == Progress(d, n + 1, 0)
  {
    assert d.files[..n + 1] == d.files[..n] + [d.files[n]];
    assert FileSet(d.files[..n + 1]) == FileSet(d.files[..n]) + {d.files[n]};
    assert d.files[0..n] == d.files[..n] && d.files[0..n + 1] == d.files[..n + 1];
    assert d.files[..0] == [];
  }

  lemma {:induction false} SpawnUpTo(d: Download, n: nat)
    requires Fits(d) && n <= d.config.PoolSize()
    ensures Reachable(Init, Next, At(d, n, 0, n > 0, Scanning(n)))
  {
    if n == 0 {
      Listing(d);
    } else {
      var k := n - 1;
      SpawnUpTo(d, k);
      SpawnOne(d, k);
    }
  }

  lemma ScanSteps(d: Download, k: nat)
    requires Fits(d) && k < d.config.PoolSize()
    ensures Next(At(d, k, 0, k > 0, Scanning(k)), At(d, k, 0, k > 0, Checking(k)))
    ensures Next(At(d, k, 0, k > 0, Checking(k)), At(d, k, 0, k > 0, Beginning(k)))
  {
    OneMore(d, k);
    var s, a, b := At(d, k, 0, k > 0, Scanning(k)), At(d, k, 0, k > 0, Checking(k)), At(d, k, 0, k > 0, Beginning(k));
    Took(s, Step(ENV, 0), a);
    Took(a, Step(ENV, 0), b);
  }

  lemma SpawnSteps(d: Download, k: nat)
    requires Fits(d) && k < d.config.PoolSize()
    ensures Next(At(d, k, 0, k > 0, Beginning(k)), At(d, k, 0, true, Spawning(k)))
    ensures Next(At(d, k, 0, true, Spawning(k)), At(d, k + 1, 0, true, Scanning(k + 1)))
  {
    OneMore(d, k);
    var b, c, t := At(d, k, 0, k > 0, Beginning(k)), At(d, k, 0, true, Spawning(k)), At(d, k + 1, 0, true, Scanning(k + 1));
    Took(b, Step(ENV, 0), c);
    Took(c, Step(ENV, 0), t);
  }

  lemma SpawnOne(d: Download, k: nat)
    requires Fits(d) && k < d.config.PoolSize()
    requires Reachable(Init, Next, At(d, k, 0, k > 0, Scanning(k)))
    ensures Reachable(Init, Next, At(d, k + 1, 0, true, Scanning(k + 1)))
  {
    ScanSteps(d, k);
    SpawnSteps(d, k);
    Extend4(Init, Next, At(d, k, 0, k > 0, Scanning(k)), At(d, k, 0, k > 0, Checking(k)),
            At(d, k, 0, k > 0, Beginning(k)), At(d, k, 0, true, Spawning(k)), At(d, k + 1, 0, true, Scanning(k + 1)));
  }

  lemma OneEnds(d: Download, n: nat, j: nat)
    requires Fits(d) && j < n <= |d.files|
    ensures d.files[j] in FileSet(d.files[j..n])
    ensures Ended(Progress(d, n, j), d.files[j], None) == Progress(d, n, j + 1)
  {
    assert d.files[j..n] == [d.files[j]] + d.files[j + 1..n];
    assert d.files[j] !in FileSet(d.files[j + 1..n]);
    assert FileSet(d.files[j..n]) - {d.files[j]} == FileSet(d.files[j + 1..n]);
    assert d.files[..j + 1] == d.files[..j] + [d.files[j]];
    assert FileSet(d.files[..j + 1]) == FileSet(d.files[..j]) + {d.files[j]};
  }

  lemma {:induction false} AllEnd(d: Download, j: nat)
    requires Fits(d) && j <= d.config.PoolSize()
    ensures Reachable(Init, Next, At(d, d.config.PoolSize(), j, true, Rendering))
  {
    var n := d.config.PoolSize();
    if j == 0 {
      SpawnUpTo(d, n);
      var s, t := At(d, n, 0, true, Scanning(n)), At(d, n, 0, true, Rendering);
      assert t == Advance(s, ENV, 0);
      Took(s, Step(ENV, 0), t);
      Extend(Init, Next, s, t);
    } else {
      AllEnd(d, j - 1);
      EndOne(d, j - 1);
    }
  }

  lemma EndOne(d: Download, j: nat)
    requires Fits(d) && j < d.config.PoolSize()
    requires Reachable(Init, Next, At(d, d.config.PoolSize(), j, true, Rendering))
    ensures Reachable(Init, Next, At(d, d.config.PoolSize(), j + 1, true, Rendering))
  {
    var n := d.config.PoolSize();
    OneEnds(d, n, j);
    var s, t := At(d, n, j, true, Rendering), At(d, n, j + 1, true, Rendering);
    assert t == Apply(s, UploadEnds(d.files[j], None));
    Took(s, UploadEnds(d.files[j], None), t);
    Extend(Init, Next, s, t);
  }

  lemma TallySteps(d: Download)
    requires Fits(d)
    ensures var n := d.config.PoolSize();
      && Next(At(d, n, n, true, Rendering), At(d, n, n, true, Tallying))
      && Next(At(d, n, n, true, Tallying), At(d, n, n, true, Deciding(true, false)))
  {
    var n := d.config.PoolSize();
    Took(At(d, n, n, true, Rendering), Step(ENV, 0), At(d, n, n, true, Tallying));
    Took(At(d, n, n, true, Tallying), Step(ENV, 0), At(d, n, n, true, Deciding(true, false)));
  }

  lemma ChooseSteps(d: Download)
    requires Fits(d)
    ensures var n := d.config.PoolSize();
      && Next(At(d, n, n, true, Deciding(true, false)), At(d, n, n, true, Choosing))
      && Next(At(d, n, n, true, Choosing), At(d, n, n, true, Finishing))
  {
    var n := d.config.PoolSize();
    Took(At(d, n, n, true, Deciding(true, false)), Step(ENV, 0), At(d, n, n, true, Choosing));
    Took(At(d, n, n, true, Choosing), Step(ENV, 0), At(d, n, n, true, Finishing));
  }

  lemma Completes(d: Download) returns (s: State)
    requires Fits(d)
    ensures Reachable(Init, Next, s) && s.pc == Done(Success(d.metadata.id))
    ensures s.config == d.config && s.status == Report(d) && s.listed == FileSet(d.files)
    ensures s.up == Progress(d, d.config.PoolSize(), d.config.PoolSize()) && s.oneShots == 0
  {
    var n := d.config.PoolSize();
    AllEnd(d, n);
    TallySteps(d);
    ChooseSteps(d);
    var e := At(d, n, n, true, Finishing);
    Extend4(Init, Next, At(d, n, n, true, Rendering), At(d, n, n, true, Tallying),
            At(d, n, n, true, Deciding(true, false)), At(d, n, n, true, Choosing), e);
    LastSteps(d, e);
    var f := Advance(e, ENV, 0);
    s := Advance(f, ENV, 0);
    Extend(Init, Next, e, f);
    Extend(Init, Next, f, s);
  }

  lemma LastSteps(d: Download, e: State)
    requires Fits(d) && e == At(d, d.config.PoolSize(), d.config.PoolSize(), true, Finishing)
    ensures var f := Advance(e, ENV, 0);
      && Next(e, f) && f.pc == Ending(Success(d.metadata.id))
      && var s := Advance(f, ENV, 0);
      && Next(f, s) && s.pc == Done(Success(d.metadata.id))
      && s.config == d.config && s.status == Report(d) && s.listed == FileSet(d.files)
      && s.up == Progress(d, d.config.PoolSize(), d.config.PoolSize()) && s.oneShots == 0
  {
    var f := Advance(e, ENV, 0);
    Took(e, Step(ENV, 0), f);
    Took(f, Step(ENV, 0), Advance(f, ENV, 0));
  }

  /** One file more than the pool holds is enough: some run returns Ok although a listed file was never handed to the uploader. */
  lemma LongListsMayBeCut(d: Download)
    requires Fits(d)
    ensures exists s :: Reachable(Init, Next, s) && s.config == d.config && s.pc == Done(Success(d.metadata.id))
                        && s.status.files == d.files && s.listed == FileSet(d.files)
                        && d.files[d.config.PoolSize()] !in s.up.started && s.oneShots == 0
  {
    var s := Completes(d);
    OneMore(d, d.config.PoolSize());
    Invariant(s);
  }

  /** Every run with this configuration that lists exactly these files and returns Ok has delivered them all. */
  ghost predicate OkDeliversAll(config: Config, files: set<string>)
  {
    forall s :: Reachable(Init, Next, s) && s.config == config && s.listed == files && s.pc.Done? && s.pc.verdict.Success?
                ==> files <= s.up.delivered
  }

  lemma {:induction false} DistinctSize(files: seq<string>)
    requires forall j, k :: 0 <= j < k < |files| ==> files[j] != files[k]
    ensures |FileSet(files)| == |files|
  {
    if files != [] {
      var most := files[..|files| - 1];
      DistinctSize(most);
      assert FileSet(files) == FileSet(most) + {files[|files| - 1]};
    }
  }

  /** The exact condition: Ok means that everything listed was delivered if and only if the pool holds the list. */
  lemma OkDeliversAllIffShort(d: Download)
    requires d.config.pipelining && forall j, k :: 0 <= j < k < |d.files| ==> d.files[j] != d.files[k]
    ensures OkDeliversAll(d.config, FileSet(d.files)) <==> |d.files| <= d.config.PoolSize()
  {
    DistinctSize(d.files);
    if |d.files| <= d.config.PoolSize() {
      forall s | Reachable(Init, Next, s) && s.config == d.config && s.listed == FileSet(d.files) && s.pc.Done? && s.pc.verdict.Success?
        ensures FileSet(d.files) <= s.up.delivered
      {
        ShortListsAreDelivered(s);
      }
    } else {
      CutRun(d);
    }
  }

  lemma CutRun(d: Download)
    requires Fits(d)
    ensures !OkDeliversAll(d.config, FileSet(d.files))
  {
    LongListsMayBeCut(d);
    var f := d.files[d.config.PoolSize()];
    var s :| Reachable(Init, Next, s) && s.config == d.config && s.pc == Done(Success(d.metadata.id))
             && s.status.files == d.files && s.listed == FileSet(d.files) && f !in s.up.started && s.oneShots == 0;
    Invariant(s);
    assert f in FileSet(d.files);
    NotStarted(s.up, f);
  }

  lemma NotStarted(u: Uploads, f: string)
    requires Counted(u) && StartedOnce(u) && f !in u.started
    ensures f !in u.delivered
  {
    assert f !in FileSet(u.started);
  }
}
