/** The retry loop inside the upload machine: how often a range can be sent, whatever the workers and the server do. */
module DriveRetries {
  import opened Runs
  import opened ChunkPlan
  import opened DriveUpload
  import R = ChunkRetry
  import P = ClaimPool

  /** How often chunk `i` was sent. */
  ghost function Puts(u: Upload, i: nat): nat
    requires i < |u.plan|
  {
    multiset(u.log)[RangeOf(u.plan[i], u.total)]
  }

  /** What the retry loop of a holding worker says about the number of PUTs of its chunk. */
  ghost predicate Known(u: Upload, w: nat)
    requires Busy(u, w)
  {
    match u.phases[w]
    case Reading => Puts(u, u.pool.workers[w].item) == 0
    case Sending(answers) => Puts(u, u.pool.workers[w].item) == |answers|
    case _ => true
  }

  ghost predicate Tallied(u: Upload)
    requires Shaped(u)
  {
    && (forall i :: 0 <= i < |u.plan| && u.pool.items[i].Unclaimed? ==> Puts(u, i) == 0)
    && (forall w :: 0 <= w < |u.phases| && u.pool.workers[w].Holding? ==> Known(u, w))
    && (forall i :: 0 <= i < |u.plan| ==> Puts(u, i) <= 2 * (u.retries + 1))
  }

  ghost predicate TallyInv(u: Upload)
  {
    Inv(u) && Tallied(u)
  }

  lemma RangesDiffer(plan: seq<Chunk>, total: int, i: nat, k: nat)
    requires Contiguous(plan, total) && i < |plan| && k < |plan| && i != k
    ensures RangeOf(plan[i], total) != RangeOf(plan[k], total)
  {
    if i < k { Ordered(plan, total, i, k); } else { Ordered(plan, total, k, i); }
  }

  lemma PutCounts(u: Upload, w: nat, answer: R.Answer, i: nat)
    requires Contiguous(u.plan, u.total) && Enabled(u, w, Put(answer)) && i < |u.plan|
    ensures Puts(Apply(u, w, Put(answer)), i) == Puts(u, i) + if i == u.pool.workers[w].item then 1 else 0
  {
    var item := u.pool.workers[w].item;
    if i != item { RangesDiffer(u.plan, u.total, i, item); }
    assert multiset(Apply(u, w, Put(answer)).log) == multiset(u.log) + multiset{RangeOf(u.plan[item], u.total)};
  }

  lemma PutTallied(u: Upload, w: nat, answer: R.Answer)
    requires Shaped(u) && Contiguous(u.plan, u.total) && P.Accounted(u.pool) && Tallied(u) && Enabled(u, w, Put(answer))
    ensures Tallied(Apply(u, w, Put(answer)))
  {
    var v := Apply(u, w, Put(answer));
    var item := u.pool.workers[w].item;
    forall i | 0 <= i < |u.plan| ensures Puts(v, i) == Puts(u, i) + if i == item then 1 else 0 {
      PutCounts(u, w, answer, i);
    }
    PutWithin(u, w, answer);
    assert u.pool.items[item] == P.Held(w);
    forall x | 0 <= x < |v.phases| && v.pool.workers[x].Holding? ensures Known(v, x) {
      assert Known(u, x);
    }
  }

  lemma PutWithin(u: Upload, w: nat, answer: R.Answer)
    requires Enabled(u, w, Put(answer))
    ensures |u.phases[w].answers| + 1 <= 2 * (u.retries + 1)
  {
    var answers := u.phases[w].answers;
    assert (answers + [answer])[..|answers|] == answers;
    R.SentBound(u.retries, answers + [answer]);
  }

  lemma SameLog(u: Upload, v: Upload)
    requires v.log == u.log && v.plan == u.plan && v.total == u.total && v.retries == u.retries
    ensures forall i :: 0 <= i < |u.plan| ==> Puts(v, i) == Puts(u, i)
  {
  }

  /** A step that sends nothing and claims nothing keeps the log, and a worker's knowledge is kept or lost with its chunk. */
  ghost predicate Silent(u: Upload, v: Upload, w: nat)
    requires Shaped(u) && Shaped(v)
  {
    && v.log == u.log && v.plan == u.plan && v.total == u.total && v.retries == u.retries
    && v.pool.next == u.pool.next && |v.phases| == |u.phases|
    && (forall x :: 0 <= x < |v.phases| && x != w ==> v.phases[x] == u.phases[x])
    && (forall x :: 0 <= x < |v.phases| && v.pool.workers[x].Holding? ==> v.pool.workers[x] == u.pool.workers[x])
    && (w < |v.phases| && v.pool.workers[w].Holding? ==>
          v.phases[w] == u.phases[w] || (u.phases[w].Reading? && v.phases[w] == Sending([])) || v.phases[w].Answered? || v.phases[w].Crediting?)
  }

  lemma OtherIsSilent(u: Upload, w: nat, a: Act)
    requires Shaped(u) && Enabled(u, w, a) && !a.Put? && !a.Loop? && !a.Settle?
    requires Shaped(Apply(u, w, a))
    ensures Silent(u, Apply(u, w, a), w)
  {
  }

  lemma SettleIsSilent(u: Upload, w: nat, a: Act)
    requires Shaped(u) && Enabled(u, w, a) && a.Settle?
    requires Shaped(Apply(u, w, a))
    ensures Silent(u, Apply(u, w, a), w)
  {
  }

  lemma SilentTallied(u: Upload, v: Upload, w: nat)
    requires Shaped(u) && Shaped(v) && P.Accounted(u.pool) && P.Accounted(v.pool) && Tallied(u) && Silent(u, v, w)
    ensures Tallied(v)
  {
    SameLog(u, v);
    forall x | 0 <= x < |v.phases| && v.pool.workers[x].Holding? ensures Known(v, x) {
      assert Known(u, x);
    }
  }

  lemma LoopTallied(u: Upload, w: nat, step: P.Act)
    requires Shaped(u) && P.Accounted(u.pool) && Tallied(u) && Enabled(u, w, Loop(step))
    requires Shaped(Apply(u, w, Loop(step)))
    ensures Tallied(Apply(u, w, Loop(step)))
  {
    var v := Apply(u, w, Loop(step));
    SameLog(u, v);
    forall i | 0 <= i < |u.plan| && v.pool.items[i].Unclaimed? ensures u.pool.items[i].Unclaimed? {}
    forall x | 0 <= x < |v.phases| && v.pool.workers[x].Holding? ensures Known(v, x) {
      if x != w {
        assert Known(u, x);
      } else {
        assert u.pool.items[u.pool.next].Unclaimed?;
      }
    }
  }

  lemma TallyStep(u: Upload, w: nat, a: Act)
    requires TallyInv(u) && Enabled(u, w, a)
    ensures TallyInv(Apply(u, w, a))
  {
    StepInv(u, w, a);
    match a
    case Put(answer) => PutTallied(u, w, answer);
    case Loop(step) => LoopTallied(u, w, step);
    case Settle(_) => SettleIsSilent(u, w, a); SilentTallied(u, Apply(u, w, a), w);
    case _ => OtherIsSilent(u, w, a); SilentTallied(u, Apply(u, w, a), w);
  }

  lemma NoneSent(u: Upload)
    requires Init(u)
    ensures TallyInv(u)
  {
    InitInv(u);
    assert u.log == [];
  }

  /** In every run each range of the plan is sent at most 2 * (retries + 1) times, and nothing else is sent. */
  lemma PutsAreBounded(u: Upload, r: ContentRange)
    requires Reachable(Init, Next, u)
    ensures multiset(u.log)[r] <= 2 * (u.retries + 1)
    ensures r in u.log ==> InPlan(u, r)
  {
    forall s | Init(s) ensures TallyInv(s) { NoneSent(s); }
    forall s, s' | TallyInv(s) && Next(s, s') ensures TallyInv(s') {
      var w, a :| Enabled(s, w, a) && s' == Apply(s, w, a);
      TallyStep(s, w, a);
    }
    ReachableInvariant(Init, Next, TallyInv, u);
    if r in u.log {
      assert InPlan(u, r);
      var i :| 0 <= i < |u.plan| && r == RangeOf(u.plan[i], u.total);
      assert Puts(u, i) <= 2 * (u.retries + 1);
    }
  }
}
