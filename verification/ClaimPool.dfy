/**
 * The worker-pool protocol that the upload engines share: workers claim item indexes
 * from an atomic counter, stop when a shared abort flag is up, and the last one to
 * leave signals the join.
 */
module ClaimPool {
  import opened Wrappers
  import opened Runs

  /** Where one worker stands: at the loop head, past the abort check, holding an item, on its way out, or gone. */
  datatype Worker = Idle | Ready | Holding(item: nat) | Leaving | Gone

  datatype Item = Unclaimed | Held(worker: nat) | Finished | Abandoned

  /**
   * `next`, `live`, `abort`, `firstError` are the shared variables and `signalled` says that
   * the join timer was cancelled. `items`, `claims` and `died` record history: what became of
   * each item, which worker claimed which index, and whether a worker was torn down by an
   * exception.
   */
  datatype Pool = Pool(
    items: seq<Item>,
    workers: seq<Worker>,
    next: nat,
    live: int,
    signalled: bool,
    abort: bool,
    firstError: Option<string>,
    claims: seq<(nat, nat)>,
    died: bool)

  datatype Act =
    | PassCheck          // abort flag read as false
    | SeeAbort           // abort flag read as true at the loop head
    | RaiseAbort         // cancellation observed: raise the flag without recording an error
    | Claim              // fetch_add on the counter
    | Fail(error: string)
    | Drop               // abort flag read as true while holding an item
    | Finish
    | Die
    | Exit

  predicate Enabled(p: Pool, w: nat, a: Act)
  {
    && w < |p.workers|
    && match a
       case PassCheck => p.workers[w].Idle? && !p.abort
       case SeeAbort => p.workers[w].Idle? && p.abort
       case RaiseAbort => p.workers[w].Ready?
       case Claim => p.workers[w].Ready?
       case Fail(_) => !p.workers[w].Leaving? && !p.workers[w].Gone?
       case Drop => p.workers[w].Holding? && p.abort
       case Finish => p.workers[w].Holding?
       case Die => !p.workers[w].Leaving? && !p.workers[w].Gone?
       case Exit => p.workers[w].Leaving?
  }

  /** Moves worker `w` to `to`, and its item, if it holds one, to `fate`. */
  function Moved(p: Pool, w: nat, to: Worker, fate: Item): Pool
    requires w < |p.workers|
  {
    var items := match p.workers[w]
      case Holding(i) => if i < |p.items| then p.items[i := fate] else p.items
      case _ => p.items;
    p.(workers := p.workers[w := to], items := items)
  }

  function Apply(p: Pool, w: nat, a: Act): Pool
    requires Enabled(p, w, a)
  {
    match a
    case PassCheck => Moved(p, w, Ready, Abandoned)
    case SeeAbort => Moved(p, w, Leaving, Abandoned)
    case RaiseAbort => Moved(p, w, Leaving, Abandoned).(abort := true)
    case Claim =>
      if p.next < |p.items| then
        p.(workers := p.workers[w := Holding(p.next)],
           items := p.items[p.next := Held(w)],
           claims := p.claims + [(w, p.next)],
           next := p.next + 1)
      else
        p.(workers := p.workers[w := Leaving], next := p.next + 1)
    case Fail(e) =>
      Moved(p, w, Leaving, Abandoned)
        .(abort := true, firstError := if p.firstError.None? then Some(e) else p.firstError)
    case Drop => Moved(p, w, Leaving, Abandoned)
    case Finish => Moved(p, w, Idle, Finished)
    case Die => Moved(p, w, Leaving, Abandoned).(died := true)
    case Exit =>
      p.(workers := p.workers[w := Gone],
         live := p.live - 1,
         signalled := p.signalled || p.live == 1)
  }

  function Fresh(n: nat, parallelism: nat): Pool
  {
    Pool(seq(n, _ => Unclaimed), seq(parallelism, _ => Idle), 0, parallelism, false, false, None, [], false)
  }

  ghost predicate Init(p: Pool)
  {
    |p.workers| > 0 && p == Fresh(|p.items|, |p.workers|)
  }

  ghost predicate Next(p: Pool, p': Pool)
  {
    exists w, a :: Enabled(p, w, a) && p' == Apply(p, w, a)
  }

  predicate Out(w: Worker)
  {
    w.Leaving? || w.Gone?
  }

  /** Number of workers that have not decremented the live counter yet. */
  function Live(workers: seq<Worker>): nat
  {
    if workers == [] then 0 else (if workers[0].Gone? then 0 else 1) + Live(workers[1..])
  }

  function Leavers(workers: seq<Worker>): nat
  {
    if workers == [] then 0 else (if Out(workers[0]) then 1 else 0) + Leavers(workers[1..])
  }

  ghost predicate Accounted(p: Pool)
  {
    && (forall i :: 0 <= i < |p.items| ==> (p.items[i].Unclaimed? <==> p.next <= i))
    && (forall i :: 0 <= i < |p.items| && p.items[i].Held? ==>
          p.items[i].worker < |p.workers| && p.workers[p.items[i].worker] == Holding(i))
    && (forall w :: 0 <= w < |p.workers| && p.workers[w].Holding? ==>
          p.workers[w].item < |p.items| && p.items[p.workers[w].item] == Held(w))
    && (forall i :: 0 <= i < |p.items| && p.items[i].Abandoned? ==> p.abort || p.died)
  }

  ghost predicate ClaimsInOrder(p: Pool)
  {
    && |p.claims| == Min(p.next, |p.items|)
    && forall k :: 0 <= k < |p.claims| ==> p.claims[k].1 == k
  }

  ghost predicate Inv(p: Pool)
  {
    && |p.workers| > 0
    && Accounted(p)
    && ClaimsInOrder(p)
    && p.live == Live(p.workers)
    && (p.signalled <==> p.live == 0)
    && (p.firstError.Some? ==> p.abort)
    && (forall w :: 0 <= w < |p.workers| && Out(p.workers[w]) ==> p.abort || p.died || |p.items| <= p.next)
    && p.next <= |p.items| + Leavers(p.workers)
  }

  lemma {:induction false} LiveUpdate(ws: seq<Worker>, w: nat, to: Worker)
    requires w < |ws|
    ensures Live(ws[w := to]) == Live(ws) - (if ws[w].Gone? then 0 else 1) + (if to.Gone? then 0 else 1)
    ensures Leavers(ws[w := to]) == Leavers(ws) - (if Out(ws[w]) then 1 else 0) + (if Out(to) then 1 else 0)
  {
    if w == 0 {
      assert ws[w := to][1..] == ws[1..];
    } else {
      LiveUpdate(ws[1..], w - 1, to);
      assert ws[w := to][1..] == ws[1..][w - 1 := to];
    }
  }

  lemma {:induction false} LiveZero(ws: seq<Worker>)
    requires Live(ws) == 0
    ensures forall w :: 0 <= w < |ws| ==> ws[w].Gone?
  {
    if ws != [] {
      LiveZero(ws[1..]);
      assert forall w :: 0 < w < |ws| ==> ws[w] == ws[1..][w - 1];
    }
  }

  lemma {:induction false} LiveAtMost(ws: seq<Worker>, n: nat)
    requires |ws| == n && forall w :: 0 <= w < n ==> ws[w] == Idle
    ensures Live(ws) == n && Leavers(ws) == 0
  {
    if n > 0 {
      LiveAtMost(ws[1..], n - 1);
    }
  }

  lemma {:induction false} LivePositive(ws: seq<Worker>, w: nat)
    requires w < |ws| && !ws[w].Gone?
    ensures Live(ws) > 0
  {
    if w > 0 {
      LivePositive(ws[1..], w - 1);
    }
  }

  lemma {:induction false} LeaversBound(ws: seq<Worker>)
    ensures Leavers(ws) <= |ws|
  {
    if ws != [] {
      LeaversBound(ws[1..]);
    }
  }

  lemma InitInv(p: Pool)
    requires Init(p)
    ensures Inv(p)
  {
    LiveAtMost(p.workers, |p.workers|);
  }

  lemma ClaimAccounted(p: Pool, w: nat)
    requires Accounted(p) && Enabled(p, w, Claim)
    ensures Accounted(Apply(p, w, Claim))
  {
    var p' := Apply(p, w, Claim);
    forall i | 0 <= i < |p'.items| && p'.items[i].Held?
      ensures p'.items[i].worker < |p'.workers| && p'.workers[p'.items[i].worker] == Holding(i)
    {
      assert i != p.next ==> p.items[i] == p'.items[i];
    }
    forall v | 0 <= v < |p'.workers| && p'.workers[v].Holding?
      ensures p'.workers[v].item < |p'.items| && p'.items[p'.workers[v].item] == Held(v)
    {
      assert v != w ==> p.workers[v] == p'.workers[v];
    }
  }

  lemma MovedAccounted(p: Pool, w: nat, to: Worker, fate: Item, p': Pool)
    requires Accounted(p) && w < |p.workers|
    requires !to.Holding? && (fate.Finished? || fate.Abandoned?)
    requires p'.workers == Moved(p, w, to, fate).workers && p'.items == Moved(p, w, to, fate).items && p'.next == p.next
    requires p.abort ==> p'.abort
    requires p.died ==> p'.died
    requires p.workers[w].Holding? && fate.Abandoned? ==> p'.abort || p'.died
    ensures Accounted(p')
  {
    forall i | 0 <= i < |p'.items| && p'.items[i].Held?
      ensures p'.items[i].worker < |p'.workers| && p'.workers[p'.items[i].worker] == Holding(i)
    {
      assert p.items[i] == p'.items[i];
    }
    forall v | 0 <= v < |p'.workers| && p'.workers[v].Holding?
      ensures p'.workers[v].item < |p'.items| && p'.items[p'.workers[v].item] == Held(v)
    {
      assert p.workers[v] == p'.workers[v];
    }
  }

  lemma StepAccounted(p: Pool, w: nat, a: Act)
    requires Accounted(p) && Enabled(p, w, a)
    ensures Accounted(Apply(p, w, a))
  {
    var p' := Apply(p, w, a);
    match a
    case Claim => ClaimAccounted(p, w);
    case PassCheck => MovedAccounted(p, w, Ready, Abandoned, p');
    case Finish => MovedAccounted(p, w, Idle, Finished, p');
    case Exit => MovedAccounted(p, w, Gone, Abandoned, p');
    case _ => MovedAccounted(p, w, Leaving, Abandoned, p');
  }

  lemma StepInv(p: Pool, w: nat, a: Act)
    requires Inv(p) && Enabled(p, w, a)
    ensures Inv(Apply(p, w, a))
  {
    var p' := Apply(p, w, a);
    StepAccounted(p, w, a);
    LiveUpdate(p.workers, w, p'.workers[w]);
    assert p'.workers == p.workers[w := p'.workers[w]];
    LivePositive(p.workers, w);
  }

  /** `p'` keeps `p`'s items and workers in number, finishes nothing, hands out nothing and never lowers the abort flag. */
  ghost predicate Quiet(p: Pool, p': Pool)
  {
    && |p'.items| == |p.items| && |p'.workers| == |p.workers|
    && (forall i :: 0 <= i < |p.items| ==> (p'.items[i].Finished? <==> p.items[i].Finished?))
    && (forall v :: 0 <= v < |p.workers| && p'.workers[v].Holding? ==> p'.workers[v] == p.workers[v])
    && (p.abort ==> p'.abort)
  }

  lemma QuietStep(p: Pool, w: nat, a: Act)
    requires Inv(p) && Enabled(p, w, a) && !a.Finish? && !a.Claim?
    ensures Quiet(p, Apply(p, w, a))
  {
  }

  lemma Invariant(p: Pool)
    requires Reachable(Init, Next, p)
    ensures Inv(p)
  {
    forall s | Init(s) ensures Inv(s) { InitInv(s); }
    forall s, s' | Inv(s) && Next(s, s') ensures Inv(s') {
      var w, a :| Enabled(s, w, a) && s' == Apply(s, w, a);
      StepInv(s, w, a);
    }
    ReachableInvariant(Init, Next, Inv, p);
  }

  /** No index is claimed twice, by one worker or by two, and the counter stays within one overshoot per worker. */
  lemma ClaimedAtMostOnce(p: Pool, j: nat, k: nat)
    requires Reachable(Init, Next, p)
    requires j < k < |p.claims|
    ensures p.claims[j].1 != p.claims[k].1
    ensures p.next <= |p.items| + |p.workers|
  {
    Invariant(p);
    LeaversBound(p.workers);
  }

  /** A join without a recorded error, an abort or a torn-down worker means that every item was finished. */
  lemma JoinFinishesAll(p: Pool)
    requires Inv(p)
    requires p.signalled && !p.abort && !p.died
    ensures p.firstError.None?
    ensures forall i :: 0 <= i < |p.items| ==> p.items[i].Finished?
    ensures forall w :: 0 <= w < |p.workers| ==> p.workers[w].Gone?
  {
    LiveZero(p.workers);
    assert Out(p.workers[0]);
  }

  /** The join is signalled exactly when the last worker has left, so nobody touches the shared state after it. */
  lemma JoinIsLast(p: Pool)
    requires Reachable(Init, Next, p)
    ensures p.signalled <==> forall w :: 0 <= w < |p.workers| ==> p.workers[w].Gone?
    ensures p.signalled ==> !exists w, a :: Enabled(p, w, a)
  {
    Invariant(p);
    if p.signalled {
      LiveZero(p.workers);
    } else if forall w :: 0 <= w < |p.workers| ==> p.workers[w].Gone? {
      AllGone(p.workers);
    }
  }

  lemma {:induction false} AllGone(ws: seq<Worker>)
    requires forall w :: 0 <= w < |ws| ==> ws[w].Gone?
    ensures Live(ws) == 0
  {
    if ws != [] {
      AllGone(ws[1..]);
    }
  }
}
