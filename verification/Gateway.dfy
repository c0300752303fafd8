/** The gateway's map of pending requests: ids, replies, time-outs and the final drain. */
module Gateway {
  import opened Runs

  const WORD: nat := 0x1_0000_0000_0000_0000

  /** Ids below this one are reserved. */
  const FIRST_ID: nat := 1000

  /** A registered continuation: the number of the request it belongs to, and when it was registered. */
  datatype Pending = Pending(request: nat, createdAt: int)

  datatype Response = Reply(tag: int) | TimedOut | Stopped

  datatype Phase = Running | Stopping | Drained(at: nat)

  /** `resumed` records every continuation that was called, in order, `sends` how many requests were issued, and `refused` those whose id was still taken. */
  datatype State = State(
    ttl: int,
    sends: nat,
    nextId: nat,
    pending: map<nat, Pending>,
    resumed: seq<(nat, Response)>,
    refused: set<nat>,
    phase: Phase)

  /** The id of the k-th request: the 64-bit counter starts at FIRST_ID and wraps. */
  function IdOf(k: nat): nat
  {
    (FIRST_ID + k) % WORD
  }

  function Send(g: State, now: int): State
  {
    g.(sends := g.sends + 1,
       nextId := (g.nextId + 1) % WORD,
       // emplace keeps an entry that is already there
       refused := if g.nextId in g.pending then g.refused + {g.sends} else g.refused,
       pending := if g.nextId in g.pending then g.pending else g.pending[g.nextId := Pending(g.sends, now)])
  }

  /** Erase the entry and call its continuation; nothing happens if there is no entry. */
  function Resume(g: State, id: nat, r: Response): State
  {
    if id !in g.pending then g
    else g.(pending := g.pending - {id}, resumed := g.resumed + [(g.pending[id].request, r)])
  }

  /** The continuations of `ids`, in this order, are called with `r`. */
  ghost function ResumeAll(g: State, ids: seq<nat>, r: Response): State
  {
    if ids == [] then g else Resume(ResumeAll(g, ids[..|ids| - 1], r), ids[|ids| - 1], r)
  }

  datatype Act =
    | Request(now: int)
    | Respond(id: nat, tag: int)       // any reply: expected, late, duplicate or unknown
    | Expire(id: nat, now: int)
    | Stop
    | Drain(order: seq<nat>)           // the final drain, in the order in which the map is walked

  predicate Stale(g: State, id: nat, now: int)
  {
    id in g.pending && now - g.pending[id].createdAt >= g.ttl
  }

  ghost predicate Enabled(g: State, a: Act)
  {
    match a
    case Request(_) => true
    case Respond(_, _) => true
    case Expire(id, now) => Stale(g, id, now)
    case Stop => g.phase.Running?
    case Drain(order) => g.phase.Stopping? && forall id :: id in order <==> id in g.pending
  }

  ghost function Apply(g: State, a: Act): State
    requires Enabled(g, a)
  {
    match a
    case Request(now) => Send(g, now)
    case Respond(id, tag) => Resume(g, id, Reply(tag))
    case Expire(id, _) => Resume(g, id, TimedOut)
    case Stop => g.(phase := Stopping)
    case Drain(order) => ResumeAll(g, order, Stopped).(pending := map[], phase := Drained(g.sends))
  }

  ghost predicate Init(g: State)
  {
    g == State(g.ttl, 0, FIRST_ID, map[], [], {}, Running)
  }

  ghost predicate Next(g: State, g': State)
  {
    exists a :: Enabled(g, a) && g' == Apply(g, a)
  }

  ghost predicate WasResumed(g: State, k: nat)
  {
    exists i :: 0 <= i < |g.resumed| && g.resumed[i].0 == k
  }

  /** The continuation of request `k` is in the map. */
  predicate Outstanding(g: State, k: nat)
  {
    IdOf(k) in g.pending && g.pending[IdOf(k)].request == k
  }

  ghost predicate Inv(g: State)
  {
    && g.nextId == IdOf(g.sends)
    && (forall id :: id in g.pending ==> var k := g.pending[id].request; k < g.sends && k !in g.refused && IdOf(k) == id)
    && (forall i :: 0 <= i < |g.resumed| ==>
          g.resumed[i].0 < g.sends && g.resumed[i].0 !in g.refused && !Outstanding(g, g.resumed[i].0))
    && (forall i, j :: 0 <= i < j < |g.resumed| ==> g.resumed[i].0 != g.resumed[j].0)
    && (forall k: nat :: k < g.sends ==> Outstanding(g, k) || WasResumed(g, k) || k in g.refused)
    && (forall k :: k in g.refused ==> WORD <= k < g.sends)
    && (g.phase.Drained? ==> g.phase.at <= g.sends && forall k: nat :: k < g.phase.at ==> WasResumed(g, k) || k in g.refused)
  }

  lemma ResumedKept(g: State, g': State)
    requires g.resumed <= g'.resumed
    ensures forall k: nat :: WasResumed(g, k) ==> WasResumed(g', k)
  {
    forall k: nat | WasResumed(g, k) ensures WasResumed(g', k) {
      var i :| 0 <= i < |g.resumed| && g.resumed[i].0 == k;
      assert g'.resumed[i].0 == k;
    }
  }

  lemma ResumeInv(g: State, id: nat, r: Response)
    requires Inv(g)
    ensures Inv(Resume(g, id, r))
  {
    if id in g.pending {
      var g' := Resume(g, id, r);
      ResumedKept(g, g');
      assert g'.resumed[|g.resumed|].0 == g.pending[id].request;
      assert WasResumed(g', g.pending[id].request);
    }
  }

  lemma NextIdIs(k: nat)
    ensures (IdOf(k) + 1) % WORD == IdOf(k + 1)
  {
  }

  /** Two requests share an id exactly when they are a whole number of counter wraps apart. */
  lemma IdsRepeatOnlyAfterWrap(j: nat, k: nat)
    ensures IdOf(j) == IdOf(k) <==> (j - k) % WORD == 0
  {
  }

  lemma SendInv(g: State, now: int)
    requires Inv(g)
    ensures Inv(Send(g, now))
  {
    var g' := Send(g, now);
    ResumedKept(g, g');
    NextIdIs(g.sends);
    if g.nextId in g.pending {
      IdsRepeatOnlyAfterWrap(g.sends, g.pending[g.nextId].request);
    } else {
      assert Outstanding(g', g.sends);
    }
    assert forall k: nat :: Outstanding(g, k) ==> Outstanding(g', k);
    assert forall k: nat :: k < g.sends && Outstanding(g', k) ==> Outstanding(g, k);
  }

  lemma {:induction false} ResumeAllInv(g: State, ids: seq<nat>, r: Response)
    requires Inv(g)
    ensures Inv(ResumeAll(g, ids, r))
    ensures var g' := ResumeAll(g, ids, r); g' == g.(pending := g'.pending, resumed := g'.resumed)
    ensures forall id :: id in ResumeAll(g, ids, r).pending <==> id in g.pending && id !in ids
  {
    if ids != [] {
      var most := ids[..|ids| - 1];
      ResumeAllInv(g, most, r);
      ResumeInv(ResumeAll(g, most, r), ids[|ids| - 1], r);
      assert ids == most + [ids[|ids| - 1]];
    }
  }

  lemma DrainInv(g: State, order: seq<nat>)
    requires Inv(g) && Enabled(g, Drain(order))
    ensures Inv(Apply(g, Drain(order)))
  {
    ResumeAllInv(g, order, Stopped);
    ResumedKept(ResumeAll(g, order, Stopped), Apply(g, Drain(order)));
  }

  lemma StepInv(g: State, a: Act)
    requires Inv(g) && Enabled(g, a)
    ensures Inv(Apply(g, a))
  {
    match a
    case Request(now) => SendInv(g, now);
    case Respond(id, tag) => ResumeInv(g, id, Reply(tag));
    case Expire(id, _) => ResumeInv(g, id, TimedOut);
    case Stop => ResumedKept(g, Apply(g, a));
    case Drain(order) => DrainInv(g, order);
  }

  lemma Invariant(g: State)
    requires Reachable(Init, Next, g)
    ensures Inv(g)
  {
    forall x, y | Inv(x) && Next(x, y) ensures Inv(y) {
      var a :| Enabled(x, a) && y == Apply(x, a);
      StepInv(x, a);
    }
    ReachableInvariant(Init, Next, Inv, g);
  }

  /** Over every interleaving of requests, replies, sweeps and shutdown: each registered continuation is either still pending or was called exactly once, and once the drain is over everything registered before it has been called. Only a request whose id is still taken, at least 2^64 requests after the one that took it, is not registered. */
  lemma CalledExactlyOnce(g: State, k: nat)
    requires Reachable(Init, Next, g) && k < g.sends
    ensures k !in g.refused ==> (Outstanding(g, k) <==> !WasResumed(g, k))
    ensures k in g.refused ==> k >= WORD && !Outstanding(g, k) && !WasResumed(g, k)
    ensures forall i, j :: 0 <= i < j < |g.resumed| ==> g.resumed[i].0 != g.resumed[j].0
    ensures g.phase.Drained? && k < g.phase.at && k !in g.refused ==> WasResumed(g, k)
  {
    Invariant(g);
  }

  // The object

  class Impl {
    const ttl: int
    var nextId: nat
    var pending: map<nat, Pending>
    // Continuations are known by the number of their request; these fields record which were made, called and refused.
    var sends: nat
    var resumed: seq<(nat, Response)>
    var refused: set<nat>
    var phase: Phase

    function View(): State
      reads this
    {
      State(ttl, sends, nextId, pending, resumed, refused, phase)
    }

    constructor (ttl: int)
      ensures Init(View()) && this.ttl == ttl
    {
      this.ttl := ttl;
      nextId, pending, sends, resumed, refused, phase := FIRST_ID, map[], 0, [], {}, Running;
    }

    method AllocateId() returns (id: nat)
      modifies this`nextId
      ensures id == old(nextId) && nextId == (old(nextId) + 1) % WORD
    {
      id := nextId;
      nextId := (nextId + 1) % WORD;
    }

    method SendRequest(now: int) returns (id: nat)
      modifies this
      ensures id == old(nextId) && View() == Send(old(View()), now)
    {
      id := AllocateId();
      if id !in pending {
        pending := pending[id := Pending(sends, now)];
      } else {
        refused := refused + {sends};
      }
      sends := sends + 1;
    }

    /** Erases an entry and calls its continuation. */
    method Call(id: nat, r: Response)
      requires id in pending
      modifies this`pending, this`resumed
      ensures View() == Resume(old(View()), id, r)
    {
      resumed := resumed + [(pending[id].request, r)];
      pending := pending - {id};
    }

    method HandleEvent(requestId: nat, tag: int)
      modifies this`pending, this`resumed
      ensures requestId != 0 ==> View() == Resume(old(View()), requestId, Reply(tag))
      ensures requestId == 0 ==> View() == old(View())
    {
      if requestId == 0 {
        return;
      }
      if requestId in pending {
        Call(requestId, Reply(tag));
      }
    }

    /** The sweep calls, in some order, the continuations of exactly the stale entries, and keeps the others. */
    method EvictStale(now: int) returns (ghost order: seq<nat>)
      modifies this`pending, this`resumed
      ensures View() == ResumeAll(old(View()), order, TimedOut)
      ensures forall id :: id in order <==> Stale(old(View()), id, now)
      ensures forall id :: id in pending <==> id in old(pending) && !Stale(old(View()), id, now)
    {
      order := [];
      var todo := pending.Keys;
      while todo != {}
        invariant View() == ResumeAll(old(View()), order, TimedOut)
        invariant todo <= pending.Keys <= old(pending).Keys
        invariant forall id :: id in pending ==> pending[id] == old(pending)[id]
        invariant forall id :: id in old(pending) && id !in todo ==> (id in pending <==> !Stale(old(View()), id, now))
        invariant forall id :: id in order <==> id in old(pending) && id !in pending
        decreases todo
      {
        var id :| id in todo;
        todo := todo - {id};
        if now - pending[id].createdAt >= ttl {
          Call(id, TimedOut);
          assert (order + [id])[..|order|] == order;
          order := order + [id];
        }
      }
    }

    /** The drain at the end of run(): every pending continuation is told that the client stopped, then the map is cleared. */
    method DrainPending() returns (ghost order: seq<nat>)
      modifies this`pending, this`resumed
      ensures View() == ResumeAll(old(View()), order, Stopped).(pending := map[])
      ensures forall id :: id in order <==> id in old(pending)
    {
      order := [];
      var todo := pending.Keys;
      while todo != {}
        invariant pending == old(pending) && todo <= pending.Keys
        invariant forall id :: id in order <==> id in pending && id !in todo
        invariant View().(pending := pending - (pending.Keys - todo)) == ResumeAll(old(View()), order, Stopped)
        decreases todo
      {
        var id :| id in todo;
        resumed := resumed + [(pending[id].request, Stopped)];
        assert (order + [id])[..|order|] == order;
        assert pending - (pending.Keys - (todo - {id})) == (pending - (pending.Keys - todo)) - {id};
        todo := todo - {id};
        order := order + [id];
      }
      pending := map[];
    }

    /** The end of run(), once the receive thread is joined: whatever was registered before the drain has been called when it returns. */
    method Shutdown() returns (ghost order: seq<nat>)
      requires Inv(View()) && phase.Running?
      modifies this
      ensures Enabled(old(View()).(phase := Stopping), Drain(order))
      ensures View() == Apply(old(View()).(phase := Stopping), Drain(order))
      ensures Inv(View()) && pending == map[]
      ensures forall k: nat :: k < sends && k !in refused ==> WasResumed(View(), k)
    {
      phase := Stopping;
      ghost var stopping := View();
      StepInv(old(View()), Stop);
      order := DrainPending();
      ResumeAllInv(stopping, order, Stopped);
      StepInv(stopping, Drain(order));
      phase := Drained(sends);
    }
  }
}
