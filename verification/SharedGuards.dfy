/**
 * The registry without the rule of one live guard per id: any run may enter under any id, and
 * guards with one id share a flag. Which of them a cancel still reaches is decided by the history.
 */
module SharedGuards {
  import opened Wrappers
  import opened Runs
  import A = ActiveTasks

  datatype Event = Entered(g: nat) | Left(g: nat)

  /** The registry's world, and in `log` the order in which guards came and went. */
  datatype Shared = Shared(world: A.World, log: seq<Event>)

  ghost predicate Enabled(s: Shared, a: A.Act)
  {
    a.Enter? || A.Enabled(s.world, a)
  }

  ghost function Apply(s: Shared, a: A.Act): Shared
    requires Enabled(s, a)
  {
    match a
    case Enter(id) => Shared(A.Entered(s.world, id), s.log + [Entered(|s.world.guards|)])
    case Leave(g) => Shared(A.Apply(s.world, a), s.log + [Left(g)])
    case _ => s.(world := A.Apply(s.world, a))
  }

  ghost predicate Init(s: Shared)
  {
    A.Init(s.world) && s.log == []
  }

  ghost predicate Next(s: Shared, s': Shared)
  {
    exists a :: Enabled(s, a) && s' == Apply(s, a)
  }

  /** After guard `g` entered, some guard with the same id has left. */
  ghost predicate LeftSince(s: Shared, g: nat)
    requires g < |s.world.guards|
  {
    exists i, j :: 0 <= i < j < |s.log| && s.log[i] == Entered(g) && LeavesId(s, j, s.world.guards[g].id)
  }

  ghost predicate LeavesId(s: Shared, j: int, id: string)
  {
    && 0 <= j < |s.log| && s.log[j].Left?
    && s.log[j].g < |s.world.guards| && s.world.guards[s.log[j].g].id == id
  }

  /** The registry maps the guard's id to the guard's flag. */
  predicate Found(s: Shared, g: nat)
    requires g < |s.world.guards|
  {
    var guard := s.world.guards[g];
    guard.id in s.world.slots && s.world.slots[guard.id] == guard.cell
  }

  ghost predicate Inv(s: Shared)
  {
    && (forall g :: 0 <= g < |s.world.guards| ==> s.world.guards[g].cell < |s.world.cells|)
    && (forall id :: id in s.world.slots ==> s.world.slots[id] < |s.world.cells|)
    && (forall j :: 0 <= j < |s.log| ==> s.log[j].g < |s.world.guards|)
    && (forall g: nat :: g < |s.world.guards| ==> Entered(g) in s.log)
    && (forall g: nat :: g < |s.world.guards| ==> (Found(s, g) <==> !LeftSince(s, g)))
  }

  lemma EnterInv(s: Shared, id: string)
    requires Inv(s)
    ensures Inv(Apply(s, A.Enter(id)))
  {
    var s' := Apply(s, A.Enter(id));
    var n := |s.world.guards|;
    assert s'.log[|s.log|] == Entered(n);
    forall g: nat | g < n ensures Entered(g) in s'.log { assert Entered(g) in s.log; }
    forall g: nat | g < n ensures LeftSince(s', g) <==> LeftSince(s, g) { SameHistory(s, s', g); }
    forall g: nat | g < n ensures Found(s', g) <==> Found(s, g) {}
    assert !LeftSince(s', n);
  }

  lemma SameHistory(s: Shared, s': Shared, g: nat)
    requires Inv(s) && g < |s.world.guards| <= |s'.world.guards|
    requires forall h :: 0 <= h < |s.world.guards| ==> s'.world.guards[h].id == s.world.guards[h].id
    requires s.log <= s'.log && forall j :: |s.log| <= j < |s'.log| ==> !LeavesId(s', j, s.world.guards[g].id)
    ensures LeftSince(s', g) <==> LeftSince(s, g)
  {
    var id := s.world.guards[g].id;
    if LeftSince(s, g) {
      var i, j :| 0 <= i < j < |s.log| && s.log[i] == Entered(g) && LeavesId(s, j, id);
      assert LeavesId(s', j, id);
    }
    if LeftSince(s', g) {
      var i, j :| 0 <= i < j < |s'.log| && s'.log[i] == Entered(g) && LeavesId(s', j, id);
      assert LeavesId(s, j, id);
    }
  }

  lemma LeaveInv(s: Shared, h: nat)
    requires Inv(s) && Enabled(s, A.Leave(h))
    ensures Inv(Apply(s, A.Leave(h)))
  {
    var s' := Apply(s, A.Leave(h));
    var last := |s.log|;
    assert s'.log[last] == Left(h);
    forall g: nat | g < |s.world.guards| ensures Entered(g) in s'.log { assert Entered(g) in s.log; }
    forall g: nat | g < |s.world.guards| ensures Found(s', g) <==> !LeftSince(s', g) {
      if s.world.guards[g].id == s.world.guards[h].id {
        var i :| 0 <= i < |s.log| && s.log[i] == Entered(g);
        assert s'.log[i] == Entered(g) && LeavesId(s', last, s'.world.guards[g].id);
      } else {
        SameHistory(s, s', g);
      }
    }
  }

  lemma OtherInv(s: Shared, a: A.Act)
    requires Inv(s) && Enabled(s, a) && (a.Lookup? || a.Store?)
    ensures Inv(Apply(s, a))
  {
    var s' := Apply(s, a);
    forall g: nat | g < |s.world.guards| ensures Found(s', g) <==> !LeftSince(s', g) {
      SameHistory(s, s', g);
    }
  }

  lemma Invariant(s: Shared)
    requires Reachable(Init, Next, s)
    ensures Inv(s)
  {
    forall x, y | Inv(x) && Next(x, y) ensures Inv(y) {
      var a :| Enabled(x, a) && y == Apply(x, a);
      match a
      case Enter(id) => EnterInv(x, id);
      case Leave(h) => LeaveInv(x, h);
      case _ => OtherInv(x, a);
    }
    ReachableInvariant(Init, Next, Inv, s);
  }

  /** A cancel call reaches a guard, live or not, if and only if no guard with its id has left since it entered. */
  lemma FoundUntilOneLeaves(s: Shared, g: nat)
    requires Reachable(Init, Next, s) && g < |s.world.guards|
    ensures Found(s, g) <==> !LeftSince(s, g)
    ensures var w := A.Apply(s.world, A.Lookup(s.world.guards[g].id));
            w.cancels[|s.world.cancels|].cell == Some(s.world.guards[g].cell) <==> !LeftSince(s, g)
  {
    Invariant(s);
  }
}
