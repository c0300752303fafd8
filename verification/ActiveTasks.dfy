/** The registry of running tasks and their cancellation flags, as objects, and as a protocol under every interleaving. */
module ActiveTasks {
  import opened Wrappers
  import opened Runs

  // The objects

  class Flag {
    var value: bool

    constructor ()
      ensures !value
    {
      value := false;
    }
  }

  class ActiveTaskRegistry {
    var slots: map<string, Flag>

    constructor ()
      ensures slots == map[]
    {
      slots := map[];
    }

    /** A second registration of the same id shares the first one's flag. */
    method RegisterTask(id: string) returns (flag: Flag)
      modifies this
      ensures id in old(slots) ==> slots == old(slots) && flag == old(slots)[id]
      ensures id !in old(slots) ==> fresh(flag) && !flag.value && slots == old(slots)[id := flag]
    {
      if id !in slots {
        flag := new Flag();
        slots := slots[id := flag];
      }
      flag := slots[id];
    }

    method Unregister(id: string)
      modifies this
      ensures slots == old(slots) - {id}
    {
      slots := slots - {id};
    }

    method Cancel(id: string) returns (found: bool)
      modifies if id in slots then {slots[id]} else {}
      ensures found == (id in slots)
      ensures found ==> slots[id].value
    {
      if id !in slots {
        return false;
      }
      var flag := slots[id];
      flag.value := true;
      found := true;
    }
  }

  class ActiveTaskGuard {
    const registry: ActiveTaskRegistry
    const id: string
    var flag: Flag

    constructor (registry: ActiveTaskRegistry, id: string)
      modifies registry
      ensures this.registry == registry && this.id == id
      ensures id in old(registry.slots) ==> registry.slots == old(registry.slots) && flag == old(registry.slots)[id]
      ensures id !in old(registry.slots) ==> fresh(flag) && !flag.value && registry.slots == old(registry.slots)[id := flag]
    {
      this.registry := registry;
      this.id := id;
      var f := registry.RegisterTask(id);
      this.flag := f;
    }

    method Destroy()
      modifies registry
      ensures registry.slots == old(registry.slots) - {id}
    {
      registry.Unregister(id);
    }

    method Cancelled() returns (c: bool)
      ensures c == flag.value
    {
      c := flag.value;
    }
  }

  // The protocol

  /** A run's guard: the id it registered and the flag cell it holds. */
  datatype Guard = Guard(id: string, cell: nat, live: bool)

  /** A cancel(id) call: the cell it looked up under the lock, if any, whether it has stored yet, and (history) the guard that was live for the id at the lookup. */
  datatype Cancel = Cancel(id: string, cell: Option<nat>, stored: bool, aimedAt: Option<nat>)

  /** `cells` holds every flag ever made; `slots` is the registry map from ids to cells. */
  datatype World = World(slots: map<string, nat>, cells: seq<bool>, guards: seq<Guard>, cancels: seq<Cancel>)

  datatype Act = Enter(id: string) | Leave(g: nat) | Lookup(id: string) | Store(c: nat)

  ghost predicate LiveFor(w: World, g: nat, id: string)
  {
    g < |w.guards| && w.guards[g].live && w.guards[g].id == id
  }

  /** One live guard per id: task ids are made fresh, so no run enters under an id that is running. */
  ghost predicate Enabled(w: World, a: Act)
  {
    match a
    case Enter(id) => forall g :: !LiveFor(w, g, id)
    case Leave(g) => g < |w.guards| && w.guards[g].live
    case Lookup(_) => true
    case Store(c) => c < |w.cancels| && w.cancels[c].cell.Some? && !w.cancels[c].stored && w.cancels[c].cell.value < |w.cells|
  }

  ghost function Aim(w: World, id: string): Option<nat>
  {
    if exists g :: LiveFor(w, g, id) then (var g :| LiveFor(w, g, id); Some(g)) else None
  }

  /** A guard is constructed: it shares the flag that its id has, or gets a new one. */
  function Entered(w: World, id: string): World
  {
    if id in w.slots then w.(guards := w.guards + [Guard(id, w.slots[id], true)])
    else w.(slots := w.slots[id := |w.cells|], cells := w.cells + [false], guards := w.guards + [Guard(id, |w.cells|, true)])
  }

  ghost function Apply(w: World, a: Act): World
    requires Enabled(w, a)
  {
    match a
    case Enter(id) => Entered(w, id)
    case Leave(g) =>
      w.(slots := w.slots - {w.guards[g].id}, guards := w.guards[g := w.guards[g].(live := false)])
    case Lookup(id) =>
      w.(cancels := w.cancels + [Cancel(id, if id in w.slots then Some(w.slots[id]) else None, false, Aim(w, id))])
    case Store(c) =>
      w.(cells := w.cells[w.cancels[c].cell.value := true], cancels := w.cancels[c := w.cancels[c].(stored := true)])
  }

  ghost predicate Init(w: World)
  {
    w == World(map[], [], [], [])
  }

  ghost predicate Next(w: World, w': World)
  {
    exists a :: Enabled(w, a) && w' == Apply(w, a)
  }

  /** The map holds exactly the live guards, each with its own cell. */
  ghost predicate Owned(w: World)
  {
    && |w.cells| == |w.guards|
    && (forall g :: 0 <= g < |w.guards| ==> w.guards[g].cell == g)
    && (forall g :: 0 <= g < |w.guards| && w.guards[g].live ==> w.guards[g].id in w.slots && w.slots[w.guards[g].id] == g)
    && (forall id :: id in w.slots ==> LiveFor(w, w.slots[id], id))
  }

  /** Every lookup found the cell of the guard it was aimed at, and nothing raises a flag but a store aimed at it. */
  ghost predicate Aimed(w: World)
  {
    && (forall c :: 0 <= c < |w.cancels| ==> w.cancels[c].cell == w.cancels[c].aimedAt)
    && (forall c :: 0 <= c < |w.cancels| && w.cancels[c].cell.Some? ==>
          w.cancels[c].cell.value < |w.guards| && w.guards[w.cancels[c].cell.value].id == w.cancels[c].id)
    && (forall c :: 0 <= c < |w.cancels| && w.cancels[c].stored ==> w.cancels[c].cell.Some? && w.cancels[c].cell.value < |w.cells| && w.cells[w.cancels[c].cell.value])
    && (forall g :: 0 <= g < |w.cells| && w.cells[g] ==> Struck(w, g))
  }

  ghost predicate Struck(w: World, g: nat)
  {
    exists c :: 0 <= c < |w.cancels| && w.cancels[c].stored && w.cancels[c].aimedAt == Some(g)
  }

  ghost predicate Inv(w: World)
  {
    Owned(w) && Aimed(w)
  }

  lemma AimIs(w: World, id: string)
    requires Owned(w)
    ensures Aim(w, id) == if id in w.slots then Some(w.slots[id]) else None
  {
    if id in w.slots {
      assert LiveFor(w, w.slots[id], id);
    }
  }

  lemma StruckKept(w: World, w': World)
    requires |w.cancels| <= |w'.cancels|
    requires forall c :: 0 <= c < |w.cancels| ==> w'.cancels[c].aimedAt == w.cancels[c].aimedAt && (w.cancels[c].stored ==> w'.cancels[c].stored)
    ensures forall g: nat :: Struck(w, g) ==> Struck(w', g)
  {
    forall g: nat | Struck(w, g) ensures Struck(w', g) {
      var c :| 0 <= c < |w.cancels| && w.cancels[c].stored && w.cancels[c].aimedAt == Some(g);
      assert w'.cancels[c].stored;
    }
  }

  lemma EnterInv(w: World, id: string)
    requires Inv(w) && Enabled(w, Enter(id))
    ensures Inv(Apply(w, Enter(id)))
  {
    var w' := Apply(w, Enter(id));
    assert id !in w.slots;
    StruckKept(w, w');
    forall k | k in w'.slots ensures LiveFor(w', w'.slots[k], k) {
      if k != id { assert LiveFor(w, w.slots[k], k); }
    }
  }

  lemma LeaveInv(w: World, g: nat)
    requires Inv(w) && Enabled(w, Leave(g))
    ensures Inv(Apply(w, Leave(g)))
  {
    var w' := Apply(w, Leave(g));
    StruckKept(w, w');
    forall k | k in w'.slots ensures LiveFor(w', w'.slots[k], k) {
      assert LiveFor(w, w.slots[k], k);
    }
  }

  lemma LookupInv(w: World, id: string)
    requires Inv(w)
    ensures Inv(Apply(w, Lookup(id)))
  {
    var w' := Apply(w, Lookup(id));
    AimIs(w, id);
    StruckKept(w, w');
    forall k | k in w'.slots ensures LiveFor(w', w'.slots[k], k) {
      assert LiveFor(w, w.slots[k], k);
    }
  }

  lemma StoreInv(w: World, c: nat)
    requires Inv(w) && Enabled(w, Store(c))
    ensures Inv(Apply(w, Store(c)))
  {
    var w' := Apply(w, Store(c));
    StruckKept(w, w');
    assert w'.cancels[c].stored && w'.cancels[c].aimedAt == Some(w.cancels[c].cell.value);
    forall k | k in w'.slots ensures LiveFor(w', w'.slots[k], k) {
      assert LiveFor(w, w.slots[k], k);
    }
  }

  lemma StepInv(w: World, a: Act)
    requires Inv(w) && Enabled(w, a)
    ensures Inv(Apply(w, a))
  {
    match a
    case Enter(id) => EnterInv(w, id);
    case Leave(g) => LeaveInv(w, g);
    case Lookup(id) => LookupInv(w, id);
    case Store(c) => StoreInv(w, c);
  }

  lemma Invariant(w: World)
    requires Reachable(Init, Next, w)
    ensures Inv(w)
  {
    forall x, y | Inv(x) && Next(x, y) ensures Inv(y) {
      var a :| Enabled(x, a) && y == Apply(x, a);
      StepInv(x, a);
    }
    ReachableInvariant(Init, Next, Inv, w);
  }

  /** In every interleaving a guard's flag is up exactly when some cancel call that found it has stored: a call that returned true was not lost, and a late store meant for an earlier registration of the same id does not touch a new one. */
  lemma FlagMeansCancelled(w: World, g: nat)
    requires Reachable(Init, Next, w) && g < |w.guards|
    ensures w.guards[g].cell < |w.cells|
    ensures w.cells[w.guards[g].cell] <==> exists c :: 0 <= c < |w.cancels| && w.cancels[c].stored && w.cancels[c].aimedAt == Some(g)
  {
    Invariant(w);
    if Struck(w, g) {
      var c :| 0 <= c < |w.cancels| && w.cancels[c].stored && w.cancels[c].aimedAt == Some(g);
      assert w.cancels[c].cell == Some(g);
    }
  }

  /** While a guard is live, the registry answers for its id and hands out its flag; a guard that has just entered starts unflagged. */
  lemma LiveGuardIsFound(w: World, g: nat)
    requires Reachable(Init, Next, w) && g < |w.guards| && w.guards[g].live
    ensures w.guards[g].id in w.slots && w.slots[w.guards[g].id] == w.guards[g].cell
    ensures w.guards[g].cell < |w.cells|
    ensures (forall c :: 0 <= c < |w.cancels| ==> w.cancels[c].aimedAt != Some(g)) ==> !w.cells[w.guards[g].cell]
  {
    Invariant(w);
    if w.cells[g] {
      assert Struck(w, g);
    }
  }

  /** A raised flag is never lowered. */
  lemma FlagsStayUp(w: World, later: World, cell: nat)
    requires Leads(Next, w, later)
    requires cell < |w.cells| && w.cells[cell]
    ensures cell < |later.cells| && later.cells[cell]
  {
    var up := (x: World) => cell < |x.cells| && x.cells[cell];
    LeadsInvariant(Next, up, w, later);
  }
}
