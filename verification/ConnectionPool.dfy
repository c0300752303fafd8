/** The SQLite connection pool: a channel of free slots and move-only handles that give their slot back. */
module ConnectionPool {
  import opened Wrappers
  import opened Sets

  class Connection {
    constructor ()
    {
    }
  }

  const INVALID_SLOT: int := -1

  class SqliteConnectionPool {
    const connections: seq<Connection>
    /** The channel of free slots; its capacity is the number of connections. */
    var free: seq<int>

    /** Opens every connection and primes the channel with every slot. */
    constructor (connections: seq<Connection>)
      ensures this.connections == connections
      ensures Partition(this, {})
    {
      this.connections := connections;
      free := [];
      new;
      for i := 0 to |connections|
        invariant this.connections == connections
        invariant free == seq(i, k => k)
      {
        var sent := TrySend(i);
        assert sent;
      }
      forall k | 0 <= k < |connections| ensures k in free {
        assert free[k] == k;
      }
    }

    /** Opening a pool of no connections is refused. */
    static method Open(connections: seq<Connection>) returns (r: Result<SqliteConnectionPool, string>)
      ensures r.Ok? <==> connections != []
      ensures r.Ok? ==> fresh(r.value) && r.value.connections == connections && Partition(r.value, {})
    {
      if connections == [] {
        return Err("SqliteConnectionPool: pool_size must be >= 1");
      }
      var pool := new SqliteConnectionPool(connections);
      r := Ok(pool);
    }

    /** A send on the channel is refused when the channel is full. */
    method TrySend(slot: int) returns (sent: bool)
      modifies this
      ensures sent == (|old(free)| < |connections|)
      ensures free == if sent then old(free) + [slot] else old(free)
    {
      sent := |free| < |connections|;
      if sent {
        free := free + [slot];
      }
    }

    /** Resumed by the channel with a slot, or with an error (`failed`) when the channel is closed or the wait is cancelled. */
    method Acquire(failed: bool, ghost handles: set<SqliteConnectionHandle>) returns (r: Result<SqliteConnectionHandle, string>)
      requires Partition(this, handles)
      requires failed || free != []
      modifies this
      ensures failed ==> r.Err? && free == old(free) && Partition(this, handles)
      ensures !failed ==> r.Ok? && fresh(r.value) && r.value.Holds(this, old(free)[0])
      ensures !failed ==> free == old(free)[1..] && Partition(this, handles + {r.value})
    {
      if failed {
        return Err("SqliteConnectionPool::acquire failed");
      }
      var slot := free[0];
      assert slot in free;
      free := free[1..];
      var h := new SqliteConnectionHandle.Of(this, slot, connections[slot]);
      forall k | 0 <= k < |connections| ensures k in free || Held(this, handles + {h}, k) {
        if k == slot {
          assert h.Holds(this, k);
        } else if old(k !in free) {
          var g :| g in handles && old(g.Holds(this, k));
          assert g.Holds(this, k);
        } else {
          assert old(free) == [slot] + free;
        }
      }
      r := Ok(h);
    }
  }

  class SqliteConnectionHandle {
    var pool: SqliteConnectionPool?
    var slot: int
    var db: Connection?

    ghost predicate Empty()
      reads this
    {
      pool == null && slot == INVALID_SLOT && db == null
    }

    /** The handle owns slot `k` of `p`, and its connection is that slot's. */
    ghost predicate Holds(p: SqliteConnectionPool, k: int)
      reads this
    {
      pool == p && slot == k && 0 <= k < |p.connections| && db == p.connections[k]
    }

    constructor ()
      ensures Empty()
    {
      pool, slot, db := null, INVALID_SLOT, null;
    }

    constructor Of(p: SqliteConnectionPool, k: int, c: Connection)
      requires 0 <= k < |p.connections| && c == p.connections[k]
      ensures Holds(p, k)
    {
      pool, slot, db := p, k, c;
    }

    /** The move constructor: the source is left empty. */
    constructor Moved(other: SqliteConnectionHandle, ghost p: SqliteConnectionPool, ghost handles: set<SqliteConnectionHandle>)
      requires other in handles && Partition(p, handles)
      modifies other
      ensures pool == old(other.pool) && slot == old(other.slot) && db == old(other.db)
      ensures other.Empty()
      ensures Partition(p, handles + {this})
    {
      pool, slot, db := other.pool, other.slot, other.db;
      new;
      other.pool, other.slot, other.db := null, INVALID_SLOT, null;
      forall k | 0 <= k < |p.connections| ensures k in p.free || Held(p, handles + {this}, k) {
        if old(k !in p.free) {
          var h :| h in handles && old(h.Holds(p, k));
          assert if h == other then this.Holds(p, k) else h.Holds(p, k);
        }
      }
    }

    /** Gives the slot back, if there is one; the channel is never full at that point. */
    method Release(ghost p: SqliteConnectionPool, ghost handles: set<SqliteConnectionHandle>)
      requires this in handles && Partition(p, handles)
      modifies this, p
      ensures Empty() && Partition(p, handles)
      ensures p.free == if old(pool) == null then old(p.free) else old(p.free) + [old(slot)]
    {
      ghost var back := slot;
      if pool != null && slot != INVALID_SLOT {
        NeverFull(p.free, |p.connections|, slot);
        var sent := pool.TrySend(slot);
        assert sent;
      }
      pool, slot, db := null, INVALID_SLOT, null;
      forall k | 0 <= k < |p.connections| ensures k in p.free || Held(p, handles, k) {
        if old(k !in p.free) && !(k == back && old(pool != null)) {
          var h :| h in handles && old(h.Holds(p, k));
          assert h.Holds(p, k);
        }
      }
    }

    /** Move assignment: a no-op on itself; otherwise the old slot goes back and the other's is taken over. */
    method MoveAssign(other: SqliteConnectionHandle, ghost p: SqliteConnectionPool, ghost handles: set<SqliteConnectionHandle>)
      requires this in handles && other in handles && Partition(p, handles)
      modifies this, other, p
      ensures Partition(p, handles)
      ensures this == other ==> pool == old(pool) && slot == old(slot) && db == old(db) && p.free == old(p.free)
      ensures this != other ==> pool == old(other.pool) && slot == old(other.slot) && db == old(other.db) && other.Empty()
      ensures this != other ==> p.free == if old(pool) == null then old(p.free) else old(p.free) + [old(slot)]
    {
      if this != other {
        Release(p, handles);
        label released:
        pool, slot, db := other.pool, other.slot, other.db;
        other.pool, other.slot, other.db := null, INVALID_SLOT, null;
        forall k | 0 <= k < |p.connections| ensures k in p.free || Held(p, handles, k) {
          if k !in p.free {
            var h :| h in handles && old@released(h.Holds(p, k));
            assert if h == other then this.Holds(p, k) else h.Holds(p, k);
          }
        }
      }
    }
  }

  /** Slot `k` is held by one of the handles. */
  ghost predicate Held(p: SqliteConnectionPool, handles: set<SqliteConnectionHandle>, k: int)
    reads handles
  {
    exists h :: h in handles && h.Holds(p, k)
  }

  /** Every slot is free exactly once or held by exactly one handle, and no handle holds anything else. */
  ghost predicate Partition(p: SqliteConnectionPool, handles: set<SqliteConnectionHandle>)
    reads p, handles
  {
    && (forall i, j :: 0 <= i < j < |p.free| ==> p.free[i] != p.free[j])
    && (forall i :: 0 <= i < |p.free| ==> 0 <= p.free[i] < |p.connections|)
    && (forall h :: h in handles ==> h.Empty() || (h.Holds(p, h.slot) && h.slot !in p.free))
    && (forall h, g :: h in handles && g in handles && h != g && h.pool != null && g.pool != null ==> h.slot != g.slot)
    && (forall k :: 0 <= k < |p.connections| ==> k in p.free || Held(p, handles, k))
  }

  // A slot that is held leaves room in the channel

  function Elements(s: seq<int>): set<int>
  {
    set x | x in s
  }

  function Range(n: nat): set<int>
  {
    if n == 0 then {} else Range(n - 1) + {n - 1}
  }

  lemma {:induction false} RangeIs(n: nat)
    ensures |Range(n)| == n && forall x :: x in Range(n) <==> 0 <= x < n
  {
    if n > 0 {
      RangeIs(n - 1);
    }
  }

  lemma {:induction false} ElementsCount(s: seq<int>)
    requires forall i, j :: 0 <= i < j < |s| ==> s[i] != s[j]
    ensures |Elements(s)| == |s|
  {
    if s != [] {
      var rest := s[..|s| - 1];
      ElementsCount(rest);
      assert Elements(s) == Elements(rest) + {s[|s| - 1]};
    }
  }

  /** Distinct slots of a pool of `n`, none of them `k`, are fewer than `n`: giving slot `k` back never meets a full channel. */
  lemma NeverFull(free: seq<int>, n: nat, k: int)
    requires forall i, j :: 0 <= i < j < |free| ==> free[i] != free[j]
    requires forall i :: 0 <= i < |free| ==> 0 <= free[i] < n
    requires 0 <= k < n && k !in free
    ensures |free| < n
  {
    RangeIs(n);
    ElementsCount(free);
    SubsetSize(Elements(free), Range(n) - {k});
  }

  // Any sequence of operations

  /** One operation of the program on its handles; `Destroy` is the destructor, after which the handle is dead weight. */
  datatype Op = Borrow(failed: bool) | MoveNew(from: nat) | MoveInto(to: nat, from: nat) | Destroy(h: nat)

  ghost function HandleSet(table: seq<SqliteConnectionHandle>): set<SqliteConnectionHandle>
  {
    set h | h in table
  }

  /** Whatever the operations and their order, self-moves and moved-from handles included, free slots and held slots still partition the pool; a borrow waits (is skipped here) while no slot is free. */
  method RunAll(p: SqliteConnectionPool, ops: seq<Op>) returns (table: seq<SqliteConnectionHandle>)
    requires Partition(p, {})
    modifies p
    ensures Partition(p, HandleSet(table))
    ensures forall h :: h in table ==> fresh(h)
  {
    table := [];
    assert HandleSet(table) == {};
    for i := 0 to |ops|
      invariant Partition(p, HandleSet(table))
      invariant forall h :: h in table ==> fresh(h)
    {
      var op := ops[i];
      if op.Borrow? {
        if op.failed || p.free != [] {
          var r := p.Acquire(op.failed, HandleSet(table));
          if r.Ok? {
            assert HandleSet(table + [r.value]) == HandleSet(table) + {r.value};
            table := table + [r.value];
          }
        }
      } else if op.MoveNew? {
        if op.from < |table| {
          assert table[op.from] in table;
          var h := new SqliteConnectionHandle.Moved(table[op.from], p, HandleSet(table));
          assert HandleSet(table + [h]) == HandleSet(table) + {h};
          table := table + [h];
        }
      } else if op.MoveInto? {
        if op.to < |table| && op.from < |table| {
          assert table[op.to] in table && table[op.from] in table;
          table[op.to].MoveAssign(table[op.from], p, HandleSet(table));
        }
      } else if op.h < |table| {
        assert table[op.h] in table;
        table[op.h].Release(p, HandleSet(table));
      }
    }
  }
}
