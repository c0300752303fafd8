/** The chunk plan of a resumable Drive upload: 256 KiB-aligned pieces that tile the file. */
module ChunkPlan {
  import opened Wrappers
  import opened Arithmetic

  const ALIGNMENT: int := 256 * 1024

  datatype Chunk = Chunk(offset: int, length: int)

  /** The chunk size in force: at least one alignment unit, rounded down to a whole number of them. */
  function ChunkBytes(configured: int): (bytes: int)
    ensures bytes > 0 && bytes % ALIGNMENT == 0
    ensures configured < ALIGNMENT ==> bytes == ALIGNMENT
    ensures configured >= ALIGNMENT ==> configured - ALIGNMENT < bytes <= configured
  {
    (Max(configured, ALIGNMENT) / ALIGNMENT) * ALIGNMENT
  }

  /** The chunks start at 0, follow each other without gap or overlap, are never empty and end at `end`. */
  ghost predicate Contiguous(plan: seq<Chunk>, end: int)
  {
    && (forall k :: 0 <= k < |plan| ==> plan[k].length > 0)
    && (forall j, k :: 0 <= j && k == j + 1 && k < |plan| ==> plan[k].offset == plan[j].offset + plan[j].length)
    && if plan == [] then end == 0
       else plan[0].offset == 0 && plan[|plan| - 1].offset + plan[|plan| - 1].length == end
  }

  ghost predicate Covers(c: Chunk, byte: int)
  {
    c.offset <= byte < c.offset + c.length
  }

  lemma AppendChunk(plan: seq<Chunk>, end: int, c: Chunk)
    requires Contiguous(plan, end) && c.offset == end && c.length > 0
    ensures Contiguous(plan + [c], end + c.length)
  {
    var longer := plan + [c];
    forall j, k | 0 <= j && k == j + 1 && k < |longer| ensures longer[k].offset == longer[j].offset + longer[j].length {
      if k < |plan| {
        assert longer[k] == plan[k] && longer[j] == plan[j];
      }
    }
  }

  /** `plan` is what the loop has built after reaching offset `off`: full aligned chunks up to `off`, the last cut at `total`. */
  ghost predicate PlannedTo(plan: seq<Chunk>, off: int, total: int, chunkBytes: int)
  {
    && off % ALIGNMENT == 0
    && Contiguous(plan, Min(off, total))
    && (forall k :: 0 <= k < |plan| ==> plan[k].offset % ALIGNMENT == 0)
    && (forall k :: 0 <= k < |plan| - 1 ==> plan[k].length == chunkBytes)
    && (plan != [] && off <= total ==> plan[|plan| - 1].length == chunkBytes)
  }

  lemma PlannedNext(plan: seq<Chunk>, off: int, total: int, chunkBytes: int)
    requires chunkBytes > 0 && chunkBytes % ALIGNMENT == 0
    requires PlannedTo(plan, off, total, chunkBytes) && off < total
    ensures PlannedTo(plan + [Chunk(off, Min(chunkBytes, total - off))], off + chunkBytes, total, chunkBytes)
  {
    var c := Chunk(off, Min(chunkBytes, total - off));
    AppendChunk(plan, off, c);
    AlignedNext(off, chunkBytes);
    var longer := plan + [c];
    forall k | 0 <= k < |longer| ensures longer[k].offset % ALIGNMENT == 0 {
      assert k < |plan| ==> longer[k] == plan[k];
    }
    forall k | 0 <= k < |longer| - 1 ensures longer[k].length == chunkBytes {
      assert longer[k] == plan[k];
    }
  }

  lemma AlignedNext(off: int, chunkBytes: int)
    requires off % ALIGNMENT == 0 && chunkBytes % ALIGNMENT == 0
    ensures (off + chunkBytes) % ALIGNMENT == 0
  {
  }

  method BuildPlan(total: nat, chunkBytes: int) returns (plan: seq<Chunk>)
    requires chunkBytes > 0 && chunkBytes % ALIGNMENT == 0
    ensures Contiguous(plan, total)
    ensures |plan| == (total + chunkBytes - 1) / chunkBytes
    ensures forall k :: 0 <= k < |plan| ==> plan[k].offset % ALIGNMENT == 0
    ensures forall k :: 0 <= k < |plan| - 1 ==> plan[k].length == chunkBytes
  {
    plan := [];
    var off := 0;
    while off < total
      invariant PlannedTo(plan, off, total, chunkBytes)
      invariant off == |plan| * chunkBytes
      invariant off < total + chunkBytes
      decreases total - off
    {
      PlannedNext(plan, off, total, chunkBytes);
      Distribute(|plan|, chunkBytes);
      plan := plan + [Chunk(off, Min(chunkBytes, total - off))];
      off := off + chunkBytes;
    }
    CeilingIs(total, chunkBytes, |plan|);
  }

  /** Chunk `k` ends no later than any later chunk starts. */
  lemma {:induction false} Ordered(plan: seq<Chunk>, end: int, j: nat, k: nat)
    requires Contiguous(plan, end) && j < k < |plan|
    ensures plan[j].offset + plan[j].length <= plan[k].offset
    decreases k
  {
    if j < k - 1 {
      Ordered(plan, end, j, k - 1);
    }
  }

  lemma {:induction false} FindChunk(plan: seq<Chunk>, end: int, byte: int, k: nat) returns (at: nat)
    requires Contiguous(plan, end) && k < |plan| && 0 <= byte < plan[k].offset + plan[k].length
    ensures at <= k && Covers(plan[at], byte)
    decreases k
  {
    if Covers(plan[k], byte) {
      at := k;
    } else {
      at := FindChunk(plan, end, byte, k - 1);
    }
  }

  /** Every byte of the file lies in exactly one chunk, and no chunk reaches outside the file. */
  lemma EveryByteOnce(plan: seq<Chunk>, total: nat, byte: int)
    requires Contiguous(plan, total)
    ensures 0 <= byte < total <==> exists k :: 0 <= k < |plan| && Covers(plan[k], byte)
    ensures forall j, k :: 0 <= j < |plan| && 0 <= k < |plan| && Covers(plan[j], byte) && Covers(plan[k], byte) ==> j == k
  {
    if 0 <= byte < total {
      var k := FindChunk(plan, total, byte, |plan| - 1);
    }
    forall k | 0 <= k < |plan| && Covers(plan[k], byte) ensures 0 <= byte < total {
      if k < |plan| - 1 { Ordered(plan, total, k, |plan| - 1); }
      if 0 < k { Ordered(plan, total, 0, k); }
    }
    forall j, k | 0 <= j < |plan| && 0 <= k < |plan| && Covers(plan[j], byte) && Covers(plan[k], byte) ensures j == k {
      if j < k { Ordered(plan, total, j, k); }
      if k < j { Ordered(plan, total, k, j); }
    }
  }

  /** Total length of the chunks whose flag is up. */
  function Sum(plan: seq<Chunk>, flags: seq<bool>): int
    requires |plan| == |flags|
  {
    if plan == [] then 0 else (if flags[0] then plan[0].length else 0) + Sum(plan[1..], flags[1..])
  }

  lemma {:induction false} SumUpdate(plan: seq<Chunk>, flags: seq<bool>, i: nat)
    requires |plan| == |flags| && i < |flags| && !flags[i]
    ensures Sum(plan, flags[i := true]) == Sum(plan, flags) + plan[i].length
  {
    if i == 0 {
      assert flags[0 := true][1..] == flags[1..];
    } else {
      SumUpdate(plan[1..], flags[1..], i - 1);
      assert flags[i := true][1..] == flags[1..][i - 1 := true];
    }
  }

  /** More flags mean no fewer bytes, and the same bytes only if the flags are the same. */
  lemma {:induction false} SumMonotone(plan: seq<Chunk>, some: seq<bool>, more: seq<bool>)
    requires |plan| == |some| == |more|
    requires forall k :: 0 <= k < |plan| ==> plan[k].length > 0
    requires forall k :: 0 <= k < |plan| && some[k] ==> more[k]
    ensures Sum(plan, some) <= Sum(plan, more)
    ensures Sum(plan, some) == Sum(plan, more) <==> some == more
  {
    if plan != [] {
      SumMonotone(plan[1..], some[1..], more[1..]);
      assert some == [some[0]] + some[1..] && more == [more[0]] + more[1..];
    }
  }

  lemma {:induction false} SumFrom(plan: seq<Chunk>, flags: seq<bool>, base: int)
    requires |plan| == |flags| && plan != []
    requires forall k :: 0 <= k < |flags| ==> flags[k]
    requires forall j, k :: 0 <= j && k == j + 1 && k < |plan| ==> plan[k].offset == plan[j].offset + plan[j].length
    requires plan[0].offset == base
    ensures base + Sum(plan, flags) == plan[|plan| - 1].offset + plan[|plan| - 1].length
  {
    if |plan| > 1 {
      SumFrom(plan[1..], flags[1..], base + plan[0].length);
    }
  }

  /** The lengths of a contiguous plan add up to the file size. */
  lemma SumAll(plan: seq<Chunk>, flags: seq<bool>, total: int)
    requires |plan| == |flags| && Contiguous(plan, total)
    requires forall k :: 0 <= k < |flags| ==> flags[k]
    ensures Sum(plan, flags) == total
  {
    if plan != [] {
      SumFrom(plan, flags, 0);
    }
  }
}
