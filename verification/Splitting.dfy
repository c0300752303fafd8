/** Splitting a file into parts for Telegram, over a disk that may fail at any point. */
module Splitting {
  import opened Wrappers
  import opened Arithmetic
  import opened Sequences

  const STREAM_BUFFER: int := 1024 * 1024

  /** Whether the file can be opened and the k-th part file created, how many bytes the k-th read delivers if it breaks, and whether the k-th write succeeds. */
  datatype Disk = Disk(opens: bool, creates: nat -> bool, breaks: nat -> Option<nat>, writes: nat -> bool)

  /** Where the k-th read of an unbroken stream starts: reads are buffers, cut at the end of a part. */
  function ReadAt(size: int, k: nat): (pos: nat)
    requires size > 0
  {
    if k == 0 then 0
    else var pos := ReadAt(size, k - 1); pos + Min(STREAM_BUFFER, size - pos % size)
  }

  ghost predicate Unbroken(disk: Disk, n: nat)
  {
    forall k: nat :: k < n ==> disk.breaks(k).None?
  }

  /** The k-th read is the first to break, and there was something left to read. */
  ghost predicate BreaksFirst(disk: Disk, total: nat, size: int, k: nat)
    requires size > 0
  {
    Unbroken(disk, k) && disk.breaks(k).Some? && ReadAt(size, k) < total
  }

  /** Then this much of the file was delivered. */
  function Delivered(disk: Disk, total: nat, size: int, k: nat): int
    requires size > 0 && disk.breaks(k).Some?
  {
    ReadAt(size, k) + Min(disk.breaks(k).value, Min(ReadAt(size, k + 1), total) - ReadAt(size, k))
  }

  /** No read loses anything: a read that starts inside the file does not break, or is the last and breaks after the last byte. */
  ghost predicate Whole(disk: Disk, total: nat, size: int)
    requires size > 0
  {
    forall k: nat :: ReadAt(size, k) < total ==>
      disk.breaks(k).None? || (ReadAt(size, k + 1) >= total && disk.breaks(k).value >= total - ReadAt(size, k))
  }

  lemma {:induction false} ReadsAdvance(size: int, j: nat, k: nat)
    requires size > 0 && j < k
    ensures ReadAt(size, j) < ReadAt(size, k)
    decreases k
  {
    if j < k - 1 {
      ReadsAdvance(size, j, k - 1);
    }
  }

  lemma {:induction false} FirstBreak(disk: Disk, total: nat, size: int, k: nat) returns (j: nat)
    requires size > 0 && disk.breaks(k).Some? && ReadAt(size, k) < total
    ensures j <= k && BreaksFirst(disk, total, size, j)
  {
    if i: nat :| i < k && disk.breaks(i).Some? {
      ReadsAdvance(size, i, k);
      j := FirstBreak(disk, total, size, i);
    } else {
      j := k;
    }
  }

  /** The whole file is delivered exactly when no read loses anything. */
  lemma WholeOrNot(disk: Disk, total: nat, size: int, pos: int)
    requires size > 0 && Stalled(disk, total, size, pos)
    ensures pos == total <==> Whole(disk, total, size)
  {
    if k: nat :| BreaksFirst(disk, total, size, k) {
      forall i: nat | ReadAt(size, i) < total && i != k
        ensures disk.breaks(i).None? || ReadAt(size, k + 1) < total
      {
        if i > k + 1 { ReadsAdvance(size, k + 1, i); }
      }
    } else {
      forall k: nat | ReadAt(size, k) < total ensures disk.breaks(k).None? {
        if disk.breaks(k).Some? {
          var j := FirstBreak(disk, total, size, k);
          assert false;
        }
      }
    }
  }

  /** The position at which a stream is no longer good. */
  ghost predicate Stalled(disk: Disk, total: nat, size: int, pos: int)
    requires size > 0
  {
    && (forall k: nat :: BreaksFirst(disk, total, size, k) ==> pos == Delivered(disk, total, size, k))
    && ((forall k: nat :: !BreaksFirst(disk, total, size, k)) ==> pos == total)
  }

  /** The position before read number `n` of a stream that is still good. */
  ghost predicate Flowing(disk: Disk, size: int, pos: int, n: nat)
    requires size > 0
  {
    Unbroken(disk, n) && pos == ReadAt(size, n)
  }

  /** One read at `pos`, of what remains of the part: the stream goes on, or stalls where it should. */
  lemma OneRead(disk: Disk, total: nat, size: int, start: nat, pos: nat, n: nat)
    requires size > 0 && Flowing(disk, size, pos, n) && start % size == 0 && start <= pos < start + size && pos <= total
    ensures var toRead := Min(start + size - pos, STREAM_BUFFER);
            var there := Min(toRead, total - pos);
            var got := if disk.breaks(n).Some? then Min(disk.breaks(n).value, there) else there;
            if disk.breaks(n).None? && got == toRead then Flowing(disk, size, pos + got, n + 1)
            else Stalled(disk, total, size, pos + got)
  {
    OffsetInPart(start, size, pos);
    assert ReadAt(size, n + 1) == pos + Min(start + size - pos, STREAM_BUFFER);
    forall k: nat | k != n && BreaksFirst(disk, total, size, k) ensures disk.breaks(n).None? && ReadAt(size, n + 1) < total {
      if k > n + 1 { ReadsAdvance(size, n + 1, k); }
    }
    if disk.breaks(n).Some? && pos < total {
      assert BreaksFirst(disk, total, size, n);
    }
  }

  lemma OffsetInPart(start: nat, size: int, pos: nat)
    requires size > 0 && start % size == 0 && start <= pos < start + size
    ensures pos % size == pos - start
  {
    var q := start / size;
    assert start == q * size;
    RemainderIs(q, size, pos - start);
  }

  /** `parts` cut `src` up to `pos` into pieces of `size`, of which at most the last is shorter, and none is empty. */
  ghost predicate Cut<T>(parts: seq<seq<T>>, src: seq<T>, pos: int, size: int)
  {
    && 0 <= pos <= |src|
    && Flatten(parts) == src[..pos]
    && (forall k :: 0 <= k < |parts| ==> 0 < |parts[k]| <= size)
    && (forall k :: 0 <= k < |parts| - 1 ==> |parts[k]| == size)
    && (parts != [] && pos < |src| ==> |parts[|parts| - 1]| == size)
  }

  lemma CutNext<T>(parts: seq<seq<T>>, src: seq<T>, pos: int, end: int, size: int)
    requires Cut(parts, src, pos, size) && pos < |src| && end == Min(pos + size, |src|) && size > 0
    ensures Cut(parts + [src[pos..end]], src, end, size)
  {
    var longer := parts + [src[pos..end]];
    assert longer[..|longer| - 1] == parts;
    assert src[..pos] + src[pos..end] == src[..end];
  }

  lemma FlattenNext<T>(parts: seq<seq<T>>, src: seq<T>, pos: int, end: int)
    requires 0 <= pos <= end <= |src| && Flatten(parts) == src[..pos]
    ensures Flatten(parts + [src[pos..end]]) == src[..end]
  {
    var longer := parts + [src[pos..end]];
    assert longer[..|longer| - 1] == parts;
    assert src[..pos] + src[pos..end] == src[..end];
  }

  /** Copies one part in buffers, from `from` until it has `size` bytes or the stream is no longer good. */
  method CopyPart<T>(src: seq<T>, from: nat, wasGood: bool, size: int, disk: Disk, read: nat, written: nat)
    returns (part: Option<seq<T>>, pos: int, good: bool, readCount: nat, writes: nat)
    requires from <= |src| && size > 0
    requires if wasGood then from % size == 0 && Flowing(disk, size, from, read) else Stalled(disk, |src|, size, from)
    ensures part.None? ==> exists k: nat :: !disk.writes(k)
    ensures from <= pos <= |src| && pos <= from + size
    ensures part.Some? ==> part.value == src[from..pos]
    ensures part.Some? ==> if good then pos == from + size && Flowing(disk, size, pos, readCount) else Stalled(disk, |src|, size, pos)
    ensures !wasGood ==> !good && pos == from
  {
    var out: seq<T> := [];
    var remaining := size;
    pos, good, readCount, writes := from, wasGood, read, written;
    while remaining > 0 && good
      invariant 0 <= remaining <= size
      invariant from <= pos <= |src| && pos - from == size - remaining
      invariant out == src[from..pos]
      invariant if good then wasGood && Flowing(disk, size, pos, readCount) else Stalled(disk, |src|, size, pos)
      invariant !wasGood ==> pos == from
    {
      OneRead(disk, |src|, size, from, pos, readCount);
      var toRead := Min(remaining, STREAM_BUFFER);
      var there := Min(toRead, |src| - pos);
      var got := if disk.breaks(readCount).Some? then Min(disk.breaks(readCount).value, there) else there;
      good := disk.breaks(readCount).None? && got == toRead;
      readCount := readCount + 1;
      if got <= 0 {
        break;
      }
      if !disk.writes(writes) {
        pos := pos + got;
        return None, pos, good, readCount, writes;
      }
      writes := writes + 1;
      out := out + src[pos..pos + got];
      pos := pos + got;
      remaining := remaining - got;
    }
    part := Some(out);
  }

  /**
   * What was split is exactly the part of the file that the reads delivered: all of it, properly cut,
   * if and only if no read loses anything. A read that does is not reported.
   */
  method SplitFile<T>(src: seq<T>, chunkBytes: int, disk: Disk) returns (r: Result<seq<seq<T>>, string>)
    ensures !disk.opens || chunkBytes <= 0 ==> r.Err?
    ensures r.Err? && disk.opens && chunkBytes > 0 ==> exists k: nat :: !disk.creates(k) || !disk.writes(k)
    ensures r.Ok? ==> |r.value| == (|src| + chunkBytes - 1) / chunkBytes
    ensures r.Ok? ==> exists pos :: 0 <= pos <= |src| && Stalled(disk, |src|, chunkBytes, pos) && Flatten(r.value) == src[..pos]
    ensures r.Ok? ==> (Flatten(r.value) == src <==> Whole(disk, |src|, chunkBytes))
    ensures r.Ok? && Whole(disk, |src|, chunkBytes) ==> Cut(r.value, src, |src|, chunkBytes)
  {
    if !disk.opens {
      return Err("telegram_uploader: cannot open");
    }
    if chunkBytes <= 0 {
      return Err("telegram_uploader: split_size must be > 0");
    }
    var count := (|src| + chunkBytes - 1) / chunkBytes;
    CeilingReaches(|src|, chunkBytes, count);
    var parts: seq<seq<T>> := [];
    var pos, good, readCount, writes := 0, true, 0, 0;
    var i := 0;
    while i < count
      invariant 0 <= i <= count && |parts| == i && 0 <= readCount && 0 <= writes
      invariant 0 <= pos <= |src| && pos <= i * chunkBytes && Flatten(parts) == src[..pos]
      invariant if good then pos == i * chunkBytes && Flowing(disk, chunkBytes, pos, readCount) else Stalled(disk, |src|, chunkBytes, pos)
      invariant good || pos == |src| ==> Cut(parts, src, pos, chunkBytes) && pos == Min(i * chunkBytes, |src|)
    {
      BelowCeiling(|src|, chunkBytes, i);
      if !disk.creates(i) {
        return Err("telegram_uploader: cannot create part");
      }
      ghost var start := pos;
      RemainderIs(i, chunkBytes, 0);
      var out: Option<seq<T>>;
      out, pos, good, readCount, writes := CopyPart(src, pos, good, chunkBytes, disk, readCount, writes);
      if out.None? {
        return Err("telegram_uploader: write failed");
      }
      Distribute(i, chunkBytes);
      FlattenNext(parts, src, start, pos);
      if good || pos == |src| {
        CutNext(parts, src, start, pos, chunkBytes);
      }
      parts := parts + [out.value];
      i := i + 1;
    }
    if good {
      FlowsToTheEnd(disk, |src|, chunkBytes, pos, readCount);
    }
    WholeOrNot(disk, |src|, chunkBytes, pos);
    assert pos == |src| <==> src[..pos] == src;
    r := Ok(parts);
  }

  lemma FlowsToTheEnd(disk: Disk, total: nat, size: int, pos: int, n: nat)
    requires size > 0 && Flowing(disk, size, pos, n) && pos == total
    ensures Stalled(disk, total, size, pos)
  {
    forall k: nat | BreaksFirst(disk, total, size, k) ensures false {
      if k > n { ReadsAdvance(size, n, k); }
    }
  }
}
