/** Incremental line slicing of a child's output, and what it means for the whole stream. */
module LineSlicing {
  import opened Wrappers
  import opened Sequences

  // The stream, split once

  /** Index of the first line feed at or after `from`, or the length. */
  function FindFeed(s: string, from: nat): (i: nat)
    requires from <= |s|
    ensures from <= i <= |s|
    ensures i < |s| ==> s[i] == '\n'
    ensures forall k :: from <= k < i ==> s[k] != '\n'
    decreases |s| - from
  {
    if from == |s| || s[from] == '\n' then from else FindFeed(s, from + 1)
  }

  /** The complete lines of a text, without their line feeds. */
  function RawLines(s: string): seq<string>
  {
    if FindFeed(s, 0) == |s| then [] else [s[..FindFeed(s, 0)]] + RawLines(s[FindFeed(s, 0) + 1..])
  }

  /** What follows the last line feed. */
  function Rest(s: string): (r: string)
    ensures |r| <= |s|
  {
    if FindFeed(s, 0) == |s| then s else Rest(s[FindFeed(s, 0) + 1..])
  }

  function TrimCr(line: string): string
  {
    if line != "" && line[|line| - 1] == '\r' then line[..|line| - 1] else line
  }

  function TrimAll(lines: seq<string>): (r: seq<string>)
    ensures |r| == |lines|
  {
    if lines == [] then [] else [TrimCr(lines[0])] + TrimAll(lines[1..])
  }

  /** The complete lines as a listener sees them: no line feed, and no carriage return before it. */
  function Lines(s: string): seq<string>
  {
    TrimAll(RawLines(s))
  }

  /** The last line: what is left over, unless nothing remains once a carriage return is dropped. */
  function LastLine(rest: string): seq<string>
  {
    if TrimCr(rest) == "" then [] else [TrimCr(rest)]
  }

  /** The lines a listener must see for a whole stream. */
  function AllLines(stream: string): seq<string>
  {
    Lines(stream) + LastLine(Rest(stream))
  }

  function Terminated(lines: seq<string>): string
  {
    if lines == [] then "" else lines[0] + "\n" + Terminated(lines[1..])
  }

  lemma TerminatedCons(line: string, lines: seq<string>, rest: string)
    ensures Terminated([line] + lines) + rest == line + "\n" + (Terminated(lines) + rest)
  {
    assert ([line] + lines)[1..] == lines;
    assert (line + "\n" + Terminated(lines)) + rest == line + "\n" + (Terminated(lines) + rest);
  }

  /** Splitting loses nothing and is the only way to cut the stream at its line feeds. */
  lemma {:induction false} SplitIsExact(s: string)
    ensures Terminated(RawLines(s)) + Rest(s) == s
    ensures '\n' !in Rest(s) && forall k :: 0 <= k < |RawLines(s)| ==> '\n' !in RawLines(s)[k]
    decreases |s|
  {
    var nl := FindFeed(s, 0);
    if nl < |s| {
      var line, more := s[..nl], s[nl + 1..];
      SplitIsExact(more);
      RawCons(s, nl);
      RestCons(s, nl);
      TerminatedCons(line, RawLines(more), Rest(more));
      Rejoin(s, nl);
    } else {
      assert Terminated([]) + s == s;
    }
  }

  lemma Rejoin(s: string, nl: nat)
    requires nl < |s| && s[nl] == '\n'
    ensures s == s[..nl] + "\n" + s[nl + 1..]
  {
  }

  lemma {:induction false} SplitIsUnique(lines: seq<string>, rest: string)
    requires '\n' !in rest && forall k :: 0 <= k < |lines| ==> '\n' !in lines[k]
    ensures RawLines(Terminated(lines) + rest) == lines && Rest(Terminated(lines) + rest) == rest
  {
    var s := Terminated(lines) + rest;
    if lines == [] {
      assert s == rest;
    } else {
      var more := Terminated(lines[1..]) + rest;
      assert s == lines[0] + "\n" + more;
      assert s[|lines[0]|] == '\n' && forall k :: 0 <= k < |lines[0]| ==> s[k] == lines[0][k];
      assert FindFeed(s, 0) == |lines[0]|;
      assert s[|lines[0]| + 1..] == more && s[..|lines[0]|] == lines[0];
      SplitIsUnique(lines[1..], rest);
    }
  }

  // Splitting in pieces

  lemma {:induction false} TerminatedAppend(a: seq<string>, b: seq<string>)
    ensures Terminated(a + b) == Terminated(a) + Terminated(b)
  {
    if a == [] {
      assert a + b == b;
    } else {
      TerminatedAppend(a[1..], b);
      assert (a + b)[1..] == a[1..] + b;
    }
  }

  lemma Reassociate(x: string, r: string, b: string, y: string, z: string)
    requires r + b == y + z
    ensures (x + r) + b == (x + y) + z
  {
    assert (x + r) + b == x + (r + b);
    assert (x + y) + z == x + (y + z);
  }

  /** Splitting `a + b` is splitting `a`, then splitting what `a` left over together with `b`. */
  lemma SplitInTwo(a: string, b: string)
    ensures RawLines(a + b) == RawLines(a) + RawLines(Rest(a) + b)
    ensures Rest(a + b) == Rest(Rest(a) + b)
  {
    var c := Rest(a) + b;
    SplitIsExact(a);
    SplitIsExact(c);
    var left, right, rest := RawLines(a), RawLines(c), Rest(c);
    TerminatedAppend(left, right);
    Reassociate(Terminated(left), Rest(a), b, Terminated(right), rest);
    SplitIsUnique(left + right, rest);
  }

  // The slicer

  /** A capture buffer, if there is one, after more output. */
  function Captured(full: Option<string>, more: string): Option<string>
  {
    match full
    case None => None
    case Some(text) => Some(text + more)
  }

  lemma CapturedTwice(full: Option<string>, a: string, b: string)
    ensures Captured(Captured(full, a), b) == Captured(full, a + b)
    ensures Captured(full, "") == full
  {
    if full.Some? {
      assert full.value + a + b == full.value + (a + b);
      assert full.value + "" == full.value;
    }
  }

  /** `full` is the capture buffer, if any; `emitted` is what the listener, if any, has been given. */
  class LineSlicer {
    var full: Option<string>
    var pending: string
    var emitted: seq<string>
    const listening: bool

    constructor (capture: bool, listening: bool)
      ensures this.listening == listening
      ensures full == (if capture then Some("") else None) && pending == "" && emitted == []
    {
      this.listening := listening;
      full, pending, emitted := if capture then Some("") else None, "", [];
    }

    method Feed(chunk: string)
      modifies this
      ensures full == Captured(old(full), chunk)
      ensures listening ==> emitted == old(emitted) + Lines(old(pending) + chunk) && pending == Rest(old(pending) + chunk)
      ensures !listening ==> emitted == old(emitted) && pending == old(pending)
    {
      if full.Some? {
        full := Some(full.value + chunk);
      }
      if !listening {
        return;
      }
      pending := pending + chunk;
      Slice();
    }

    /** Emits the complete lines in `pending` and keeps what follows the last of them. */
    method Slice()
      modifies this`pending, this`emitted
      ensures emitted == old(emitted) + Lines(old(pending)) && pending == Rest(old(pending))
    {
      ghost var text := pending;
      ghost var sent: seq<string> := [];
      var pos := 0;
      SlicedStart(text);
      while true
        invariant Sliced(text, pos, sent) && pending == text
        invariant emitted == old(emitted) + sent
        decreases |text| - pos
      {
        var line, next := CutLine(pending, pos, sent);
        if line.None? {
          break;
        }
        sent := sent + [line.value];
        emitted := emitted + [line.value];
        pos := next;
      }
      pending := pending[pos..];
    }

    method Flush()
      modifies this`pending, this`emitted
      ensures listening ==> emitted == old(emitted) + LastLine(old(pending)) && pending == ""
      ensures !listening ==> emitted == old(emitted) && pending == old(pending)
    {
      assert emitted + [] == emitted;
      if !listening || pending == "" {
        return;
      }
      var end := |pending|;
      if pending[end - 1] == '\r' {
        end := end - 1;
      }
      assert pending[..end] == TrimCr(pending);
      if end > 0 {
        emitted := emitted + [pending[..end]];
      }
      pending := "";
    }

    /** The reader: feed every chunk the pipe yields, then flush. However the stream was cut, the listener sees the lines of the whole stream and the capture is the stream. */
    method Drain(chunks: seq<string>)
      requires pending == ""
      modifies this
      ensures listening ==> emitted == old(emitted) + AllLines(Flatten(chunks))
      ensures !listening ==> emitted == old(emitted)
      ensures full == Captured(old(full), Flatten(chunks))
    {
      ghost var stream := "";
      CapturedTwice(full, "", "");
      SeenNothing(emitted);
      for i := 0 to |chunks|
        invariant stream == Flatten(chunks[..i])
        invariant listening ==> Seen(old(emitted), emitted, pending, stream)
        invariant !listening ==> emitted == old(emitted)
        invariant full == Captured(old(full), stream)
      {
        SeenNext(old(emitted), stream, chunks[i]);
        CapturedTwice(old(full), stream, chunks[i]);
        FlatNext(chunks, i);
        Feed(chunks[i]);
        stream := stream + chunks[i];
      }
      assert chunks[..|chunks|] == chunks;
      Flush();
      SeenAll(old(emitted), stream);
    }
  }

  /** The next complete line after `pos`, without the carriage return before its line feed, and where to go on. */
  method CutLine(text: string, pos: nat, ghost sent: seq<string>) returns (line: Option<string>, next: nat)
    requires Sliced(text, pos, sent)
    ensures line.None? ==> sent == Lines(text) && text[pos..] == Rest(text)
    ensures line.Some? ==> pos < next && Sliced(text, next, sent + [line.value])
  {
    var nl := Find(text, pos);
    if nl == |text| {
      SlicedEnd(text, pos, sent);
      return None, pos;
    }
    var end := nl;
    if end > pos && text[end - 1] == '\r' {
      end := end - 1;
    }
    Trimmed(text, pos, nl);
    SlicedNext(text, pos, nl, sent);
    return Some(text[pos..end]), nl + 1;
  }

  method Find(s: string, from: nat) returns (i: nat)
    requires from <= |s|
    ensures from <= i <= |s| && i == FindFeed(s, from)
  {
    i := from;
    while i < |s| && s[i] != '\n'
      invariant from <= i <= |s|
      invariant FindFeed(s, i) == FindFeed(s, from)
    {
      i := i + 1;
    }
  }

  lemma {:induction false} FindShift(s: string, from: nat, k: nat)
    requires from + k <= |s|
    ensures FindFeed(s[from..], k) == FindFeed(s, from + k) - from
    decreases |s| - k
  {
    if from + k < |s| && s[from + k] != '\n' {
      FindShift(s, from, k + 1);
    }
  }

  lemma NoFeed(s: string, pos: nat)
    requires pos <= |s| && FindFeed(s, pos) == |s|
    ensures Lines(s[pos..]) == [] && Rest(s[pos..]) == s[pos..]
  {
    FindShift(s, pos, 0);
  }

  lemma RawCons(t: string, n: nat)
    requires n == FindFeed(t, 0) < |t|
    ensures RawLines(t) == [t[..n]] + RawLines(t[n + 1..])
  {
  }

  lemma RestCons(t: string, n: nat)
    requires n == FindFeed(t, 0) < |t|
    ensures Rest(t) == Rest(t[n + 1..])
  {
  }

  lemma TrimCons(x: string, xs: seq<string>)
    ensures TrimAll([x] + xs) == [TrimCr(x)] + TrimAll(xs)
  {
    assert ([x] + xs)[1..] == xs;
  }

  lemma SubSlices(s: string, pos: nat, nl: nat)
    requires pos <= nl < |s|
    ensures s[pos..][..nl - pos] == s[pos..nl] && s[pos..][nl - pos + 1..] == s[nl + 1..]
  {
  }

  lemma NextRaw(s: string, pos: nat, nl: nat)
    requires pos <= |s| && nl == FindFeed(s, pos) < |s|
    ensures RawLines(s[pos..]) == [s[pos..nl]] + RawLines(s[nl + 1..])
  {
    FindShift(s, pos, 0);
    SubSlices(s, pos, nl);
    RawCons(s[pos..], nl - pos);
  }

  lemma NextRest(s: string, pos: nat, nl: nat)
    requires pos <= |s| && nl == FindFeed(s, pos) < |s|
    ensures Rest(s[pos..]) == Rest(s[nl + 1..])
  {
    FindShift(s, pos, 0);
    SubSlices(s, pos, nl);
    RestCons(s[pos..], nl - pos);
  }

  lemma NextLine(s: string, pos: nat, nl: nat)
    requires pos <= |s| && nl == FindFeed(s, pos) < |s|
    ensures Lines(s[pos..]) == [TrimCr(s[pos..nl])] + Lines(s[nl + 1..])
    ensures Rest(s[pos..]) == Rest(s[nl + 1..])
  {
    NextRaw(s, pos, nl);
    NextRest(s, pos, nl);
    TrimCons(s[pos..nl], RawLines(s[nl + 1..]));
  }

  /** After `sent` lines the slicer stands at `pos`: the lines still to come are those of the text from there. */
  ghost predicate Sliced(text: string, pos: int, sent: seq<string>)
  {
    0 <= pos <= |text| && sent + Lines(text[pos..]) == Lines(text) && Rest(text[pos..]) == Rest(text)
  }

  lemma SlicedStart(text: string)
    ensures Sliced(text, 0, [])
  {
    assert text[0..] == text && [] + Lines(text) == Lines(text);
  }

  lemma SlicedEnd(text: string, pos: nat, sent: seq<string>)
    requires Sliced(text, pos, sent) && FindFeed(text, pos) == |text|
    ensures sent == Lines(text) && text[pos..] == Rest(text)
  {
    NoFeed(text, pos);
    assert sent + [] == sent;
  }

  lemma SlicedNext(text: string, pos: nat, nl: nat, sent: seq<string>)
    requires Sliced(text, pos, sent) && nl == FindFeed(text, pos) < |text|
    ensures Sliced(text, nl + 1, sent + [TrimCr(text[pos..nl])])
  {
    NextLine(text, pos, nl);
    var line, more := TrimCr(text[pos..nl]), Lines(text[nl + 1..]);
    assert sent + ([line] + more) == (sent + [line]) + more;
  }

  lemma Trimmed(s: string, pos: nat, nl: nat)
    requires pos <= nl < |s|
    ensures TrimCr(s[pos..nl]) == if nl > pos && s[nl - 1] == '\r' then s[pos..nl - 1] else s[pos..nl]
  {
  }

  lemma FlatNext(chunks: seq<string>, i: nat)
    requires i < |chunks|
    ensures Flatten(chunks[..i + 1]) == Flatten(chunks[..i]) + chunks[i]
  {
    assert chunks[..i + 1][..i] == chunks[..i];
  }

  /** A listener who had `before` was given the complete lines of `stream`, and its last line is still pending. */
  ghost predicate Seen(before: seq<string>, emitted: seq<string>, pending: string, stream: string)
  {
    emitted == before + Lines(stream) && pending == Rest(stream)
  }

  lemma SeenNothing(before: seq<string>)
    ensures Seen(before, before, "", "")
  {
    assert Lines("") == [] && Rest("") == "";
    assert before + [] == before;
  }

  /** One more chunk: its lines are those of what was pending together with it. */
  lemma SeenNext(before: seq<string>, stream: string, chunk: string)
    ensures Seen(before, before + Lines(stream) + Lines(Rest(stream) + chunk), Rest(Rest(stream) + chunk), stream + chunk)
  {
    SplitInTwo(stream, chunk);
    TrimAppend(RawLines(stream), RawLines(Rest(stream) + chunk));
    var x, y, z := before, Lines(stream), Lines(Rest(stream) + chunk);
    assert x + (y + z) == x + y + z;
  }

  lemma SeenAll(before: seq<string>, stream: string)
    ensures before + Lines(stream) + LastLine(Rest(stream)) == before + AllLines(stream)
  {
  }

  lemma {:induction false} TrimAppend(a: seq<string>, b: seq<string>)
    ensures TrimAll(a + b) == TrimAll(a) + TrimAll(b)
  {
    if a == [] {
      assert a + b == b;
    } else {
      TrimAppend(a[1..], b);
      TrimCons(a[0], a[1..] + b);
      assert a + b == [a[0]] + (a[1..] + b);
      var x, y, z := [TrimCr(a[0])], TrimAll(a[1..]), TrimAll(b);
      assert x + (y + z) == (x + y) + z;
    }
  }
}
