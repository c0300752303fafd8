/** Sequences: repetition, texts built character by character, and slices of slices. */
module Sequences {

  function Repeat<T>(x: T, n: nat): (s: seq<T>)
    ensures |s| == n && forall i :: 0 <= i < n ==> s[i] == x
  {
    seq(n, _ => x)
  }

  function Flatten<T>(parts: seq<seq<T>>): seq<T>
  {
    if parts == [] then [] else Flatten(parts[..|parts| - 1]) + parts[|parts| - 1]
  }

  /** The images of the elements, one after the other. */
  function FlatMap<A, B>(f: A -> seq<B>, s: seq<A>): seq<B>
  {
    if s == [] then [] else f(s[0]) + FlatMap(f, s[1..])
  }

  lemma {:induction false} FlatMapAppend<A, B>(f: A -> seq<B>, s: seq<A>, a: A)
    ensures FlatMap(f, s + [a]) == FlatMap(f, s) + f(a)
  {
    if s == [] {
      assert (s + [a])[1..] == [];
      assert f(a) + FlatMap(f, []) == f(a);
    } else {
      FlatMapAppend(f, s[1..], a);
      assert (s + [a])[1..] == s[1..] + [a];
    }
  }

  /** One more character of a text that is built by a loop. */
  lemma FlatMapNext<A, B>(f: A -> seq<B>, s: seq<A>, i: nat)
    requires i < |s|
    ensures FlatMap(f, s[..i + 1]) == FlatMap(f, s[..i]) + f(s[i])
  {
    FlatMapAppend(f, s[..i], s[i]);
    assert s[..i + 1] == s[..i] + [s[i]];
  }

  /** Cutting at `cut`, seen from a place `n` before it. */
  lemma CutLater<T>(s: seq<T>, n: nat, cut: nat)
    requires n <= cut <= |s|
    ensures s[n..][..cut - n] == s[..cut][n..] && s[n..][cut - n..] == s[cut..] && s[..cut][..n] == s[..n]
  {
  }

  lemma AppendLater<T>(a: seq<T>, b: seq<T>, n: nat)
    requires n <= |a|
    ensures (a + b)[n..] == a[n..] + b && (a + b)[..n] == a[..n]
  {
  }
}
