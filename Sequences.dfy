/**
 * Facts about concatenation and slicing of sequences, stated apart from
 * the recursive functions they are used with so that each proof that needs
 * them works in a small context.
 */
module Sequences {

  /** The head and tail of `a + b` when `a` is not empty. */
  lemma HeadTail<T>(a: seq<T>, b: seq<T>)
    requires a != []
    ensures (a + b)[0] == a[0] && (a + b)[1..] == a[1..] + b
  {
  }

  /** Cutting `a + p + b` inside `a`. */
  lemma Drop3<T>(a: seq<T>, p: seq<T>, b: seq<T>, k: nat)
    requires k <= |a|
    ensures (a + p + b)[k..] == a[k..] + p + b
    ensures (a + p + b)[..k] == a[..k]
  {
  }

  /** The head and tail of `a + p + b` when `a` is not empty. */
  lemma HeadTail3<T>(a: seq<T>, p: seq<T>, b: seq<T>)
    requires a != []
    ensures (a + p + b)[0] == a[0] && (a + p + b)[1..] == a[1..] + p + b
  {
  }

  /** The head and tail of `a + [x] + b` when `a` is empty. */
  lemma EmptyHeadTail<T>(a: seq<T>, x: T, b: seq<T>)
    requires a == []
    ensures a + [x] + b == [x] + b && (a + [x] + b)[0] == x && (a + [x] + b)[1..] == b
  {
  }

  /** All but the last element, and the last element, of `a + b` when `b` is not empty. */
  lemma InitLast<T>(a: seq<T>, b: seq<T>)
    requires b != []
    ensures (a + b)[..|a + b| - 1] == a + b[..|b| - 1] && (a + b)[|a + b| - 1] == b[|b| - 1]
  {
  }

  /** Appending the empty sequence changes nothing. */
  lemma AppendEmpty<T>(a: seq<T>)
    ensures a + [] == a
  {
  }

  /** Concatenation is associative. */
  lemma Assoc<T>(x: seq<T>, y: seq<T>, z: seq<T>)
    ensures x + (y + z) == (x + y) + z
  {
  }

  /** Prepending the head of `a` to the rest of `a` followed by `r` gives `a + r`. */
  lemma ConsAppend<T>(a: seq<T>, r: seq<T>)
    requires a != []
    ensures [a[0]] + (a[1..] + r) == a + r
  {
    assert a == [a[0]] + a[1..];
  }

  /** The multiset of a non-empty sequence is its head's plus its tail's. */
  lemma MultisetCons<T>(xs: seq<T>)
    requires xs != []
    ensures multiset(xs) == multiset{xs[0]} + multiset(xs[1..])
  {
    assert xs == [xs[0]] + xs[1..];
  }

  /** Growing the first element of `u` by `c`, before or after appending `w`. */
  lemma ConsFirst<T>(c: T, u: seq<seq<T>>, w: seq<seq<T>>)
    requires u != []
    ensures [[c] + (u + w)[0]] + (u + w)[1..] == ([[c] + u[0]] + u[1..]) + w
  {
    assert (u + w)[0] == u[0] && (u + w)[1..] == u[1..] + w;
  }
}
