/**
 * The accumulation loop the text parsers share: each unit of input (a line,
 * a six-line block) is skipped, yields one row, or raises; the parse is the
 * rows in input order, or fails at the first unit that raised.
 */
module Outcome {
  import opened Wrappers

  datatype Outcome<T> = Skip | Row(row: T) | Fail

  /** The outcome of each unit of input, in order. */
  function Map<A, B>(f: A -> B, xs: seq<A>): (ys: seq<B>)
    ensures |ys| == |xs|
    ensures forall k :: 0 <= k < |xs| ==> ys[k] == f(xs[k])
  {
    if xs == [] then [] else [f(xs[0])] + Map(f, xs[1..])
  }

  lemma MapAppend<A, B>(f: A -> B, a: seq<A>, b: seq<A>)
    ensures Map(f, a + b) == Map(f, a) + Map(f, b)
  {
    var ab := a + b;
    assert forall k :: 0 <= k < |a| ==> ab[k] == a[k];
    assert forall k :: |a| <= k < |ab| ==> ab[k] == b[k - |a|];
  }

  /** One turn of the loop. */
  function Next<T>(acc: Option<seq<T>>, o: Outcome<T>): Option<seq<T>> {
    match acc
    case None => None
    case Some(rows) =>
      match o
      case Fail => None
      case Skip => Some(rows)
      case Row(row) => Some(rows + [row])
  }

  /** The rows of `outs` in order, or `None` when one of them raised. */
  function Collect<T>(outs: seq<Outcome<T>>): (r: Option<seq<T>>)
    ensures r.Some? ==> |r.value| <= |outs|
  {
    if outs == [] then Some([]) else Next(Collect(outs[..|outs| - 1]), outs[|outs| - 1])
  }

  lemma CollectPrefix<T>(outs: seq<Outcome<T>>, k: nat)
    requires k < |outs|
    ensures Collect(outs[..k + 1]) == Next(Collect(outs[..k]), outs[k])
  {
    assert outs[..k + 1][..k] == outs[..k];
  }

  /** The parse fails exactly when one unit raises. */
  lemma {:induction false} CollectFailIff<T>(outs: seq<Outcome<T>>)
    ensures Collect(outs).None? <==> exists k :: 0 <= k < |outs| && outs[k].Fail?
  {
    if outs != [] {
      var init := outs[..|outs| - 1];
      CollectFailIff(init);
      if exists k :: 0 <= k < |init| && init[k].Fail? {
        var k :| 0 <= k < |init| && init[k].Fail?;
        assert outs[k].Fail?;
      }
      if exists k :: 0 <= k < |outs| && outs[k].Fail? {
        var k :| 0 <= k < |outs| && outs[k].Fail?;
        if k < |init| {
          assert init[k].Fail?;
        }
      }
    }
  }

  /** Rows and failures of two stretches of input combine in order. */
  lemma {:induction false} CollectAppend<T>(a: seq<Outcome<T>>, b: seq<Outcome<T>>)
    ensures Collect(a + b) == match Collect(a)
      case None => None
      case Some(ra) => (match Collect(b) case None => None case Some(rb) => Some(ra + rb))
  {
    if b == [] {
      assert a + b == a;
      if Collect(a).Some? {
        assert Collect(a).value + [] == Collect(a).value;
      }
    } else {
      var b' := b[..|b| - 1];
      assert (a + b)[..|a + b| - 1] == a + b';
      CollectAppend(a, b');
      if Collect(a).Some? && Collect(b').Some? && b[|b| - 1].Row? {
        assert Collect(a).value + (Collect(b').value + [b[|b| - 1].row])
          == Collect(a).value + Collect(b').value + [b[|b| - 1].row];
      }
    }
  }

  /** A skipped unit leaves the result as if it were absent. */
  lemma SkipAnywhere<T>(a: seq<Outcome<T>>, b: seq<Outcome<T>>)
    ensures Collect(a + [Skip] + b) == Collect(a + b)
  {
    CollectAppend(a + [Skip], b);
    CollectAppend(a, [Skip]);
    CollectAppend(a, b);
    var one: seq<Outcome<T>> := [Skip];
    assert one[..0] == [];
    assert Collect(one) == Some([]);
    if Collect(a).Some? {
      assert Collect(a).value + [] == Collect(a).value;
    }
  }

  /** No row comes from a stretch of skipped units at the end. */
  lemma {:induction false} CollectSkips<T>(outs: seq<Outcome<T>>, m: nat)
    requires m <= |outs|
    requires forall k :: m <= k < |outs| ==> outs[k].Skip?
    ensures Collect(outs) == Collect(outs[..m])
  {
    if |outs| > m {
      var init := outs[..|outs| - 1];
      assert init[..m] == outs[..m];
      CollectSkips(init, m);
    } else {
      assert outs[..m] == outs;
    }
  }

  /** Without skips or failures, there is one row per unit, in order. */
  lemma {:induction false} CollectRows<T>(outs: seq<Outcome<T>>)
    requires forall k :: 0 <= k < |outs| ==> outs[k].Row?
    ensures Collect(outs).Some? && |Collect(outs).value| == |outs|
    ensures forall k :: 0 <= k < |outs| ==> Collect(outs).value[k] == outs[k].row
  {
    if outs != [] {
      CollectRows(outs[..|outs| - 1]);
    }
  }
}
