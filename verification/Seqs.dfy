/** Sequences filtered by a predicate. */
module Seqs {

  lemma {:induction false} Assoc<T>(xs: seq<T>, ys: seq<T>, zs: seq<T>)
    ensures xs + ys + zs == xs + (ys + zs)
  {}

  function Filter<T>(keep: T -> bool, xs: seq<T>): seq<T> {
    if xs == [] then []
    else if keep(xs[0]) then [xs[0]] + Filter(keep, xs[1..])
    else Filter(keep, xs[1..])
  }

  lemma {:induction false} FilterAppend<T>(keep: T -> bool, xs: seq<T>, ys: seq<T>)
    ensures Filter(keep, xs + ys) == Filter(keep, xs) + Filter(keep, ys)
  {
    if xs == [] {
      assert xs + ys == ys;
    } else {
      FilterAppend(keep, xs[1..], ys);
      assert (xs + ys)[1..] == xs[1..] + ys;
    }
  }

  lemma {:induction false} FilterMember<T>(keep: T -> bool, xs: seq<T>, x: T)
    ensures x in Filter(keep, xs) <==> x in xs && keep(x)
  {
    if xs != [] {
      FilterMember(keep, xs[1..], x);
      assert xs == [xs[0]] + xs[1..];
    }
  }

  lemma {:induction false} FilterAll<T>(keep: T -> bool, xs: seq<T>)
    requires forall i | 0 <= i < |xs| :: keep(xs[i])
    ensures Filter(keep, xs) == xs
  {
    if xs != [] { FilterAll(keep, xs[1..]); }
  }

  lemma {:induction false} FilterNone<T>(keep: T -> bool, xs: seq<T>)
    requires forall i | 0 <= i < |xs| :: !keep(xs[i])
    ensures Filter(keep, xs) == []
  {
    if xs != [] { FilterNone(keep, xs[1..]); }
  }

  lemma {:induction false} FilterDistinct<T>(keep: T -> bool, xs: seq<T>)
    requires forall i, j | 0 <= i < j < |xs| :: xs[i] != xs[j]
    ensures var ys := Filter(keep, xs); forall i, j | 0 <= i < j < |ys| :: ys[i] != ys[j]
  {
    if xs != [] {
      FilterDistinct(keep, xs[1..]);
      FilterMember(keep, xs[1..], xs[0]);
    }
  }

  /** Where the elements a filter keeps stood, in order. */
  lemma {:induction false} FilterPositions<T>(keep: T -> bool, xs: seq<T>) returns (at: seq<nat>)
    ensures Ascending(at) && (forall i | 0 <= i < |at| :: at[i] < |xs|)
    ensures forall k | 0 <= k < |xs| :: k in at <==> keep(xs[k])
    ensures |at| == |Filter(keep, xs)| && forall i | 0 <= i < |at| :: Filter(keep, xs)[i] == xs[at[i]]
  {
    at := [];
    if xs != [] {
      var n := |xs| - 1;
      var before := FilterPositions(keep, xs[..n]);
      at := if keep(xs[n]) then before + [n] else before;
      PositionsNext(keep, xs, before, at);
      assert xs[..n + 1] == xs;
      FilterNext(keep, xs, n);
      PickedNext(xs, before, at, Filter(keep, xs[..n]), Filter(keep, xs));
    }
  }

  lemma {:induction false} PickedNext<T>(xs: seq<T>, before: seq<nat>, at: seq<nat>, some: seq<T>, more: seq<T>)
    requires xs != [] && |before| == |some| && forall i | 0 <= i < |before| :: before[i] < |xs| - 1
    requires forall i | 0 <= i < |before| :: some[i] == xs[..|xs| - 1][before[i]]
    requires || (at == before && more == some)
             || (at == before + [|xs| - 1] && more == some + [xs[|xs| - 1]])
    ensures |at| == |more| && forall i | 0 <= i < |at| :: at[i] < |xs| && more[i] == xs[at[i]]
  {}

  predicate Ascending(at: seq<int>) {
    forall i, j | 0 <= i < j < |at| :: at[i] < at[j]
  }

  lemma {:induction false} PositionsNext<T>(keep: T -> bool, xs: seq<T>, before: seq<nat>, at: seq<nat>)
    requires xs != [] && at == if keep(xs[|xs| - 1]) then before + [|xs| - 1] else before
    requires Ascending(before) && (forall i | 0 <= i < |before| :: before[i] < |xs| - 1)
    requires forall k | 0 <= k < |xs| - 1 :: k in before <==> keep(xs[k])
    ensures Ascending(at) && (forall i | 0 <= i < |at| :: at[i] < |xs|)
    ensures forall k | 0 <= k < |xs| :: k in at <==> keep(xs[k])
  {}

  /** A filter sees nothing of what an earlier filter removed, and all it wants of the rest. */
  lemma {:induction false} FilterTwice<T>(keep: T -> bool, first: T -> bool, both: T -> bool, xs: seq<T>)
    requires forall i | 0 <= i < |xs| :: both(xs[i]) == (keep(xs[i]) && first(xs[i]))
    ensures Filter(keep, Filter(first, xs)) == Filter(both, xs)
  {
    if xs != [] { FilterTwice(keep, first, both, xs[1..]); }
  }

  lemma {:induction false} FilterOne<T>(keep: T -> bool, x: T)
    ensures Filter(keep, [x]) == if keep(x) then [x] else []
  {}

  lemma {:induction false} FilterNext<T>(keep: T -> bool, xs: seq<T>, i: nat)
    requires i < |xs|
    ensures Filter(keep, xs[..i + 1]) == Filter(keep, xs[..i]) + if keep(xs[i]) then [xs[i]] else []
  {
    assert xs[..i + 1] == xs[..i] + [xs[i]];
    FilterAppend(keep, xs[..i], [xs[i]]);
    FilterOne(keep, xs[i]);
  }

  lemma {:induction false} SliceJoin<T>(xs: seq<T>, a: nat, b: nat)
    requires a <= b <= |xs|
    ensures xs[..a] + xs[a..b] == xs[..b]
  {}

  lemma {:induction false} SliceNext<T>(xs: seq<T>, i: nat)
    requires i < |xs|
    ensures xs[..i + 1] == xs[..i] + [xs[i]]
  {}

  /** The elements of a set in an arbitrary order, as ranging over a map yields its keys. */
  method Elements<T(==)>(s: set<T>) returns (xs: seq<T>)
    ensures forall x :: x in xs <==> x in s
    ensures forall i, j | 0 <= i < j < |xs| :: xs[i] != xs[j]
  {
    xs := [];
    var rest := s;
    while rest != {}
      invariant forall x :: x in s <==> x in xs || x in rest
      invariant forall i | 0 <= i < |xs| :: xs[i] !in rest
      invariant forall i, j | 0 <= i < j < |xs| :: xs[i] != xs[j]
      decreases rest
    {
      var x :| x in rest;
      xs, rest := xs + [x], rest - {x};
    }
  }
}
