/** Small vocabulary shared by every model: optional values, results, filtering and mapping. */
module Prelude {

  datatype Option<+T> = None | Some(value: T)

  datatype Result<+T, +E> = Ok(value: T) | Err(error: E)

  /** The items satisfying `p`, in order: what `lo.Filter` returns. */
  function Filter<T>(xs: seq<T>, p: T -> bool): (ys: seq<T>)
    ensures |ys| <= |xs|
    ensures forall y :: y in ys ==> y in xs && p(y)
    ensures forall x :: x in xs && p(x) ==> x in ys
  {
    if xs == [] then []
    else if p(xs[0]) then [xs[0]] + Filter(xs[1..], p)
    else Filter(xs[1..], p)
  }

  /** `f` applied to each item: what `lo.Map` returns. */
  function Map<T, U>(xs: seq<T>, f: T -> U): (ys: seq<U>)
    ensures |ys| == |xs|
    ensures forall i :: 0 <= i < |xs| ==> ys[i] == f(xs[i])
  {
    seq(|xs|, i requires 0 <= i < |xs| => f(xs[i]))
  }

  /** The ascending positions of the items satisfying `p`. */
  function Positions<T>(xs: seq<T>, p: T -> bool): (ks: seq<nat>)
    ensures forall i :: 0 <= i < |ks| ==> ks[i] < |xs| && p(xs[ks[i]])
    ensures forall i, j :: 0 <= i < j < |ks| ==> ks[i] < ks[j]
  {
    if xs == [] then []
    else
      var n := |xs| - 1;
      var before := Positions(xs[..n], p);
      if p(xs[n]) then before + [n] else before
  }

  lemma Assoc<T>(a: seq<T>, b: seq<T>, c: seq<T>)
    ensures a + b + c == a + (b + c)
  {
  }

  lemma FilterCons<T>(x: T, rest: seq<T>, p: T -> bool)
    ensures Filter([x] + rest, p) == (if p(x) then [x] else []) + Filter(rest, p)
  {
    var all := [x] + rest;
    assert all[0] == x && all[1..] == rest;
    assert [] + Filter(rest, p) == Filter(rest, p);
  }

  lemma {:induction false} FilterAppend<T>(xs: seq<T>, ys: seq<T>, p: T -> bool)
    ensures Filter(xs + ys, p) == Filter(xs, p) + Filter(ys, p)
  {
    if xs == [] {
      assert xs + ys == ys;
      assert Filter(xs, p) + Filter(ys, p) == Filter(ys, p);
    } else {
      var x, rest := xs[0], xs[1..];
      assert xs == [x] + rest;
      FilterAppend(rest, ys, p);
      Assoc([x], rest, ys);
      FilterCons(x, rest + ys, p);
      FilterCons(x, rest, p);
      Assoc(if p(x) then [x] else [], Filter(rest, p), Filter(ys, p));
    }
  }

  lemma FilterSnoc<T>(xs: seq<T>, x: T, p: T -> bool)
    ensures Filter(xs + [x], p) == if p(x) then Filter(xs, p) + [x] else Filter(xs, p)
  {
    FilterAppend(xs, [x], p);
    FilterCons(x, [], p);
    assert [x] + [] == [x];
  }

  /** `ys` are the items of `xs` at the positions `ks`. */
  ghost predicate Picked<T>(xs: seq<T>, ks: seq<nat>, ys: seq<T>) {
    |ys| == |ks| && forall i :: 0 <= i < |ks| ==> ks[i] < |xs| && ys[i] == xs[ks[i]]
  }

  lemma PickedStay<T>(xs: seq<T>, x: T, ks: seq<nat>, ys: seq<T>)
    requires Picked(xs, ks, ys)
    ensures Picked(xs + [x], ks, ys) && Picked(xs + [x], ks + [|xs|], ys + [x])
  {
  }

  lemma {:induction false} FilterPicks<T>(xs: seq<T>, p: T -> bool)
    ensures Picked(xs, Positions(xs, p), Filter(xs, p))
  {
    if xs != [] {
      var n := |xs| - 1;
      FilterPicks(xs[..n], p);
      assert xs == xs[..n] + [xs[n]];
      FilterSnoc(xs[..n], xs[n], p);
      PickedStay(xs[..n], xs[n], Positions(xs[..n], p), Filter(xs[..n], p));
    }
  }

  lemma {:induction false} PositionsComplete<T>(xs: seq<T>, p: T -> bool, k: nat)
    requires k < |xs| && p(xs[k])
    ensures k in Positions(xs, p)
  {
    var n := |xs| - 1;
    if k < n {
      PositionsComplete(xs[..n], p, k);
    }
  }

  /** Filtering keeps every qualifying position exactly once and in order. */
  lemma FilterByPosition<T>(xs: seq<T>, p: T -> bool)
    ensures forall k :: 0 <= k < |xs| && p(xs[k]) ==> k in Positions(xs, p)
    ensures |Filter(xs, p)| == |Positions(xs, p)|
    ensures forall i :: 0 <= i < |Filter(xs, p)| ==> Filter(xs, p)[i] == xs[Positions(xs, p)[i]]
  {
    FilterPicks(xs, p);
    forall k | 0 <= k < |xs| && p(xs[k]) ensures k in Positions(xs, p) {
      PositionsComplete(xs, p, k);
    }
  }

  lemma {:induction false} FilterAll<T>(xs: seq<T>, p: T -> bool)
    requires forall x :: x in xs ==> p(x)
    ensures Filter(xs, p) == xs
  {
    if xs != [] {
      FilterAll(xs[1..], p);
    }
  }

  lemma FilterNone<T>(xs: seq<T>, p: T -> bool)
    requires forall x :: x in xs ==> !p(x)
    ensures Filter(xs, p) == []
  {
    if Filter(xs, p) != [] {
      assert Filter(xs, p)[0] in Filter(xs, p);
    }
  }

  /** Two predicates that agree on the items filter alike. */
  lemma {:induction false} FilterCongruent<T>(xs: seq<T>, p: T -> bool, q: T -> bool)
    requires forall x :: x in xs ==> p(x) == q(x)
    ensures Filter(xs, p) == Filter(xs, q)
  {
    if xs != [] {
      FilterCongruent(xs[1..], p, q);
    }
  }
}
