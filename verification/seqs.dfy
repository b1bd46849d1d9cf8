/** Sequence combinators shared by the parsers: most of them walk a list of
    decoded records and keep the ones that produce an event. */
module Seqs {
  import opened Wrappers

  /** Apply `f` to every element in order and keep the `Some` results. */
  function FilterMap<T, U>(xs: seq<T>, f: T -> Option<U>): (r: seq<U>)
    ensures |r| <= |xs|
    ensures forall i :: 0 <= i < |r| ==> exists j :: 0 <= j < |xs| && f(xs[j]) == Some(r[i])
    ensures (forall j :: 0 <= j < |xs| ==> f(xs[j]).Some?) ==> |r| == |xs|
    ensures (forall j :: 0 <= j < |xs| ==> f(xs[j]).None?) ==> r == []
  {
    if |xs| == 0 then []
    else
      var rest := FilterMap(xs[1..], f);
      assert forall i :: 0 <= i < |rest| ==> exists j :: 1 <= j < |xs| && f(xs[j]) == Some(rest[i]) by {
        forall i | 0 <= i < |rest|
          ensures exists j :: 1 <= j < |xs| && f(xs[j]) == Some(rest[i])
        {
          var j :| 0 <= j < |xs[1..]| && f(xs[1..][j]) == Some(rest[i]);
          assert f(xs[j + 1]) == Some(rest[i]);
        }
      }
      match f(xs[0])
      case Some(y) => [y] + rest
      case None => rest
  }

  lemma {:induction false} FilterMapSnoc<T, U>(xs: seq<T>, x: T, f: T -> Option<U>)
    ensures FilterMap(xs + [x], f) == FilterMap(xs, f) + (if f(x).Some? then [f(x).value] else [])
  {
    if |xs| > 0 {
      assert (xs + [x])[1..] == xs[1..] + [x];
      FilterMapSnoc(xs[1..], x, f);
    }
  }

  /** Filtering distributes over concatenation. */
  lemma {:induction false} FilterMapAppend<T, U>(xs: seq<T>, ys: seq<T>, f: T -> Option<U>)
    ensures FilterMap(xs + ys, f) == FilterMap(xs, f) + FilterMap(ys, f)
  {
    if |xs| > 0 {
      assert (xs + ys)[1..] == xs[1..] + ys;
      assert (xs + ys)[0] == xs[0];
      FilterMapAppend(xs[1..], ys, f);
    } else {
      assert xs + ys == ys;
    }
  }

  /** The elements `f` keeps, in order. */
  function Kept<T, U>(xs: seq<T>, f: T -> Option<U>): (r: seq<T>)
    ensures |r| <= |xs|
  {
    if |xs| == 0 then [] else (if f(xs[0]).Some? then [xs[0]] else []) + Kept(xs[1..], f)
  }

  /** The results are what `f` gives for the kept elements, one for one. */
  lemma {:induction false} FilterMapKept<T, U>(xs: seq<T>, f: T -> Option<U>)
    ensures |FilterMap(xs, f)| == |Kept(xs, f)|
    ensures forall i :: 0 <= i < |Kept(xs, f)| ==> f(Kept(xs, f)[i]) == Some(FilterMap(xs, f)[i])
  {
    if |xs| > 0 {
      FilterMapKept(xs[1..], f);
      var ks, rs := Kept(xs[1..], f), FilterMap(xs[1..], f);
      if f(xs[0]).Some? {
        assert Kept(xs, f) == [xs[0]] + ks && FilterMap(xs, f) == [f(xs[0]).value] + rs;
        forall i | 0 < i <= |ks|
          ensures f(([xs[0]] + ks)[i]) == Some(([f(xs[0]).value] + rs)[i])
        {
          assert ([xs[0]] + ks)[i] == ks[i - 1] && ([f(xs[0]).value] + rs)[i] == rs[i - 1];
        }
      } else {
        assert Kept(xs, f) == ks && FilterMap(xs, f) == rs;
      }
    }
  }

  /** Every element that `f` keeps is in the result. */
  lemma {:induction false} FilterMapKeeps<T, U>(xs: seq<T>, f: T -> Option<U>, j: nat)
    requires j < |xs| && f(xs[j]).Some?
    ensures f(xs[j]).value in FilterMap(xs, f)
  {
    if j > 0 {
      FilterMapKeeps(xs[1..], f, j - 1);
    }
  }

  /** The one-element sequence of a present value, or nothing. */
  function Listed<T>(o: Option<T>): (r: seq<T>)
    ensures |r| <= 1
    ensures o.Some? ==> r == [o.value]
    ensures o.None? ==> r == []
  {
    if o.Some? then [o.value] else []
  }

  /** A reader that walks `xs` in order carrying a state: `step` gives the
      next state and an optional output for each element. */
  function Transduce<S, X, T>(s: S, xs: seq<X>, step: (S, X) -> (S, Option<T>)): seq<T>
    decreases |xs|
  {
    if |xs| == 0 then [] else Listed(step(s, xs[0]).1) + Transduce(step(s, xs[0]).0, xs[1..], step)
  }

  /** The state such a reader is in after `xs`. */
  function StateAfter<S, X, T>(s: S, xs: seq<X>, step: (S, X) -> (S, Option<T>)): S
    decreases |xs|
  {
    if |xs| == 0 then s else StateAfter(step(s, xs[0]).0, xs[1..], step)
  }

  lemma {:induction false} StateAfterSnoc<S, X, T>(s: S, xs: seq<X>, x: X, step: (S, X) -> (S, Option<T>))
    ensures StateAfter(s, xs + [x], step) == step(StateAfter(s, xs, step), x).0
    decreases |xs|
  {
    if |xs| > 0 {
      assert (xs + [x])[1..] == xs[1..] + [x];
      StateAfterSnoc(step(s, xs[0]).0, xs[1..], x, step);
    } else {
      assert [x][1..] == [];
    }
  }

  /** One more element adds the output it gives in the state the earlier
      elements left. */
  lemma {:induction false} TransduceSnoc<S, X, T>(s: S, xs: seq<X>, x: X, step: (S, X) -> (S, Option<T>))
    ensures Transduce(s, xs + [x], step) == Transduce(s, xs, step) + Listed(step(StateAfter(s, xs, step), x).1)
    decreases |xs|
  {
    if |xs| > 0 {
      assert (xs + [x])[1..] == xs[1..] + [x];
      assert (xs + [x])[0] == xs[0];
      TransduceSnoc(step(s, xs[0]).0, xs[1..], x, step);
    } else {
      assert [x][1..] == [];
    }
  }

  /** The three parts of a three-part concatenation, sliced back out. */
  lemma ConcatSlices<T>(a: seq<T>, b: seq<T>, c: seq<T>)
    ensures (a + b + c)[..|a|] == a
    ensures (a + b + c)[|a|..|a| + |b|] == b
    ensures (a + b + c)[|a| + |b|..] == c
  {
    assert (a + b + c)[|a|..|a| + |b|] == b;
    assert (a + b + c)[|a| + |b|..] == c;
  }
}
