/**
 * List comprehensions the pipeline is written with, over any element type:
 * `[x for x in s if p(x)]`, `sum(1 for x in s if p(x))`, and the list built by a
 * loop that appends at most a few items per element, in index order.
 */
module Sequences {

  /** `[x for x in s if p(x)]`. */
  function Filter<T>(s: seq<T>, p: T -> bool): (r: seq<T>)
    ensures |r| <= |s|
  {
    if s == [] then [] else Filter(s[..|s| - 1], p) + if p(s[|s| - 1]) then [s[|s| - 1]] else []
  }

  /** `sum(1 for x in s if p(x))`. */
  function CountOf<T>(s: seq<T>, p: T -> bool): nat {
    if s == [] then 0 else CountOf(s[..|s| - 1], p) + if p(s[|s| - 1]) then 1 else 0
  }

  /** What a loop over `enumerate(s)` appends when element `i` contributes `f(s[i], i)`. */
  function Gather<T, U>(s: seq<T>, f: (T, nat) -> seq<U>): seq<U> {
    if s == [] then [] else Gather(s[..|s| - 1], f) + f(s[|s| - 1], |s| - 1)
  }

  /** The `k`-th element of `Filter(s, p)` is `s[idx[k]]`, the indices increase, and they
      are exactly the indices of the elements satisfying `p`. */
  ghost predicate FilterIndexes<T>(s: seq<T>, p: T -> bool, idx: seq<nat>) {
    && |idx| == |Filter(s, p)|
    && (forall k :: 0 <= k < |idx| ==> idx[k] < |s| && Filter(s, p)[k] == s[idx[k]])
    && (forall k, l :: 0 <= k < l < |idx| ==> idx[k] < idx[l])
    && (forall j :: 0 <= j < |s| ==> (j in idx <==> p(s[j])))
  }

  /** The filtered list is the elements satisfying `p`, unchanged and in their order. */
  lemma {:induction false} FilterIsOrdered<T>(s: seq<T>, p: T -> bool) returns (idx: seq<nat>)
    ensures FilterIndexes(s, p, idx)
  {
    if s == [] {
      idx := [];
    } else {
      var pidx := FilterIsOrdered(s[..|s| - 1], p);
      if p(s[|s| - 1]) {
        idx := pidx + [|s| - 1];
        FilterStepKept(s, p, pidx);
      } else {
        idx := pidx;
        FilterStepDropped(s, p, pidx);
      }
    }
  }

  lemma FilterStepKept<T>(s: seq<T>, p: T -> bool, pidx: seq<nat>)
    requires s != [] && FilterIndexes(s[..|s| - 1], p, pidx) && p(s[|s| - 1])
    ensures FilterIndexes(s, p, pidx + [|s| - 1])
  {
    var n := |s| - 1;
    var r := s[..n];
    var idx := pidx + [n];
    assert Filter(s, p) == Filter(r, p) + [s[n]];
    forall k | 0 <= k < |pidx|
      ensures idx[k] < |s| && Filter(s, p)[k] == s[idx[k]]
    {
      assert r[pidx[k]] == s[pidx[k]];
    }
    forall j | 0 <= j < n
      ensures j in idx <==> p(s[j])
    {
      assert r[j] == s[j];
    }
  }

  lemma FilterStepDropped<T>(s: seq<T>, p: T -> bool, pidx: seq<nat>)
    requires s != [] && FilterIndexes(s[..|s| - 1], p, pidx) && !p(s[|s| - 1])
    ensures FilterIndexes(s, p, pidx)
  {
    var n := |s| - 1;
    var r := s[..n];
    assert Filter(s, p) == Filter(r, p);
    forall k | 0 <= k < |pidx|
      ensures pidx[k] < |s| && Filter(s, p)[k] == s[pidx[k]]
    {
      assert r[pidx[k]] == s[pidx[k]];
    }
    forall j | 0 <= j < n
      ensures j in pidx <==> p(s[j])
    {
      assert r[j] == s[j];
    }
  }

  lemma {:induction false} FilterMembers<T>(s: seq<T>, p: T -> bool)
    ensures forall x :: x in Filter(s, p) ==> x in s && p(x)
  {
    if s != [] {
      FilterMembers(s[..|s| - 1], p);
    }
  }

  /** Filtering a list whose every element passes changes nothing. */
  lemma {:induction false} FilterAll<T>(s: seq<T>, p: T -> bool)
    requires forall x :: x in s ==> p(x)
    ensures Filter(s, p) == s
  {
    if s != [] {
      var q := s[..|s| - 1];
      assert forall x :: x in q ==> x in s;
      FilterAll(q, p);
    }
  }

  /** Filtering twice is filtering once. */
  lemma FilterIdempotent<T>(s: seq<T>, p: T -> bool)
    ensures Filter(Filter(s, p), p) == Filter(s, p)
  {
    FilterMembers(s, p);
    FilterAll(Filter(s, p), p);
  }

  /** The elements kept and the elements counted by the opposite test make up the list. */
  lemma {:induction false} FilterAndCount<T>(s: seq<T>, p: T -> bool, q: T -> bool)
    requires forall x :: q(x) == !p(x)
    ensures |Filter(s, p)| + CountOf(s, q) == |s|
  {
    if s != [] {
      FilterAndCount(s[..|s| - 1], p, q);
    }
  }

  /** Counting only among the kept elements loses nothing that implies being kept. */
  lemma {:induction false} CountOfFiltered<T>(s: seq<T>, p: T -> bool, q: T -> bool)
    requires forall x :: q(x) ==> p(x)
    ensures CountOf(Filter(s, p), q) == CountOf(s, q)
  {
    if s != [] {
      var r := s[..|s| - 1];
      CountOfFiltered(r, p, q);
      if p(s[|s| - 1]) {
        var t := Filter(r, p) + [s[|s| - 1]];
        assert t[..|t| - 1] == Filter(r, p);
      } else {
        assert !q(s[|s| - 1]) && Filter(s, p) == Filter(r, p);
      }
    }
  }

  /** Item `k` of `Gather(s, f)` is the one of element `idx[k]`, the indices increase, and
      they are exactly the indices of the contributing elements. */
  ghost predicate IndexesOf<T, U>(s: seq<T>, f: (T, nat) -> seq<U>, idx: seq<nat>) {
    && |idx| == |Gather(s, f)|
    && (forall k :: 0 <= k < |idx| ==> idx[k] < |s| && f(s[idx[k]], idx[k]) == [Gather(s, f)[k]])
    && (forall k, l :: 0 <= k < l < |idx| ==> idx[k] < idx[l])
    && (forall j :: 0 <= j < |s| ==> (j in idx <==> f(s[j], j) != []))
  }

  /** When each element contributes at most one item, the gathered items come one per
      contributing element, in index order: item `k` is the one of element `idx[k]`. */
  lemma {:induction false} GatherInIndexOrder<T, U>(s: seq<T>, f: (T, nat) -> seq<U>) returns (idx: seq<nat>)
    requires forall x, i :: |f(x, i)| <= 1
    ensures IndexesOf(s, f, idx)
  {
    if s == [] {
      idx := [];
    } else {
      var pidx := GatherInIndexOrder(s[..|s| - 1], f);
      if f(s[|s| - 1], |s| - 1) != [] {
        idx := pidx + [|s| - 1];
        GatherStepSome(s, f, pidx);
      } else {
        idx := pidx;
        GatherStepNone(s, f, pidx);
      }
    }
  }

  lemma GatherStepSome<T, U>(s: seq<T>, f: (T, nat) -> seq<U>, pidx: seq<nat>)
    requires forall x, i :: |f(x, i)| <= 1
    requires s != [] && IndexesOf(s[..|s| - 1], f, pidx) && f(s[|s| - 1], |s| - 1) != []
    ensures IndexesOf(s, f, pidx + [|s| - 1])
  {
    var n := |s| - 1;
    var r := s[..n];
    var g := Gather(s, f);
    var idx := pidx + [n];
    assert g == Gather(r, f) + f(s[n], n);
    assert f(s[n], n) == [g[|pidx|]];
    forall k | 0 <= k < |pidx|
      ensures idx[k] < |s| && f(s[idx[k]], idx[k]) == [g[k]]
    {
      assert r[pidx[k]] == s[pidx[k]];
    }
    forall j | 0 <= j < n
      ensures j in idx <==> f(s[j], j) != []
    {
      assert r[j] == s[j];
    }
  }

  lemma GatherStepNone<T, U>(s: seq<T>, f: (T, nat) -> seq<U>, pidx: seq<nat>)
    requires s != [] && IndexesOf(s[..|s| - 1], f, pidx) && f(s[|s| - 1], |s| - 1) == []
    ensures IndexesOf(s, f, pidx)
  {
    var n := |s| - 1;
    var r := s[..n];
    assert Gather(s, f) == Gather(r, f) + [];
    forall k | 0 <= k < |pidx|
      ensures pidx[k] < |s| && f(s[pidx[k]], pidx[k]) == [Gather(s, f)[k]]
    {
      assert r[pidx[k]] == s[pidx[k]];
    }
    forall j | 0 <= j < n
      ensures j in pidx <==> f(s[j], j) != []
    {
      assert r[j] == s[j];
    }
  }

  /** The number of gathered items, when each element contributes one item per test it passes. */
  lemma {:induction false} GatherLength<T, U>(s: seq<T>, f: (T, nat) -> seq<U>, p: T -> bool, q: T -> bool)
    requires forall x, i :: |f(x, i)| == (if p(x) then 1 else 0) + (if q(x) then 1 else 0)
    ensures |Gather(s, f)| == CountOf(s, p) + CountOf(s, q)
  {
    if s != [] {
      GatherLength(s[..|s| - 1], f, p, q);
    }
  }

  /** Every gathered item was contributed by some element. */
  lemma {:induction false} GatherFrom<T, U>(s: seq<T>, f: (T, nat) -> seq<U>)
    ensures forall u :: u in Gather(s, f) ==> exists i :: 0 <= i < |s| && u in f(s[i], i)
  {
    if s != [] {
      var r := s[..|s| - 1];
      GatherFrom(r, f);
      forall u | u in Gather(s, f)
        ensures exists i :: 0 <= i < |s| && u in f(s[i], i)
      {
        if u in Gather(r, f) {
          var i :| 0 <= i < |r| && u in f(r[i], i);
          assert r[i] == s[i];
        } else {
          assert u in f(s[|s| - 1], |s| - 1);
        }
      }
    }
  }
}
