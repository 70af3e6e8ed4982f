/** Order-preserving selection, the model of `Array.prototype.filter`. */
module Seqs {

  /** `a` can be obtained from `b` by deleting elements, keeping order. */
  predicate IsSubsequence<T(==)>(a: seq<T>, b: seq<T>)
    decreases |b|
  {
    |a| == 0 || (|b| > 0 && if a[0] == b[0] then IsSubsequence(a[1..], b[1..]) else IsSubsequence(a, b[1..]))
  }

  /** `s.filter(keep)`. */
  function Filter<T(==,!new)>(s: seq<T>, keep: T -> bool): (r: seq<T>)
    ensures |r| <= |s|
    ensures forall i :: 0 <= i < |r| ==> r[i] in s && keep(r[i])
    ensures forall i :: 0 <= i < |s| && keep(s[i]) ==> s[i] in r
    ensures IsSubsequence(r, s)
    ensures forall x :: multiset(r)[x] == if keep(x) then multiset(s)[x] else 0
    decreases |s|
  {
    if |s| == 0 then []
    else
      assert s == [s[0]] + s[1..];
      if keep(s[0]) then [s[0]] + Filter(s[1..], keep)
      else Filter(s[1..], keep)
  }

  /** Filtering twice with the same test changes nothing the second time. */
  lemma {:induction false} FilterIdempotent<T(!new)>(s: seq<T>, keep: T -> bool)
    ensures Filter(Filter(s, keep), keep) == Filter(s, keep)
    decreases |s|
  {
    if |s| > 0 {
      FilterIdempotent(s[1..], keep);
      if keep(s[0]) {
        assert ([s[0]] + Filter(s[1..], keep))[1..] == Filter(s[1..], keep);
      }
    }
  }

  /** A filter that keeps every element returns its input. */
  lemma {:induction false} FilterKeepsAll<T(!new)>(s: seq<T>, keep: T -> bool)
    requires forall i :: 0 <= i < |s| ==> keep(s[i])
    ensures Filter(s, keep) == s
    decreases |s|
  {
    if |s| > 0 {
      FilterKeepsAll(s[1..], keep);
    }
  }

  /** The positions of `s`, from `from` on, whose element passes `keep`,
      ascending: each is in range and kept (and, by `PositionsComplete`,
      every kept position is listed). */
  function Positions<T>(s: seq<T>, keep: T -> bool, from: nat): (p: seq<nat>)
    requires from <= |s|
    ensures |p| <= |s| - from
    ensures forall k :: 0 <= k < |p| ==> from <= p[k] < |s| && keep(s[p[k]])
    ensures forall k, l :: 0 <= k < l < |p| ==> p[k] < p[l]
    decreases |s| - from
  {
    if from == |s| then []
    else if keep(s[from]) then [from] + Positions(s, keep, from + 1)
    else Positions(s, keep, from + 1)
  }

  /** Every kept position from `from` on is listed. */
  lemma {:induction false} PositionsComplete<T>(s: seq<T>, keep: T -> bool, from: nat, i: nat)
    requires from <= i < |s| && keep(s[i])
    ensures i in Positions(s, keep, from)
    decreases i - from
  {
    if from < i {
      PositionsComplete(s, keep, from + 1, i);
    }
  }

  /** When every element from `from` on is kept, the positions are all of
      them, in order. */
  lemma PositionsOfAll<T>(s: seq<T>, keep: T -> bool, from: nat)
    requires from <= |s|
    requires forall i :: from <= i < |s| ==> keep(s[i])
    ensures |Positions(s, keep, from)| == |s| - from
    ensures forall k :: 0 <= k < |s| - from ==> Positions(s, keep, from)[k] == from + k
  {
    AllKeptCount(s, keep, from);
    AllKeptInOrder(s, keep, from);
  }

  /** ... every position is listed ... */
  lemma {:induction false} AllKeptCount<T>(s: seq<T>, keep: T -> bool, from: nat)
    requires from <= |s|
    requires forall i :: from <= i < |s| ==> keep(s[i])
    ensures |Positions(s, keep, from)| == |s| - from
    decreases |s| - from
  {
    if from < |s| {
      AllKeptCount(s, keep, from + 1);
    }
  }

  /** ... and the k-th listed position is `from + k`. */
  lemma {:induction false} AllKeptInOrder<T>(s: seq<T>, keep: T -> bool, from: nat)
    requires from <= |s|
    requires forall i :: from <= i < |s| ==> keep(s[i])
    ensures forall k :: 0 <= k < |Positions(s, keep, from)| ==> Positions(s, keep, from)[k] == from + k
    decreases |s| - from
  {
    if from < |s| {
      AllKeptInOrder(s, keep, from + 1);
      var p := Positions(s, keep, from);
      var rest := Positions(s, keep, from + 1);
      assert p == [from] + rest;
      forall k | 0 < k < |p| ensures p[k] == from + k {
        assert p[k] == rest[k - 1];
      }
    }
  }

  /** No position is listed exactly when no element from `from` on is kept. */
  lemma {:induction false} PositionsNone<T>(s: seq<T>, keep: T -> bool, from: nat)
    requires from <= |s|
    ensures |Positions(s, keep, from)| == 0 <==> forall i :: from <= i < |s| ==> !keep(s[i])
    decreases |s| - from
  {
    if from < |s| {
      PositionsNone(s, keep, from + 1);
    }
  }
}
