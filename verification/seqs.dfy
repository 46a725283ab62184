/**
 The two JavaScript array operations the club filter relies on:
 `Array.prototype.filter`, modelled as `Keep`, and `Array.prototype.slice(0, n)`,
 modelled as `Take`, together with the facts about them that the filter engine
 needs: order preservation (as an explicit embedding of positions), fusion and
 commutation of successive filters, and the prefix shape of a slice.
 */
module Seqs {

  function Min(a: int, b: int): (r: int)
    ensures r <= a && r <= b
    ensures r == a || r == b
  {
    if a <= b then a else b
  }

  /** `s.filter(p)`: the elements of `s` satisfying `p`, in their original order. */
  function Keep<T(==,!new)>(s: seq<T>, p: T -> bool): (r: seq<T>)
    ensures |r| <= |s|
    ensures forall x :: x in r <==> x in s && p(x)
    ensures forall k :: 0 <= k < |r| ==> p(r[k])
  {
    if s == [] then []
    else if p(s[0]) then [s[0]] + Keep(s[1..], p)
    else Keep(s[1..], p)
  }

  /** `s.slice(0, n)` for a non-negative `n`: the first `n` elements, or all of `s` when it is shorter. */
  function Take<T(==,!new)>(s: seq<T>, n: nat): (r: seq<T>)
    ensures |r| == Min(n, |s|)
    ensures r <= s
  {
    if n <= |s| then s[..n] else s
  }

  /**
   `idx` lists, in strictly increasing order, positions of `b` whose elements,
   read in that order, spell out `a`.
   */
  ghost predicate IsEmbedding<T>(idx: seq<nat>, a: seq<T>, b: seq<T>) {
    && |idx| == |a|
    && (forall k :: 0 <= k < |idx| ==> idx[k] < |b| && a[k] == b[idx[k]])
    && (forall k, l :: 0 <= k < l < |idx| ==> idx[k] < idx[l])
  }

  /** `a` is obtained from `b` by deleting elements, without reordering. */
  ghost predicate IsSubsequence<T>(a: seq<T>, b: seq<T>) {
    exists idx :: IsEmbedding(idx, a, b)
  }

  function Shift(idx: seq<nat>): (r: seq<nat>)
    ensures |r| == |idx|
    ensures forall k :: 0 <= k < |idx| ==> r[k] == idx[k] + 1
  {
    seq(|idx|, k requires 0 <= k < |idx| => idx[k] + 1)
  }

  /** Shifting an embedding into the tail of `s` gives an embedding into `s`. */
  lemma ShiftEmbedding<T>(rest: seq<nat>, a: seq<T>, s: seq<T>)
    requires |s| > 0
    requires IsEmbedding(rest, a, s[1..])
    ensures IsEmbedding(Shift(rest), a, s)
    ensures IsEmbedding([0] + Shift(rest), [s[0]] + a, s)
  {
    var sh := Shift(rest);
    forall k | 0 <= k < |sh|
      ensures sh[k] < |s| && a[k] == s[sh[k]]
    {
      assert s[1..][rest[k]] == s[rest[k] + 1];
    }
    var idx := [0] + sh;
    forall k | 0 <= k < |idx|
      ensures idx[k] < |s| && ([s[0]] + a)[k] == s[idx[k]]
    {
      if k > 0 {
        assert idx[k] == sh[k - 1];
      }
    }
  }

  /** Positions in the shifted list are the positions in the tail, plus one. */
  lemma ShiftMembership(rest: seq<nat>, j: int)
    requires 1 <= j
    ensures j in Shift(rest) <==> (j - 1) in rest
    ensures 0 !in Shift(rest)
  {
    if (j - 1) in rest {
      var k :| 0 <= k < |rest| && rest[k] == j - 1;
      assert Shift(rest)[k] == j;
    }
  }

  /** Membership of one position in the extended position list. */
  lemma KeptMember<T(!new)>(s: seq<T>, p: T -> bool, rest: seq<nat>, idx: seq<nat>, j: int)
    requires |s| > 0
    requires forall j :: 0 <= j < |s[1..]| ==> (j in rest <==> p(s[1..][j]))
    requires idx == (if p(s[0]) then [0] else []) + Shift(rest)
    requires 0 <= j < |s|
    ensures j in idx <==> p(s[j])
  {
    ShiftMembership(rest, j + 1);
    if j >= 1 {
      ShiftMembership(rest, j);
      assert s[1..][j - 1] == s[j];
    }
  }

  /** One step of `KeptPositions`: extend the tail's positions by the head's. */
  lemma KeptPositionsStep<T(!new)>(s: seq<T>, p: T -> bool, rest: seq<nat>, idx: seq<nat>)
    requires |s| > 0
    requires IsEmbedding(rest, Keep(s[1..], p), s[1..])
    requires forall j :: 0 <= j < |s[1..]| ==> (j in rest <==> p(s[1..][j]))
    requires idx == (if p(s[0]) then [0] else []) + Shift(rest)
    ensures IsEmbedding(idx, Keep(s, p), s)
    ensures forall j :: 0 <= j < |s| ==> (j in idx <==> p(s[j]))
  {
    ShiftEmbedding(rest, Keep(s[1..], p), s);
    if p(s[0]) {
      assert idx == [0] + Shift(rest);
      assert Keep(s, p) == [s[0]] + Keep(s[1..], p);
    } else {
      assert idx == Shift(rest);
      assert Keep(s, p) == Keep(s[1..], p);
    }
    forall j | 0 <= j < |s|
      ensures j in idx <==> p(s[j])
    {
      KeptMember(s, p, rest, idx, j);
    }
  }

  /**
   The positions of `s` that `Keep(s, p)` retains: an embedding of the kept
   elements into `s`, containing exactly the positions whose element satisfies `p`.
   */
  function KeptPositions<T(==,!new)>(s: seq<T>, p: T -> bool): (idx: seq<nat>)
    ensures IsEmbedding(idx, Keep(s, p), s)
    ensures forall j :: 0 <= j < |s| ==> (j in idx <==> p(s[j]))
  {
    if s == [] then []
    else
      var rest := KeptPositions(s[1..], p);
      var idx := (if p(s[0]) then [0] else []) + Shift(rest);
      KeptPositionsStep(s, p, rest, idx);
      idx
  }

  /** Filtering never reorders: the result of `Keep` is a subsequence of its input. */
  lemma KeepIsSubsequence<T(!new)>(s: seq<T>, p: T -> bool)
    ensures IsSubsequence(Keep(s, p), s)
  {
    var idx := KeptPositions(s, p);
    assert IsEmbedding(idx, Keep(s, p), s);
  }

  /** A filter that every element passes returns its input unchanged. */
  lemma {:induction false} KeepAll<T(!new)>(s: seq<T>, p: T -> bool)
    requires forall k :: 0 <= k < |s| ==> p(s[k])
    ensures Keep(s, p) == s
  {
    if s != [] {
      assert p(s[0]);
      KeepAll(s[1..], p);
      assert [s[0]] + s[1..] == s;
    }
  }

  /** A filter that no element passes returns the empty sequence. */
  lemma {:induction false} KeepNone<T(!new)>(s: seq<T>, p: T -> bool)
    requires forall k :: 0 <= k < |s| ==> !p(s[k])
    ensures Keep(s, p) == []
  {
    if s != [] {
      assert !p(s[0]);
      KeepNone(s[1..], p);
    }
  }

  /** Two successive filters are one filter by the conjunction of their predicates. */
  lemma {:induction false} KeepFuse<T(!new)>(s: seq<T>, p: T -> bool, q: T -> bool, pq: T -> bool)
    requires forall x :: pq(x) == (p(x) && q(x))
    ensures Keep(Keep(s, p), q) == Keep(s, pq)
  {
    if s != [] {
      KeepFuse(s[1..], p, q, pq);
      if p(s[0]) {
        assert ([s[0]] + Keep(s[1..], p))[1..] == Keep(s[1..], p);
      }
    }
  }

  /** Successive filters commute. */
  lemma {:induction false} KeepCommutes<T(!new)>(s: seq<T>, p: T -> bool, q: T -> bool)
    ensures Keep(Keep(s, p), q) == Keep(Keep(s, q), p)
  {
    var pq := x => p(x) && q(x);
    KeepFuse(s, p, q, pq);
    KeepFuse(s, q, p, pq);
  }

  /** Taking a longer prefix only extends a shorter one. */
  lemma TakeMonotone<T(!new)>(s: seq<T>, m: nat, n: nat)
    requires m <= n
    ensures Take(s, m) <= Take(s, n)
  {
  }
}
