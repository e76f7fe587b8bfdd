/** Finite directed graphs as maps from a node to its successors. A node that is not a key has none. */
module Graphs {
  type Graph<!T> = map<T, set<T>>

  function Successors<T(==)>(g: Graph<T>, x: T): set<T> {
    if x in g then g[x] else {}
  }

  ghost predicate IsWalk<T>(g: Graph<T>, p: seq<T>) {
    |p| > 0 && forall k :: 0 <= k < |p| - 1 ==> p[k + 1] in Successors(g, p[k])
  }

  ghost predicate WalkFrom<T>(g: Graph<T>, a: T, p: seq<T>) {
    IsWalk(g, p) && p[0] == a
  }

  ghost predicate Reach<T(!new)>(g: Graph<T>, a: T, b: T) {
    exists p :: WalkFrom(g, a, p) && p[|p| - 1] == b
  }

  ghost predicate IsCycle<T>(g: Graph<T>, p: seq<T>) {
    IsWalk(g, p) && |p| >= 2 && p[0] == p[|p| - 1]
  }

  ghost predicate Acyclic<T(!new)>(g: Graph<T>) {
    !exists p :: IsCycle(g, p)
  }

  ghost predicate Closed<T(!new)>(g: Graph<T>, s: set<T>) {
    forall x :: x in s ==> Successors(g, x) <= s
  }

  lemma {:induction false} ReachRefl<T(!new)>(g: Graph<T>, a: T)
    ensures Reach(g, a, a)
  {
    assert WalkFrom(g, a, [a]) && [a][|[a]| - 1] == a;
  }

  lemma {:induction false} ReachStep<T(!new)>(g: Graph<T>, a: T, b: T, c: T)
    requires Reach(g, a, b) && c in Successors(g, b)
    ensures Reach(g, a, c)
  {
    var p :| WalkFrom(g, a, p) && p[|p| - 1] == b;
    var q := p + [c];
    assert WalkFrom(g, a, q) && q[|q| - 1] == c;
  }

  lemma {:induction false} ReachPrepend<T(!new)>(g: Graph<T>, a: T, b: T, c: T)
    requires b in Successors(g, a) && Reach(g, b, c)
    ensures Reach(g, a, c)
  {
    var p :| WalkFrom(g, b, p) && p[|p| - 1] == c;
    var q := [a] + p;
    assert forall k :: 0 <= k < |q| - 1 ==> q[k + 1] in Successors(g, q[k]) by {
      forall k | 0 <= k < |q| - 1 ensures q[k + 1] in Successors(g, q[k]) {
        if k > 0 { assert q[k] == p[k - 1] && q[k + 1] == p[k]; }
      }
    }
    assert WalkFrom(g, a, q) && q[|q| - 1] == c;
  }

  /** A closed set cannot be left. */
  lemma {:induction false} WalkStaysInside<T(!new)>(g: Graph<T>, s: set<T>, p: seq<T>, k: nat)
    requires Closed(g, s) && IsWalk(g, p) && p[0] in s && k < |p|
    ensures p[k] in s
  {
    if k > 0 {
      WalkStaysInside(g, s, p, k - 1);
      assert p[k - 1 + 1] in Successors(g, p[k - 1]);
    }
  }

  lemma {:induction false} ReachStaysInside<T(!new)>(g: Graph<T>, s: set<T>, a: T, b: T)
    requires Closed(g, s) && a in s && Reach(g, a, b)
    ensures b in s
  {
    var p :| WalkFrom(g, a, p) && p[|p| - 1] == b;
    WalkStaysInside(g, s, p, |p| - 1);
  }

  /** A sequence longer than the set its elements come from repeats one of them. */
  lemma {:induction false} Pigeonhole<T>(s: set<T>, p: seq<T>) returns (i: nat, j: nat)
    requires |p| > |s| && forall k :: 0 <= k < |p| ==> p[k] in s
    ensures i < j < |p| && p[i] == p[j]
    decreases |p|
  {
    var n := |p| - 1;
    if k :| 0 <= k < n && p[k] == p[n] {
      i, j := k, n;
    } else {
      assert |s - {p[n]}| == |s| - 1;
      i, j := Pigeonhole(s - {p[n]}, p[..n]);
    }
  }

  ghost predicate HasNext<T(!new)>(g: Graph<T>, s: set<T>, x: T) {
    exists y :: y in Successors(g, x) && y in s
  }

  ghost predicate NoSource<T(!new)>(g: Graph<T>, s: set<T>) {
    forall x {:trigger HasNext(g, s, x)} :: x in s ==> HasNext(g, s, x)
  }

  lemma {:induction false} WalkInside<T(!new)>(g: Graph<T>, s: set<T>, n: nat) returns (p: seq<T>)
    requires s != {} && NoSource(g, s)
    ensures IsWalk(g, p) && |p| == n + 1 && forall k :: 0 <= k < |p| ==> p[k] in s
    decreases n
  {
    if n == 0 {
      var x :| x in s;
      p := [x];
    } else {
      var q := WalkInside(g, s, n - 1);
      var last := q[n - 1];
      assert HasNext(g, s, last);
      var y :| y in Successors(g, last) && y in s;
      p := q + [y];
    }
  }

  /** If no node of a non-empty set is free of successors inside the set, the set holds a cycle. */
  lemma {:induction false} NoSourceHasCycle<T(!new)>(g: Graph<T>, s: set<T>)
    requires s != {} && NoSource(g, s)
    ensures !Acyclic(g)
  {
    var p := WalkInside(g, s, |s|);
    var i, j := Pigeonhole(s, p);
    var c := p[i..j + 1];
    forall k | 0 <= k < |c| - 1 ensures c[k + 1] in Successors(g, c[k]) {
      assert c[k] == p[i + k] && c[k + 1] == p[i + k + 1];
    }
    assert IsCycle(g, c);
  }

  ghost predicate DropsAlongEdges<T(!new)>(g: Graph<T>, rank: map<T, int>) {
    forall x, y :: y in Successors(g, x) ==> x in rank && y in rank && rank[y] < rank[x]
  }

  /** Positions that strictly drop along every edge rule cycles out. */
  lemma {:induction false} RankDropsAlongWalk<T(!new)>(g: Graph<T>, rank: map<T, int>, p: seq<T>, k: nat)
    requires DropsAlongEdges(g, rank)
    requires IsWalk(g, p) && 0 < k < |p|
    ensures p[0] in rank && p[k] in rank && rank[p[k]] < rank[p[0]]
  {
    var x, y := p[k - 1], p[k - 1 + 1];
    assert y in Successors(g, x);
    assert rank[y] < rank[x];
    if k > 1 { RankDropsAlongWalk(g, rank, p, k - 1); }
  }

  lemma {:induction false} RankedIsAcyclic<T(!new)>(g: Graph<T>, rank: map<T, int>)
    requires DropsAlongEdges(g, rank)
    ensures Acyclic(g)
  {
    forall p ensures !IsCycle(g, p) {
      if IsCycle(g, p) { RankDropsAlongWalk(g, rank, p, |p| - 1); }
    }
  }
}
