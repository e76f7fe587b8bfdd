/** Depth-first closures over the parent and child links of the arena. */
module MempoolGraph {
  import opened Graphs
  import opened MempoolArena

  function ParentGraph(entries: Entries): Graph<Id> {
    map id | id in entries :: entries[id].parents
  }

  function ChildGraph(entries: Entries): Graph<Id> {
    map id | id in entries :: entries[id].children
  }

  ghost predicate ReachedFrom(g: Graph<Id>, roots: set<Id>, x: Id) {
    exists r :: r in roots && Reach(g, r, x)
  }

  function Targets(g: Graph<Id>): set<Id> {
    set x, y | x in g && y in g[x] :: y
  }

  /** Everything reachable from the roots, roots included. */
  ghost function Closure(g: Graph<Id>, roots: set<Id>): set<Id> {
    set x | x in roots + Targets(g) && ReachedFrom(g, roots, x)
  }

  lemma {:induction false} ReachedIsTarget(g: Graph<Id>, a: Id, x: Id)
    requires Reach(g, a, x)
    ensures x == a || x in Targets(g)
  {
    var p :| WalkFrom(g, a, p) && p[|p| - 1] == x;
    if |p| > 1 {
      assert p[|p| - 2 + 1] in Successors(g, p[|p| - 2]);
    }
  }

  lemma {:induction false} ClosureHas(g: Graph<Id>, roots: set<Id>, x: Id)
    ensures x in Closure(g, roots) <==> ReachedFrom(g, roots, x)
  {
    if ReachedFrom(g, roots, x) {
      var r :| r in roots && Reach(g, r, x);
      ReachedIsTarget(g, r, x);
    }
  }

  lemma {:induction false} ClosureIsClosed(g: Graph<Id>, roots: set<Id>)
    ensures roots <= Closure(g, roots) && Closed(g, Closure(g, roots))
  {
    forall x | x in roots ensures x in Closure(g, roots) {
      ReachRefl(g, x);
    }
    forall x, y | x in Closure(g, roots) && y in Successors(g, x) ensures y in Closure(g, roots) {
      var r :| r in roots && Reach(g, r, x);
      ReachStep(g, r, x, y);
      ClosureHas(g, roots, y);
    }
  }

  /** It is the least closed set around the roots. */
  lemma {:induction false} ClosureIsLeast(g: Graph<Id>, roots: set<Id>, s: set<Id>)
    requires roots <= s && Closed(g, s)
    ensures Closure(g, roots) <= s
  {
    forall x | x in Closure(g, roots) ensures x in s {
      var r :| r in roots && Reach(g, r, x);
      ReachStaysInside(g, s, r, x);
    }
  }

  lemma {:induction false} ClosureOfUnion(g: Graph<Id>, a: set<Id>, b: set<Id>)
    ensures Closure(g, a + b) == Closure(g, a) + Closure(g, b)
  {
    forall x ensures x in Closure(g, a + b) <==> x in Closure(g, a) + Closure(g, b) {
      ClosureHas(g, a + b, x);
      ClosureHas(g, a, x);
      ClosureHas(g, b, x);
    }
  }

  /** A closed set is its own closure. */
  lemma {:induction false} ClosureOfClosed(g: Graph<Id>, s: set<Id>)
    requires Closed(g, s)
    ensures Closure(g, s) == s
  {
    ClosureIsClosed(g, s);
    ClosureIsLeast(g, s, s);
  }

  lemma {:induction false} ClosureStaysLocal(g: Graph<Id>, g': Graph<Id>, s: set<Id>, roots: set<Id>)
    requires Closed(g, s) && roots <= s && forall x :: x in s ==> Successors(g, x) == Successors(g', x)
    ensures Closure(g', roots) <= Closure(g, roots)
  {
    hide Closure;
    ClosureIsClosed(g, roots);
    ClosureIsLeast(g, roots, s);
    ClosureIsLeast(g', roots, Closure(g, roots));
  }

  /** Closures inside a closed region do not see what lies outside it. */
  lemma {:induction false} ClosureIsLocal(g: Graph<Id>, g': Graph<Id>, s: set<Id>, roots: set<Id>)
    requires Closed(g, s) && roots <= s && forall x :: x in s ==> Successors(g, x) == Successors(g', x)
    ensures Closure(g, roots) == Closure(g', roots)
  {
    hide Closure;
    ClosureStaysLocal(g, g', s, roots);
    ClosureStaysLocal(g', g, s, roots);
  }

  lemma {:induction false} ClosureStep(g: Graph<Id>, x: Id)
    ensures Closure(g, {x}) == {x} + Closure(g, Successors(g, x))
  {
    hide Closure;
    var next := Successors(g, x);
    ClosureIsClosed(g, next);
    ClosureIsClosed(g, {x});
    assert Closed(g, {x} + Closure(g, next));
    ClosureIsLeast(g, {x}, {x} + Closure(g, next));
    ClosureIsLeast(g, next, Closure(g, {x}));
  }

  /** What one walk from `id` adds: everything new is reachable from `id`, and its links lead nowhere unvisited. */
  ghost predicate Explored(g: Graph<Id>, id: Id, before: set<Id>, after: set<Id>) {
    && before <= after
    && forall x :: x in after && x !in before ==> Reach(g, id, x) && Successors(g, x) <= after
  }

  /** The recursive walk with a visited set that all calls share. Ids without an entry have no links. */
  method Visit(g: Graph<Id>, id: Id, visited: set<Id>) returns (r: set<Id>)
    ensures Explored(g, id, visited, r) && id in r
    decreases g.Keys - visited
  {
    if id in visited { return visited; }
    r := visited + {id};
    ReachRefl(g, id);
    if id in g {
      var todo := g[id];
      while todo != {}
        invariant todo <= g[id] && visited + {id} <= r && g[id] - todo <= r
        invariant forall x :: x in r && x !in visited && x != id ==> Reach(g, id, x) && Successors(g, x) <= r
        decreases todo
      {
        var next :| next in todo;
        assert g.Keys - r < g.Keys - visited by { assert id in g.Keys - visited && id !in g.Keys - r; }
        var r' := Visit(g, next, r);
        forall x | x in r' && x !in r ensures Reach(g, id, x) { ReachPrepend(g, id, next, x); }
        r, todo := r', todo - {next};
      }
    }
  }

  /** From a closed visited set, a walk adds exactly the closure of its start. */
  lemma {:induction false} ExploredIsClosure(g: Graph<Id>, id: Id, before: set<Id>, after: set<Id>)
    requires Explored(g, id, before, after) && id in after && Closed(g, before)
    ensures after == before + Closure(g, {id}) && Closed(g, after)
  {
    ClosureIsLeast(g, {id}, after);
    forall x | x in after && x !in before ensures x in Closure(g, {id}) {
      ClosureHas(g, {id}, x);
    }
  }

  method CalculateDescendants(entries: Entries, id: Id, descendants: set<Id>) returns (r: set<Id>)
    ensures Closed(ChildGraph(entries), descendants) ==>
              r == descendants + Closure(ChildGraph(entries), {id}) && Closed(ChildGraph(entries), r)
  {
    var g := ChildGraph(entries);
    r := Visit(g, id, descendants);
    if Closed(g, descendants) { ExploredIsClosure(g, id, descendants, r); }
  }

  method CalculateAncestors(entries: Entries, id: Id, ancestors: set<Id>) returns (r: set<Id>)
    ensures Closed(ParentGraph(entries), ancestors) ==>
              r == ancestors + Closure(ParentGraph(entries), {id}) && Closed(ParentGraph(entries), r)
  {
    var g := ParentGraph(entries);
    r := Visit(g, id, ancestors);
    if Closed(g, ancestors) { ExploredIsClosure(g, id, ancestors, r); }
  }

  /** Repeated walks over one visited set accumulate the union of the closures. */
  method ExpandToDescendants(entries: Entries, ids: set<Id>) returns (expanded: set<Id>)
    ensures expanded == Closure(ChildGraph(entries), ids) && Closed(ChildGraph(entries), expanded)
  {
    hide Closure, ChildGraph;
    expanded := {};
    var todo := ids;
    ghost var done: set<Id> := {};
    ClosureOfClosed(ChildGraph(entries), {});
    while todo != {}
      invariant done + todo == ids && expanded == Closure(ChildGraph(entries), done)
      invariant Closed(ChildGraph(entries), expanded)
      decreases todo
    {
      var id :| id in todo;
      expanded := CalculateDescendants(entries, id, expanded);
      ClosureOfUnion(ChildGraph(entries), done, {id});
      done, todo := done + {id}, todo - {id};
    }
    assert done == ids;
  }

  ghost predicate ChildOf(entries: Entries, ids: set<Id>, c: Id) {
    exists id :: id in ids && c in Successors(ChildGraph(entries), id)
  }

  /** The children of entries to remove that would survive them. There are none exactly when the set to remove is
      closed under descent, and then no survivor's ancestor totals need patching. */
  method CollectSurvivingChildren(entries: Entries, toRemove: set<Id>) returns (survivors: set<Id>)
    ensures survivors == {} <==> Closed(ChildGraph(entries), toRemove)
    ensures survivors !! toRemove
    ensures forall id :: id in toRemove ==> Successors(ChildGraph(entries), id) <= survivors + toRemove
    ensures forall c :: c in survivors ==> ChildOf(entries, toRemove, c)
  {
    survivors := {};
    var todo := toRemove;
    ghost var done: set<Id> := {};
    while todo != {}
      invariant done + todo == toRemove && survivors !! toRemove
      invariant forall id :: id in done ==> Successors(ChildGraph(entries), id) <= survivors + toRemove
      invariant survivors != {} ==> !Closed(ChildGraph(entries), toRemove)
      invariant forall c :: c in survivors ==> ChildOf(entries, toRemove, c)
      decreases todo
    {
      var id :| id in todo;
      if id in entries {
        assert entries[id].children == Successors(ChildGraph(entries), id);
        survivors := survivors + (entries[id].children - toRemove);
      }
      done, todo := done + {id}, todo - {id};
    }
  }
}
