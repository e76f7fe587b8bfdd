/** What parent and child links mean, and what every accept and every removal keeps of it. */
module MempoolLinks {
  import opened Bitcoin
  import opened Graphs
  import opened MempoolArena
  import opened MempoolGraph

  /** The entry and everything it depends on in the pool. */
  ghost function Ancestors(entries: Entries, i: Id): set<Id> {
    Closure(ParentGraph(entries), {i})
  }

  /** Parents are live and were accepted earlier. */
  ghost predicate ParentsLive(entries: Entries) {
    forall i, p :: i in entries && p in entries[i].parents ==> p in entries && p < i
  }

  /** The live entries whose outputs are spent. */
  ghost function ParentIds(entries: Entries, ops: seq<OutPoint>): set<Id> {
    set i | i in entries && SpendsFrom(ops, entries[i].tx.txid)
  }

  /** Among the entries accepted earlier and still live, the parents of an entry are exactly those it spends from. */
  ghost predicate ParentsExact(entries: Entries) {
    forall i, p :: i in entries && p in entries && p < i ==>
      (p in entries[i].parents <==> SpendsFrom(entries[i].tx.inputs, entries[p].tx.txid))
  }

  /** Among live entries, the children of an entry are all its strict descendants. Dead ids may linger. */
  ghost predicate ChildrenExact(entries: Entries) {
    forall i, j :: i in entries && j in entries ==> (j in entries[i].children <==> i != j && i in Ancestors(entries, j))
  }

  ghost predicate IdsKnown(entries: Entries, nextId: Id) {
    forall i :: i in entries ==> i < nextId && forall c :: c in entries[i].children ==> c < nextId
  }

  ghost predicate Linked(entries: Entries, nextId: Id) {
    ParentsLive(entries) && ParentsExact(entries) && ChildrenExact(entries) && IdsKnown(entries, nextId)
  }

  lemma {:induction false} LiveIsClosed(entries: Entries)
    requires ParentsLive(entries)
    ensures Closed(ParentGraph(entries), entries.Keys)
  {
  }

  lemma {:induction false} AncestorsAreLive(entries: Entries, i: Id)
    requires ParentsLive(entries) && i in entries
    ensures Ancestors(entries, i) <= entries.Keys && i in Ancestors(entries, i)
  {
    LiveIsClosed(entries);
    ClosureIsClosed(ParentGraph(entries), {i});
    ClosureIsLeast(ParentGraph(entries), {i}, entries.Keys);
  }

  lemma {:induction false} ParentIsAncestor(entries: Entries, i: Id, p: Id)
    requires i in entries && p in entries[i].parents
    ensures p in Ancestors(entries, i)
  {
    var g := ParentGraph(entries);
    ClosureIsClosed(g, {i});
    assert p in Successors(g, i);
  }

  // ----- Accepting one transaction -----

  /** How an entry changes when `id` is accepted: its ancestors gain a child and a descendant of `vsize`. */
  ghost predicate Grown(e: Entry, e': Entry, id: Id, isAncestor: bool, vsize: nat) {
    && e'.tx == e.tx && e'.fee == e.fee && e'.parents == e.parents
    && (if isAncestor
        then && e'.children == e.children + {id}
             && e'.countWithDescendants == e.countWithDescendants + 1
             && e'.sizeWithDescendants == e.sizeWithDescendants + vsize
        else e' == e)
  }

  /** The new entry's ancestors, without itself. */
  ghost function AncestorsOfNew(entries: Entries, parents: set<Id>): set<Id> {
    Closure(ParentGraph(entries), parents)
  }

  ghost predicate Extends(entries: Entries, entries': Entries, id: Id) {
    && id !in entries && entries'.Keys == entries.Keys + {id}
    && entries'[id].parents == ParentIds(entries, entries'[id].tx.inputs) && entries'[id].children == {}
    && entries'[id].countWithDescendants == 1 && entries'[id].sizeWithDescendants == Vsize(entries'[id])
    && forall i :: i in entries ==>
         Grown(entries[i], entries'[i], id, i in AncestorsOfNew(entries, entries'[id].parents), Vsize(entries'[id]))
  }

  lemma {:induction false} ExtendKeepsParents(entries: Entries, entries': Entries, id: Id)
    requires ParentsLive(entries) && Extends(entries, entries', id) && forall i :: i in entries ==> i < id
    ensures ParentsLive(entries')
    ensures forall i :: i in entries ==> Successors(ParentGraph(entries), i) == Successors(ParentGraph(entries'), i)
  {
    hide AncestorsOfNew;
    forall i | i in entries ensures entries'[i].parents == entries[i].parents {
      assert Grown(entries[i], entries'[i], id, i in AncestorsOfNew(entries, entries'[id].parents), Vsize(entries'[id]));
    }
    hide Grown;
    forall i, p | i in entries' && p in entries'[i].parents ensures p in entries' && p < i {
      if i in entries { assert p in entries[i].parents; }
    }
  }

  lemma {:induction false} ExtendKeepsAncestors(entries: Entries, entries': Entries, id: Id, i: Id)
    requires ParentsLive(entries) && Extends(entries, entries', id) && i in entries
    requires forall j :: j in entries ==> j < id
    ensures Ancestors(entries', i) == Ancestors(entries, i)
  {
    ExtendKeepsParents(entries, entries', id);
    LiveIsClosed(entries);
    hide *;
    AncestorsLocal(entries, entries', entries.Keys, i);
  }

  lemma {:induction false} AncestorsLocal(entries: Entries, entries': Entries, s: set<Id>, i: Id)
    requires i in s && Closed(ParentGraph(entries), s)
    requires forall x :: x in s ==> Successors(ParentGraph(entries), x) == Successors(ParentGraph(entries'), x)
    ensures Ancestors(entries', i) == Ancestors(entries, i)
  {
    hide Closure, ParentGraph;
    ClosureIsLocal(ParentGraph(entries), ParentGraph(entries'), s, {i});
  }

  lemma {:induction false} NewAncestors(entries: Entries, entries': Entries, id: Id)
    requires ParentsLive(entries) && Extends(entries, entries', id) && forall j :: j in entries ==> j < id
    ensures Ancestors(entries', id) == {id} + AncestorsOfNew(entries, entries'[id].parents)
    ensures AncestorsOfNew(entries, entries'[id].parents) <= entries.Keys
  {
    var g, g', parents := ParentGraph(entries), ParentGraph(entries'), entries'[id].parents;
    ExtendKeepsParents(entries, entries', id);
    LiveIsClosed(entries);
    assert Successors(g', id) == parents;
    hide Closure, ParentGraph;
    ClosureStep(g', id);
    ClosureIsLocal(g, g', entries.Keys, parents);
    ClosureIsLeast(g, parents, entries.Keys);
  }

  lemma {:induction false} GrownAt(entries: Entries, entries': Entries, id: Id, i: Id)
    requires Extends(entries, entries', id) && i in entries
    ensures entries'[i].children == if i in AncestorsOfNew(entries, entries'[id].parents)
                                    then entries[i].children + {id} else entries[i].children
  {
  }

  lemma {:induction false} ExtendKeepsChild(entries: Entries, entries': Entries, id: Id, i: Id, j: Id)
    requires Linked(entries, id) && Extends(entries, entries', id) && i in entries && j in entries
    ensures j in entries'[i].children <==> i != j && i in Ancestors(entries', j)
  {
    hide AncestorsOfNew, Ancestors, Grown;
    ExtendKeepsAncestors(entries, entries', id, j);
    GrownAt(entries, entries', id, i);
  }

  lemma {:induction false} ExtendAddsChild(entries: Entries, entries': Entries, id: Id, i: Id)
    requires Linked(entries, id) && Extends(entries, entries', id) && i in entries
    ensures id in entries'[i].children <==> i in Ancestors(entries', id)
  {
    hide AncestorsOfNew, Ancestors, Grown;
    NewAncestors(entries, entries', id);
    GrownAt(entries, entries', id, i);
  }

  lemma {:induction false} NewIsNoAncestor(entries: Entries, entries': Entries, id: Id, j: Id)
    requires Linked(entries, id) && Extends(entries, entries', id) && j in entries
    ensures id !in Ancestors(entries', j)
  {
    hide AncestorsOfNew, Ancestors, Grown, ParentsExact, ChildrenExact;
    ExtendKeepsAncestors(entries, entries', id, j);
    AncestorsAreLive(entries, j);
  }

  lemma {:induction false} ExtendKeepsChildren(entries: Entries, entries': Entries, id: Id)
    requires Linked(entries, id) && Extends(entries, entries', id)
    ensures ChildrenExact(entries')
  {
    assert entries'.Keys == entries.Keys + {id} && entries'[id].children == {};
    hide Ancestors, Extends, Linked;
    forall i, j | i in entries' && j in entries'
      ensures j in entries'[i].children <==> i != j && i in Ancestors(entries', j)
    {
      if i in entries && j in entries {
        ExtendKeepsChild(entries, entries', id, i, j);
      } else if i in entries {
        ExtendAddsChild(entries, entries', id, i);
      } else if j in entries {
        NewIsNoAncestor(entries, entries', id, j);
      }
    }
  }

  lemma {:induction false} ExtendKeepsIds(entries: Entries, entries': Entries, id: Id)
    requires IdsKnown(entries, id) && Extends(entries, entries', id)
    ensures IdsKnown(entries', id + 1)
  {
    hide AncestorsOfNew, Grown;
    forall i | i in entries' ensures i < id + 1 && forall c :: c in entries'[i].children ==> c < id + 1 {
      if i != id { GrownAt(entries, entries', id, i); }
    }
  }

  lemma {:induction false} ExtendKeepsSpends(entries: Entries, entries': Entries, id: Id)
    requires ParentsExact(entries) && Extends(entries, entries', id) && forall i :: i in entries ==> i < id
    ensures ParentsExact(entries')
  {
    hide AncestorsOfNew, SpendsFrom;
    forall i | i in entries ensures entries'[i].parents == entries[i].parents && entries'[i].tx == entries[i].tx {
      assert Grown(entries[i], entries'[i], id, i in AncestorsOfNew(entries, entries'[id].parents), Vsize(entries'[id]));
    }
  }

  /** Accepting a transaction keeps the meaning of links. */
  lemma {:induction false} ExtendKeepsLinks(entries: Entries, entries': Entries, id: Id)
    requires Linked(entries, id) && Extends(entries, entries', id)
    ensures Linked(entries', id + 1)
  {
    hide ChildrenExact, ParentsLive, ParentsExact, Extends;
    ExtendKeepsChildren(entries, entries', id);
    ExtendKeepsSpends(entries, entries', id);
    ExtendKeepsIds(entries, entries', id);
    ExtendKeepsParents(entries, entries', id);
  }

  // ----- Removing a set closed under descent -----

  /** With an entry, the set holds all its live descendants. */
  ghost predicate DescentClosed(entries: Entries, s: set<Id>) {
    forall i, c :: i in s && i in entries && c in entries && c in entries[i].children ==> c in s
  }

  lemma {:induction false} ClosedIsDescentClosed(entries: Entries, s: set<Id>)
    requires Closed(ChildGraph(entries), s)
    ensures DescentClosed(entries, s)
  {
  }

  /** Whoever survives such a removal keeps all its ancestors. */
  lemma {:induction false} SurvivorsAreClosed(entries: Entries, nextId: Id, s: set<Id>)
    requires Linked(entries, nextId) && DescentClosed(entries, s)
    ensures Closed(ParentGraph(entries), entries.Keys - s) && ParentsLive(entries - s)
    ensures forall x :: x in entries.Keys - s ==>
              Successors(ParentGraph(entries), x) == Successors(ParentGraph(entries - s), x)
  {
    hide Ancestors;
    forall i, p | i in entries.Keys - s && p in entries[i].parents ensures p in entries.Keys - s && p < i {
      ParentIsAncestor(entries, i, p);
      assert i in entries[p].children;
    }
  }

  lemma {:induction false} RemovalKeepsAncestors(entries: Entries, nextId: Id, s: set<Id>, i: Id)
    requires Linked(entries, nextId) && DescentClosed(entries, s) && i in entries && i !in s
    ensures Ancestors(entries - s, i) == Ancestors(entries, i)
  {
    SurvivorsAreClosed(entries, nextId, s);
    hide *;
    AncestorsLocal(entries, entries - s, entries.Keys - s, i);
  }

  lemma {:induction false} RemovalKeepsLinks(entries: Entries, nextId: Id, s: set<Id>)
    requires Linked(entries, nextId) && DescentClosed(entries, s)
    ensures Linked(entries - s, nextId)
  {
    SurvivorsAreClosed(entries, nextId, s);
    hide Ancestors, ParentGraph;
    forall i, j | i in entries - s && j in entries - s
      ensures j in (entries - s)[i].children <==> i != j && i in Ancestors(entries - s, j)
    {
      RemovalKeepsAncestors(entries, nextId, s, j);
    }
  }

  /** Any other removal leaves some survivor with a parent that is gone. */
  lemma {:induction false} LinksNeedDescent(entries: Entries, nextId: Id, s: set<Id>)
    requires Linked(entries, nextId) && ParentsLive(entries - s)
    ensures DescentClosed(entries, s)
  {
    hide Ancestors;
    forall i, c | i in s && i in entries && c in entries && c in entries[i].children ensures c in s {
      if c !in s {
        SurvivorKeepsAncestors(entries, s, c);
      }
    }
  }

  lemma {:induction false} SurvivorKeepsAncestors(entries: Entries, s: set<Id>, c: Id)
    requires ParentsLive(entries - s) && c in entries && c !in s
    ensures Ancestors(entries, c) !! s
  {
    assert Closed(ParentGraph(entries), (entries - s).Keys) by {
      forall i, p | i in (entries - s).Keys && p in Successors(ParentGraph(entries), i)
        ensures p in (entries - s).Keys
      {
        assert p in (entries - s)[i].parents;
      }
    }
    ClosureIsLeast(ParentGraph(entries), {c}, (entries - s).Keys);
  }

  /** So links survive a removal exactly when the set removed is closed under descent. */
  lemma {:induction false} LinksSurviveIff(entries: Entries, nextId: Id, s: set<Id>)
    requires Linked(entries, nextId)
    ensures Linked(entries - s, nextId) <==> DescentClosed(entries, s)
  {
    hide ParentsLive, ParentsExact, ChildrenExact, IdsKnown, DescentClosed;
    if DescentClosed(entries, s) {
      RemovalKeepsLinks(entries, nextId, s);
    } else if Linked(entries - s, nextId) {
      LinksNeedDescent(entries, nextId, s);
    }
  }

  lemma {:induction false} AncestorsNest(entries: Entries, b: Id, c: Id)
    requires b in Ancestors(entries, c)
    ensures Ancestors(entries, b) <= Ancestors(entries, c)
  {
    ClosureIsClosed(ParentGraph(entries), {c});
    ClosureIsLeast(ParentGraph(entries), {b}, Ancestors(entries, c));
  }

  lemma {:induction false} AncestorsAreOlder(entries: Entries, i: Id)
    requires ParentsLive(entries) && i in entries
    ensures forall a :: a in Ancestors(entries, i) ==> a <= i
  {
    var older := set x: Id | x in entries && x <= i;
    forall x: Id, p: Id | x in older && p in Successors(ParentGraph(entries), x) ensures p in older {
      assert x in entries && p in entries[x].parents;
      assert p in entries && p < x;
    }
    ClosureIsLeast(ParentGraph(entries), {i}, older);
  }

  /** A strict descendant of a strict descendant is one. */
  lemma {:induction false} ChildrenNest(entries: Entries, nextId: Id, a: Id, b: Id, c: Id)
    requires Linked(entries, nextId) && a in entries && b in entries && c in entries
    requires b in entries[a].children && c in entries[b].children
    ensures c in entries[a].children
  {
    hide Closure;
    AncestorsNest(entries, b, c);
    AncestorsAreOlder(entries, b);
    AncestorsAreOlder(entries, c);
  }

  /** The descendant walk from a live entry finds the entry, its live descendants, and otherwise only dead ids. */
  lemma {:induction false} DescendantsOf(entries: Entries, nextId: Id, id: Id, j: Id)
    requires Linked(entries, nextId) && id in entries && j in entries
    ensures j in Closure(ChildGraph(entries), {id}) <==> id in Ancestors(entries, j)
  {
    hide Closure;
    var g := ChildGraph(entries);
    var s := {id} + entries[id].children + (Targets(g) - entries.Keys);
    forall x, y | x in s && y in Successors(g, x) ensures y in s {
      if y in entries && x != id { ChildrenNest(entries, nextId, id, x, y); }
    }
    ClosureIsLeast(g, {id}, s);
    ClosureIsClosed(g, {id});
    AncestorsAreLive(entries, j);
    if j in entries[id].children { assert j in Successors(g, id); }
  }
}
