/** Ancestor and descendant limits, kept over every accept and every removal. */
module MempoolLimits {
  import opened Sums
  import opened MempoolArena
  import opened MempoolLinks
  import opened MempoolSums

  datatype Limits = Limits(maxAncestors: nat, maxAncestorSize: int, maxDescendants: nat, maxDescendantSize: int)

  // ----- Ancestors -----

  ghost predicate AncestorsWithin(entries: Entries, i: Id, limits: Limits) {
    && |Ancestors(entries, i)| <= limits.maxAncestors
    && SumOver(entries, Ancestors(entries, i), Vsize) <= limits.maxAncestorSize
  }

  /** What the limit check demands before `tx` may join the pool below these ancestors. */
  ghost predicate RoomFor(entries: Entries, ancestors: set<Id>, vsize: nat, limits: Limits) {
    && |ancestors| + 1 <= limits.maxAncestors
    && vsize + SumOver(entries, ancestors, Vsize) <= limits.maxAncestorSize
    && forall a :: a in ancestors && a in entries ==>
         && entries[a].countWithDescendants + 1 <= limits.maxDescendants
         && entries[a].sizeWithDescendants + vsize <= limits.maxDescendantSize
  }

  lemma {:induction false} SameTx(entries: Entries, entries': Entries, id: Id, s: set<Id>)
    requires Extends(entries, entries', id) && s <= entries.Keys
    ensures s <= entries'.Keys && forall i :: i in s ==> entries[i].tx == entries'[i].tx
  {
  }

  lemma {:induction false} ExtendKeepsAncestorLimits(entries: Entries, entries': Entries, id: Id, i: Id, limits: Limits)
    requires Linked(entries, id) && Extends(entries, entries', id) && i in entries
    requires AncestorsWithin(entries, i, limits)
    ensures AncestorsWithin(entries', i, limits)
  {
    ExtendKeepsAncestors(entries, entries', id, i);
    AncestorsAreLive(entries, i);
    SameTx(entries, entries', id, Ancestors(entries, i));
    hide Ancestors, Extends, SumOver;
    SumLocal(entries, entries', Ancestors(entries, i), Vsize);
  }

  lemma {:induction false} SumWithNew(entries: Entries, entries': Entries, id: Id, s: set<Id>)
    requires Extends(entries, entries', id) && s <= entries.Keys
    ensures SumOver(entries', s, Vsize) == SumOver(entries, s, Vsize)
    ensures SumOver(entries', s + {id}, Vsize) == SumOver(entries, s, Vsize) + Vsize(entries'[id])
    ensures |s + {id}| == |s| + 1
  {
    hide SumOver, Grown, AncestorsOfNew;
    SameTx(entries, entries', id, s);
    SumLocal(entries, entries', s, Vsize);
    SumAdd(entries', s, Vsize, id);
  }

  lemma {:induction false} RoomIsEnough(entries: Entries, entries': Entries, id: Id, above: set<Id>, limits: Limits)
    requires id in entries' && Ancestors(entries', id) == above + {id} && |above + {id}| == |above| + 1
    requires SumOver(entries', above + {id}, Vsize) == SumOver(entries, above, Vsize) + Vsize(entries'[id])
    requires RoomFor(entries, above, Vsize(entries'[id]), limits)
    ensures AncestorsWithin(entries', id, limits)
  {
    hide Ancestors, SumOver, Vsize;
  }

  lemma {:induction false} NewWithinAncestorLimits(entries: Entries, entries': Entries, id: Id, limits: Limits)
    requires Linked(entries, id) && Extends(entries, entries', id)
    requires RoomFor(entries, AncestorsOfNew(entries, entries'[id].parents), Vsize(entries'[id]), limits)
    ensures AncestorsWithin(entries', id, limits)
  {
    hide Ancestors, AncestorsOfNew, SumOver, Grown, Vsize, ChildrenExact, ParentsExact, RoomFor, AncestorsWithin;
    var above := AncestorsOfNew(entries, entries'[id].parents);
    NewAncestors(entries, entries', id);
    SumWithNew(entries, entries', id, above);
    RoomIsEnough(entries, entries', id, above, limits);
  }

  lemma {:induction false} RemovalKeepsAncestorLimits(entries: Entries, nextId: Id, s: set<Id>, i: Id, limits: Limits)
    requires Linked(entries, nextId) && DescentClosed(entries, s) && i in entries && i !in s
    requires AncestorsWithin(entries, i, limits)
    ensures AncestorsWithin(entries - s, i, limits)
  {
    RemovalKeepsAncestors(entries, nextId, s, i);
    RemovalKeepsLinks(entries, nextId, s);
    AncestorsAreLive(entries - s, i);
    hide Ancestors, SumOver;
    SumLocal(entries, entries - s, Ancestors(entries, i), Vsize);
  }

  // ----- Descendants -----

  ghost function LiveDescendants(entries: Entries, i: Id): set<Id>
    requires i in entries
  {
    set j | j in entries && j in entries[i].children
  }

  /** The cached totals bound the true live ones from above, and stay within the limits. */
  ghost predicate DescendantsWithin(entries: Entries, i: Id, limits: Limits)
    requires i in entries
  {
    && |LiveDescendants(entries, i)| + 1 <= entries[i].countWithDescendants
    && (entries[i].countWithDescendants == 1 || entries[i].countWithDescendants <= limits.maxDescendants)
    && Vsize(entries[i]) + SumOver(entries, LiveDescendants(entries, i), Vsize) <= entries[i].sizeWithDescendants
    && (entries[i].sizeWithDescendants == Vsize(entries[i]) || entries[i].sizeWithDescendants <= limits.maxDescendantSize)
  }

  lemma {:induction false} ExtendMovesDescendants(entries: Entries, entries': Entries, id: Id, i: Id)
    requires Linked(entries, id) && Extends(entries, entries', id) && i in entries
    ensures LiveDescendants(entries', i) == if i in AncestorsOfNew(entries, entries'[id].parents)
                                            then LiveDescendants(entries, i) + {id} else LiveDescendants(entries, i)
  {
  }

  lemma {:induction false} ExtendKeepsDescendantLimits(entries: Entries, entries': Entries, id: Id, i: Id,
                                                       limits: Limits)
    requires Linked(entries, id) && Extends(entries, entries', id) && i in entries
    requires DescendantsWithin(entries, i, limits)
    requires RoomFor(entries, AncestorsOfNew(entries, entries'[id].parents), Vsize(entries'[id]), limits)
    ensures DescendantsWithin(entries', i, limits)
  {
    hide AncestorsOfNew, SumOver, Linked;
    var below := LiveDescendants(entries, i);
    ExtendMovesDescendants(entries, entries', id, i);
    SumWithNew(entries, entries', id, below);
    assert Grown(entries[i], entries'[i], id, i in AncestorsOfNew(entries, entries'[id].parents), Vsize(entries'[id]));
  }

  lemma {:induction false} NewWithinDescendantLimits(entries: Entries, entries': Entries, id: Id, limits: Limits)
    requires Extends(entries, entries', id)
    ensures DescendantsWithin(entries', id, limits)
  {
  }

  lemma {:induction false} RemovalKeepsDescendantLimits(entries: Entries, s: set<Id>, i: Id, limits: Limits)
    requires i in entries && i !in s && DescendantsWithin(entries, i, limits)
    ensures DescendantsWithin(entries - s, i, limits)
  {
    var before, after := LiveDescendants(entries, i), LiveDescendants(entries - s, i);
    assert after <= before && after <= (entries - s).Keys;
    SubsetSize(after, before);
    hide SumOver, LiveDescendants;
    SumLocal(entries, entries - s, after, Vsize);
    SumMonotone(entries, after, before, Vsize);
  }

  // ----- Every live entry -----

  ghost predicate WithinLimits(entries: Entries, limits: Limits) {
    forall i :: i in entries ==> AncestorsWithin(entries, i, limits) && DescendantsWithin(entries, i, limits)
  }

  lemma {:induction false} ExtendKeepsLimits(entries: Entries, entries': Entries, id: Id, limits: Limits)
    requires Linked(entries, id) && Extends(entries, entries', id) && WithinLimits(entries, limits)
    requires RoomFor(entries, AncestorsOfNew(entries, entries'[id].parents), Vsize(entries'[id]), limits)
    ensures WithinLimits(entries', limits)
  {
    hide AncestorsWithin, DescendantsWithin, Linked, RoomFor, Grown;
    forall i | i in entries' ensures AncestorsWithin(entries', i, limits) && DescendantsWithin(entries', i, limits) {
      if i == id {
        NewWithinAncestorLimits(entries, entries', id, limits);
        NewWithinDescendantLimits(entries, entries', id, limits);
      } else {
        ExtendKeepsAncestorLimits(entries, entries', id, i, limits);
        ExtendKeepsDescendantLimits(entries, entries', id, i, limits);
      }
    }
  }

  lemma {:induction false} RemovalKeepsLimits(entries: Entries, nextId: Id, s: set<Id>, limits: Limits)
    requires Linked(entries, nextId) && DescentClosed(entries, s) && WithinLimits(entries, limits)
    ensures WithinLimits(entries - s, limits)
  {
    hide AncestorsWithin, DescendantsWithin, Linked, DescentClosed;
    forall i | i in entries - s
      ensures AncestorsWithin(entries - s, i, limits) && DescendantsWithin(entries - s, i, limits)
    {
      RemovalKeepsAncestorLimits(entries, nextId, s, i, limits);
      RemovalKeepsDescendantLimits(entries, s, i, limits);
    }
  }
}
