/** What the cached ancestor totals of an entry are, over every accept and every removal. */
module MempoolTotals {
  import opened MempoolArena
  import opened MempoolSums
  import opened MempoolLinks
  import opened MempoolAccept

  /** The ancestor totals count every transaction ever accepted below the entry as if it were above it: they exceed
      the true totals by exactly what the descendant totals hold besides the entry itself. */
  ghost predicate TotalsOf(entries: Entries, i: Id)
    requires i in entries
  {
    var e, above := entries[i], Ancestors(entries, i);
    && e.countWithAncestors == |above| + e.countWithDescendants - 1
    && e.sizeWithAncestors == SumOver(entries, above, Vsize) + e.sizeWithDescendants - Vsize(e)
    && e.feesWithAncestors == SumOver(entries, above, ModifiedFee) + e.feesWithDescendants - e.modifiedFee
  }

  /** The descendant totals start at the entry itself and grow by at least two virtual bytes for each descendant. */
  ghost predicate BelowOf(e: Entry) {
    && e.countWithDescendants >= 1 && e.feesWithDescendants >= e.modifiedFee
    && e.sizeWithDescendants - Vsize(e) >= 2 * (e.countWithDescendants - 1)
    && (e.countWithDescendants == 1 ==> e.sizeWithDescendants == Vsize(e) && e.feesWithDescendants == e.modifiedFee)
  }

  ghost predicate TotalsKept(entries: Entries) {
    forall i :: i in entries ==> TotalsOf(entries, i) && BelowOf(entries[i])
  }

  /** So the ancestor count and size are exact exactly while nothing has ever been accepted below the entry, and the
      fees exactly while nothing accepted below it has paid any. */
  lemma {:induction false} TotalsAreExactIff(entries: Entries, i: Id)
    requires i in entries && TotalsOf(entries, i) && BelowOf(entries[i])
    ensures entries[i].countWithAncestors == |Ancestors(entries, i)| <==> entries[i].countWithDescendants == 1
    ensures entries[i].sizeWithAncestors == SumOver(entries, Ancestors(entries, i), Vsize) <==>
              entries[i].countWithDescendants == 1
    ensures entries[i].feesWithAncestors == SumOver(entries, Ancestors(entries, i), ModifiedFee)
            <==> entries[i].feesWithDescendants == entries[i].modifiedFee
  {
    hide Ancestors, SumOver, Vsize;
  }

  /** What the sums add for one more live entry. */
  lemma {:induction false} SumsAddUp(entries: Entries, s: set<Id>, id: Id)
    requires id in entries && id !in s
    ensures SumOver(entries, {}, Vsize) == SumOver(entries, {}, ModifiedFee) == SumOver(entries, {}, Sigops) == 0
    ensures SumOver(entries, s + {id}, Vsize) == SumOver(entries, s, Vsize) + (entries[id].tx.weight + 3) / 4
    ensures SumOver(entries, s + {id}, ModifiedFee) == SumOver(entries, s, ModifiedFee) + entries[id].modifiedFee
    ensures SumOver(entries, s + {id}, Sigops) == SumOver(entries, s, Sigops) + entries[id].sigopCost
  {
    hide SumOver;
    SumEmpty(entries, Vsize);
    SumEmpty(entries, ModifiedFee);
    SumEmpty(entries, Sigops);
    SumAdd(entries, s, Vsize, id);
    SumAdd(entries, s, ModifiedFee, id);
    SumAdd(entries, s, Sigops, id);
  }

  // ----- Accepting -----

  lemma {:induction false} BumpedTotals(e: Entry, id: Id, ws: Workspace)
    requires Sized(e)
    ensures var b := Bumped(e, id, ws);
      && b.tx == e.tx && b.modifiedFee == e.modifiedFee
      && b.countWithAncestors == e.countWithAncestors + 1 && b.countWithDescendants == e.countWithDescendants + 1
      && b.sizeWithAncestors == e.sizeWithAncestors + VsizeOf(ws.tx)
      && b.sizeWithDescendants == e.sizeWithDescendants + VsizeOf(ws.tx)
      && b.feesWithAncestors == e.feesWithAncestors + ws.modifiedFee
      && b.feesWithDescendants == e.feesWithDescendants + ws.modifiedFee
      && b.sigopsWithAncestors == e.sigopsWithAncestors + ws.sigopCost && b.children == e.children + {id}
  {
    hide ComputeAncestorKey, ComputeDescendantKey;
  }

  /** All differences between the totals of an old entry stay the same. */
  ghost predicate SameDrift(e: Entry, e': Entry) {
    && e'.tx == e.tx && e'.modifiedFee == e.modifiedFee
    && e'.countWithAncestors - e'.countWithDescendants == e.countWithAncestors - e.countWithDescendants
    && e'.sizeWithAncestors - e'.sizeWithDescendants == e.sizeWithAncestors - e.sizeWithDescendants
    && e'.feesWithAncestors - e'.feesWithDescendants == e.feesWithAncestors - e.feesWithDescendants
    && (BelowOf(e) ==> BelowOf(e'))
  }

  lemma {:induction false} AcceptedDrift(entries: Entries, id: Id, ws: Workspace, i: Id)
    requires AllSized(entries) && VsizeOf(ws.tx) > 1 && id !in entries && i in entries
    ensures SameDrift(entries[i], Accepted(entries, id, ws)[i])
  {
    BumpedTotals(entries[i], id, ws);
    hide Bumped, AncestorIds, VsizeOf, NewEntry, Rekey;
  }

  lemma {:induction false} SameSums(entries: Entries, entries': Entries, s: set<Id>)
    requires s <= entries.Keys && s <= entries'.Keys && forall i :: i in s ==> SameDrift(entries[i], entries'[i])
    ensures SumOver(entries', s, Vsize) == SumOver(entries, s, Vsize)
    ensures SumOver(entries', s, ModifiedFee) == SumOver(entries, s, ModifiedFee)
  {
    hide SumOver;
    SumLocal(entries, entries', s, Vsize);
    SumLocal(entries, entries', s, ModifiedFee);
  }

  lemma {:induction false} OldSums(entries: Entries, id: Id, ws: Workspace, s: set<Id>)
    requires AllSized(entries) && VsizeOf(ws.tx) > 1 && id !in entries && s <= entries.Keys
    ensures var entries' := Accepted(entries, id, ws);
      && s <= entries'.Keys
      && SumOver(entries', s, Vsize) == SumOver(entries, s, Vsize)
      && SumOver(entries', s, ModifiedFee) == SumOver(entries, s, ModifiedFee)
  {
    var entries' := Accepted(entries, id, ws);
    assert s <= entries'.Keys;
    hide Accepted, SumOver, AllSized;
    forall j | j in s ensures SameDrift(entries[j], entries'[j]) {
      AcceptedDrift(entries, id, ws, j);
    }
    SameSums(entries, entries', s);
  }

  lemma {:induction false} OldTotals(entries: Entries, id: Id, ws: Workspace, i: Id)
    requires AllSized(entries) && VsizeOf(ws.tx) > 1 && Linked(entries, id) && id !in entries && i in entries
    requires TotalsOf(entries, i) && BelowOf(entries[i])
    ensures i in Accepted(entries, id, ws)
    ensures TotalsOf(Accepted(entries, id, ws), i) && BelowOf(Accepted(entries, id, ws)[i])
  {
    hide Accepted, Ancestors, SumOver, AllSized, ParentsExact, ChildrenExact, BelowOf, Extends;
    var entries', above := Accepted(entries, id, ws), Ancestors(entries, i);
    AcceptedExtends(entries, id, ws);
    ExtendKeepsAncestors(entries, entries', id, i);
    AncestorsAreLive(entries, i);
    OldSums(entries, id, ws, above);
    AcceptedDrift(entries, id, ws, i);
  }

  lemma {:induction false} NewFields(entries: Entries, id: Id, ws: Workspace)
    requires AllSized(entries) && VsizeOf(ws.tx) > 1 && id !in entries
    ensures var e, above := Accepted(entries, id, ws)[id], AncestorIds(entries, ws.tx);
      && e.tx == ws.tx && e.modifiedFee == ws.modifiedFee && e.parents == ParentIds(entries, ws.tx.inputs)
      && e.countWithDescendants == 1 && e.sizeWithDescendants == Vsize(e) && e.feesWithDescendants == e.modifiedFee
      && e.countWithAncestors == |above| + 1
      && e.sizeWithAncestors == SumOver(entries, above, Vsize) + Vsize(e)
      && e.feesWithAncestors == SumOver(entries, above, ModifiedFee) + e.modifiedFee
      && e.sigopsWithAncestors == SumOver(entries, above, Sigops) + e.sigopCost
  {
    hide AncestorIds, ParentIds, SumOver, VsizeOf, Bumped, ComputeAncestorKey, ComputeDescendantKey;
  }

  lemma {:induction false} NewSums(entries: Entries, id: Id, ws: Workspace)
    requires AllSized(entries) && VsizeOf(ws.tx) > 1 && Linked(entries, id) && id !in entries
    ensures var entries', above := Accepted(entries, id, ws), AncestorIds(entries, ws.tx);
      && |Ancestors(entries', id)| == |above| + 1
      && SumOver(entries', Ancestors(entries', id), Vsize) == SumOver(entries, above, Vsize) + Vsize(entries'[id])
      && SumOver(entries', Ancestors(entries', id), ModifiedFee)
            == SumOver(entries, above, ModifiedFee) + entries'[id].modifiedFee
  {
    hide Accepted, Ancestors, AncestorsOfNew, ParentIds, SumOver, AllSized, ParentsExact, ChildrenExact;
    var entries', above := Accepted(entries, id, ws), AncestorIds(entries, ws.tx);
    AcceptedExtends(entries, id, ws);
    NewFields(entries, id, ws);
    NewAncestors(entries, entries', id);
    hide Extends;
    OldSums(entries, id, ws, above);
    SumAdd(entries', above, Vsize, id);
    SumAdd(entries', above, ModifiedFee, id);
    assert Ancestors(entries', id) == above + {id};
  }

  lemma {:induction false} NewTotals(entries: Entries, id: Id, ws: Workspace)
    requires AllSized(entries) && VsizeOf(ws.tx) > 1 && Linked(entries, id) && id !in entries
    ensures id in Accepted(entries, id, ws)
    ensures TotalsOf(Accepted(entries, id, ws), id) && BelowOf(Accepted(entries, id, ws)[id])
  {
    hide Ancestors, SumOver, AllSized, Linked, AncestorIds, Accepted, Vsize;
    AcceptedKeys(entries, id, ws);
    NewFields(entries, id, ws);
    NewSums(entries, id, ws);
  }

  lemma {:induction false} AcceptKeepsTotals(entries: Entries, id: Id, ws: Workspace)
    requires AllSized(entries) && VsizeOf(ws.tx) > 1 && Linked(entries, id) && id !in entries && TotalsKept(entries)
    ensures TotalsKept(Accepted(entries, id, ws))
  {
    hide Accepted, TotalsOf, BelowOf, Linked, AllSized, VsizeOf;
    var entries' := Accepted(entries, id, ws);
    AcceptedKeys(entries, id, ws);
    forall i | i in entries' ensures TotalsOf(entries', i) && BelowOf(entries'[i]) {
      if i == id { NewTotals(entries, id, ws); } else { OldTotals(entries, id, ws, i); }
    }
  }

  // ----- Removing -----

  lemma {:induction false} SurvivorTotals(entries: Entries, nextId: Id, s: set<Id>, i: Id)
    requires Linked(entries, nextId) && DescentClosed(entries, s) && i in entries && i !in s && TotalsOf(entries, i)
    ensures TotalsOf(entries - s, i)
  {
    hide Ancestors, SumOver, DescentClosed, ChildrenExact, ParentsExact, IdsKnown;
    RemovalKeepsLinks(entries, nextId, s);
    RemovalKeepsAncestors(entries, nextId, s, i);
    AncestorsAreLive(entries - s, i);
    SumLocal(entries, entries - s, Ancestors(entries, i), Vsize);
    SumLocal(entries, entries - s, Ancestors(entries, i), ModifiedFee);
  }

  lemma {:induction false} RemovalKeepsTotals(entries: Entries, nextId: Id, s: set<Id>)
    requires Linked(entries, nextId) && DescentClosed(entries, s) && TotalsKept(entries)
    ensures TotalsKept(entries - s)
  {
    hide TotalsOf, BelowOf, Linked, DescentClosed;
    forall i | i in entries - s ensures TotalsOf(entries - s, i) && BelowOf((entries - s)[i]) {
      SurvivorTotals(entries, nextId, s, i);
    }
  }

  // ----- What mining order follows -----

  function LowerOf(a: int, b: int): int {
    if a <= b then a else b
  }

  ghost predicate HasTrueScore(entries: Entries, i: Id) {
    && i in entries && Vsize(entries[i]) > 0
    && SumOver(entries, Ancestors(entries, i), Vsize) > 0 && SumOver(entries, Ancestors(entries, i), ModifiedFee) >= 0
  }

  /** The score that mining order is meant to follow. */
  ghost function TrueScore(entries: Entries, i: Id): int
    requires HasTrueScore(entries, i)
  {
    LowerOf(Feerate(entries[i].modifiedFee, Vsize(entries[i])),
            Feerate(SumOver(entries, Ancestors(entries, i), ModifiedFee), SumOver(entries, Ancestors(entries, i), Vsize)))
  }

  /** The score it does follow: whatever was ever accepted below the entry is blended into its ancestor feerate. */
  ghost function BlendedScore(entries: Entries, i: Id): int
    requires i in entries && Sized(entries[i]) && TotalsOf(entries, i)
  {
    var e, above := entries[i], Ancestors(entries, i);
    LowerOf(Feerate(e.modifiedFee, Vsize(e)),
            Feerate(SumOver(entries, above, ModifiedFee) + e.feesWithDescendants - e.modifiedFee,
                    SumOver(entries, above, Vsize) + e.sizeWithDescendants - Vsize(e)))
  }

  lemma {:induction false} ScoreIsBlended(entries: Entries, i: Id)
    requires i in entries && Sized(entries[i]) && TotalsOf(entries, i)
    ensures AncestorScore(entries[i]) == BlendedScore(entries, i)
  {
    hide Ancestors, SumOver, Feerate, Vsize;
  }

  ghost function TrueFeerate(entries: Entries, i: Id): int
    requires HasTrueScore(entries, i)
  {
    Feerate(SumOver(entries, Ancestors(entries, i), ModifiedFee), SumOver(entries, Ancestors(entries, i), Vsize))
  }

  lemma {:induction false} TrueScoreExists(entries: Entries, i: Id)
    requires ParentsLive(entries) && i in entries && Sized(entries[i])
    ensures HasTrueScore(entries, i)
  {
    AncestorsAreLive(entries, i);
    hide Ancestors, SumOver, Vsize;
    SumEmpty(entries, Vsize);
    SumAdd(entries, {}, Vsize, i);
    SumMonotone(entries, {} + {i}, Ancestors(entries, i), Vsize);
    SumMonotone(entries, Ancestors(entries, i), Ancestors(entries, i), ModifiedFee);
  }

  /** The feerate of the cached totals is the true ancestor feerate, or the own feerate is no higher than either. */
  ghost predicate ScoreStands(entries: Entries, i: Id)
    requires HasTrueScore(entries, i) && Sized(entries[i])
  {
    var e := entries[i];
    var own, cached := Feerate(e.modifiedFee, Vsize(e)), Feerate(e.feesWithAncestors, e.sizeWithAncestors);
    cached == TrueFeerate(entries, i) || (own <= cached && own <= TrueFeerate(entries, i))
  }

  /** The score that the index follows is the true one exactly then. */
  lemma {:induction false} ScoreIsTrueIff(entries: Entries, i: Id)
    requires HasTrueScore(entries, i) && Sized(entries[i])
    ensures AncestorScore(entries[i]) == TrueScore(entries, i) <==> ScoreStands(entries, i)
  {
    hide Ancestors, SumOver, Feerate, VsizeOf;
  }

  /** In particular for an entry below which nothing was ever accepted. */
  lemma {:induction false} ChildlessScoreStands(entries: Entries, i: Id)
    requires HasTrueScore(entries, i) && Sized(entries[i]) && TotalsOf(entries, i) && BelowOf(entries[i])
    ensures entries[i].countWithDescendants == 1 ==> ScoreStands(entries, i)
  {
    hide Ancestors, SumOver, Feerate, VsizeOf;
  }
}
