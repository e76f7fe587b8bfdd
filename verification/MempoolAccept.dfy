/** What accepting one transaction does to the entries. */
module MempoolAccept {
  import opened Bitcoin
  import opened MempoolArena
  import opened MempoolSums
  import opened MempoolLinks

  /** A transaction on its way into the pool, with what the checks on its inputs found. */
  datatype Workspace = Workspace(
    tx: Transaction,
    baseFee: nat,
    modifiedFee: nat,
    sigopCost: nat,
    lockPoints: LockPoints,
    spendsCoinbase: bool,
    time: int,
    height: nat)

  lemma {:induction false} NoParents(entries: Entries)
    ensures ParentIds(entries, []) == {}
  {
  }

  lemma {:induction false} ParentIdsPush(entries: Entries, byTxid: map<Txid, Id>, ops: seq<OutPoint>, op: OutPoint)
    requires HashIndex(entries, TxidOf, byTxid)
    ensures ParentIds(entries, ops + [op])
            == ParentIds(entries, ops) + if op.txid in byTxid then {byTxid[op.txid]} else {}
  {
  }

  ghost function AncestorIds(entries: Entries, tx: Transaction): set<Id> {
    AncestorsOfNew(entries, ParentIds(entries, tx.inputs))
  }

  lemma {:induction false} AncestorIdsAreLive(entries: Entries, tx: Transaction)
    requires ParentsLive(entries)
    ensures AncestorIds(entries, tx) <= entries.Keys
  {
  }

  /** The entry as it is inserted, before its keys are computed. */
  ghost function NewEntry(entries: Entries, ws: Workspace): (e: Entry)
    ensures e.tx == ws.tx && e.fee == ws.baseFee && e.children == {} && e.parents == ParentIds(entries, ws.tx.inputs)
    ensures e.countWithDescendants == 1 && e.sizeWithDescendants == VsizeOf(ws.tx)
    ensures e.sizeWithAncestors >= VsizeOf(ws.tx)
  {
    var above := AncestorIds(entries, ws.tx);
    SumMonotone(entries, above, above, Vsize);
    SumMonotone(entries, above, above, ModifiedFee);
    EntryFor(ws, ParentIds(entries, ws.tx.inputs), |above| + 1, VsizeOf(ws.tx) + SumOver(entries, above, Vsize),
             ws.modifiedFee + SumOver(entries, above, ModifiedFee), ws.sigopCost + SumOver(entries, above, Sigops))
  }

  function EntryFor(ws: Workspace, parents: set<Id>, count: nat, size: int, fees: nat, sigops: int): Entry {
    Entry(ws.tx, ws.baseFee, ws.modifiedFee, ws.time, ws.height, ws.spendsCoinbase, ws.sigopCost, ws.lockPoints,
          count, size, fees, sigops, 1, VsizeOf(ws.tx), ws.modifiedFee, parents, {},
          ScoreKey(0, 1, ws.tx.txid), ScoreKey(0, 1, ws.time))
  }

  /** What happens to each ancestor: a child link, and the new transaction added to one total, then to the other. */
  datatype Change = Child(id: Id) | Above(ws: Workspace) | Below(ws: Workspace)

  function Apply(c: Change, e: Entry): Entry {
    match c
    case Child(id) => WithChild(e, id)
    case Above(ws) => if Sized(e) then WithAncestors(e, VsizeOf(ws.tx), ws.modifiedFee, 1, ws.sigopCost) else e
    case Below(ws) => if Sized(e) then WithDescendants(e, VsizeOf(ws.tx), ws.modifiedFee, 1) else e
  }

  ghost function Touch(entries: Entries, ids: set<Id>, c: Change): Entries {
    map i | i in entries :: if i in ids then Apply(c, entries[i]) else entries[i]
  }

  lemma {:induction false} TouchStep(entries: Entries, ids: set<Id>, c: Change, id: Id)
    requires id in entries && id !in ids
    ensures Touch(entries, ids + {id}, c) == Touch(entries, ids, c)[id := Apply(c, Touch(entries, ids, c)[id])]
  {
  }

  lemma {:induction false} TouchNothing(entries: Entries, c: Change)
    ensures Touch(entries, {}, c) == entries
  {
  }

  function Bumped(e: Entry, id: Id, ws: Workspace): Entry {
    Apply(Below(ws), Apply(Above(ws), Apply(Child(id), e)))
  }

  lemma {:induction false} BumpedIsGrown(e: Entry, id: Id, ws: Workspace)
    requires Sized(e)
    ensures Grown(e, Bumped(e, id, ws), id, true, VsizeOf(ws.tx))
  {
  }

  ghost predicate AllSized(entries: Entries) {
    forall i :: i in entries ==> Sized(entries[i])
  }

  /** The entries once `ws` has joined under `id`. */
  ghost function Accepted(entries: Entries, id: Id, ws: Workspace): Entries
    requires AllSized(entries) && VsizeOf(ws.tx) > 1
  {
    (map i | i in entries :: if i in AncestorIds(entries, ws.tx) then Bumped(entries[i], id, ws) else entries[i])
      [id := Rekey(NewEntry(entries, ws))]
  }

  /** What a transaction brings with it and keeps as long as it is in the pool. */
  ghost predicate SameSelf(e: Entry, e': Entry) {
    && e'.tx == e.tx && e'.fee == e.fee && e'.modifiedFee == e.modifiedFee && e'.time == e.time
    && e'.entryHeight == e.entryHeight && e'.spendsCoinbase == e.spendsCoinbase && e'.sigopCost == e.sigopCost
    && e'.lockPoints == e.lockPoints
  }

  ghost predicate Carries(e: Entry, ws: Workspace) {
    && e.tx == ws.tx && e.fee == ws.baseFee && e.modifiedFee == ws.modifiedFee && e.sigopCost == ws.sigopCost
    && e.lockPoints == ws.lockPoints && e.spendsCoinbase == ws.spendsCoinbase
    && e.time == ws.time && e.entryHeight == ws.height
  }

  lemma {:induction false} NewCarries(entries: Entries, ws: Workspace)
    requires VsizeOf(ws.tx) > 1
    ensures Sized(NewEntry(entries, ws)) && Carries(Rekey(NewEntry(entries, ws)), ws)
  {
    hide AncestorIds, ParentIds, SumOver, VsizeOf, ComputeAncestorKey, ComputeDescendantKey;
  }

  lemma {:induction false} StaysItself(e: Entry)
    ensures SameSelf(e, e)
  {
  }

  /** The new entry carries what came with it, and the others stay themselves. */
  ghost predicate JoinsAs(entries: Entries, entries': Entries, id: Id, ws: Workspace) {
    && entries'.Keys == entries.Keys + {id}
    && Carries(entries'[id], ws)
    && forall i :: i in entries ==> SameSelf(entries[i], entries'[i])
  }

  lemma {:induction false} BumpedSelf(e: Entry, id: Id, ws: Workspace)
    requires Sized(e)
    ensures SameSelf(e, Bumped(e, id, ws))
  {
    hide ComputeAncestorKey, ComputeDescendantKey;
  }

  lemma {:induction false} AcceptedSelf(entries: Entries, id: Id, ws: Workspace)
    requires AllSized(entries) && VsizeOf(ws.tx) > 1 && id !in entries
    ensures JoinsAs(entries, Accepted(entries, id, ws), id, ws)
  {
    hide AncestorIds, VsizeOf, Bumped, NewEntry, Rekey, SameSelf, Carries;
    NewCarries(entries, ws);
    forall i | i in entries ensures SameSelf(entries[i], Accepted(entries, id, ws)[i]) {
      BumpedSelf(entries[i], id, ws);
      StaysItself(entries[i]);
    }
  }

  lemma {:induction false} AcceptedKeys(entries: Entries, id: Id, ws: Workspace)
    requires AllSized(entries) && VsizeOf(ws.tx) > 1
    ensures Accepted(entries, id, ws).Keys == entries.Keys + {id}
  {
    hide Bumped, NewEntry, Rekey, AncestorIds;
  }

  lemma {:induction false} AcceptedExtends(entries: Entries, id: Id, ws: Workspace)
    requires AllSized(entries) && VsizeOf(ws.tx) > 1 && id !in entries
    ensures Extends(entries, Accepted(entries, id, ws), id)
  {
    hide Bumped, NewEntry, AncestorsOfNew, SpendsFrom, ComputeAncestorKey, ComputeDescendantKey;
    var entries' := Accepted(entries, id, ws);
    forall i | i in entries
      ensures Grown(entries[i], entries'[i], id, i in AncestorIds(entries, ws.tx), VsizeOf(ws.tx))
    {
      BumpedIsGrown(entries[i], id, ws);
    }
  }

  // ----- The loops over the ancestors -----

  method LinkChildren(arena: Arena, ids: set<Id>, child: Id)
    requires arena.Valid() && ids <= arena.entries.Keys
    modifies arena
    ensures arena.Valid() && arena.nextId == old(arena.nextId)
    ensures arena.entries == Touch(old(arena.entries), ids, Child(child))
  {
    hide Arena.Valid, Touch, WithChild;
    ghost var before, done := arena.entries, {};
    var todo := ids;
    TouchNothing(before, Child(child));
    while todo != {}
      invariant done + todo == ids && done !! todo
      invariant arena.Valid() && arena.nextId == old(arena.nextId)
      invariant arena.entries == Touch(before, done, Child(child)) && arena.entries.Keys == before.Keys
      decreases todo
    {
      var id :| id in todo;
      TouchStep(before, done, Child(child), id);
      arena.AddChild(id, child);
      done, todo := done + {id}, todo - {id};
    }
    assert done == ids;
  }

  method GrowAncestors(arena: Arena, ids: set<Id>, ws: Workspace)
    requires arena.Valid() && ids <= arena.entries.Keys
    modifies arena
    ensures arena.Valid() && arena.nextId == old(arena.nextId)
    ensures arena.entries == Touch(old(arena.entries), ids, Above(ws))
  {
    hide Arena.Valid, Touch, WithAncestors, VsizeOf;
    ghost var before, done := arena.entries, {};
    var todo := ids;
    TouchNothing(before, Above(ws));
    while todo != {}
      invariant done + todo == ids && done !! todo
      invariant arena.Valid() && arena.nextId == old(arena.nextId)
      invariant arena.entries == Touch(before, done, Above(ws)) && arena.entries.Keys == before.Keys
      decreases todo
    {
      var id :| id in todo;
      TouchStep(before, done, Above(ws), id);
      arena.EntryIsSized(id);
      arena.UpdateAncestorState(id, VsizeOf(ws.tx), ws.modifiedFee, 1, ws.sigopCost);
      done, todo := done + {id}, todo - {id};
    }
    assert done == ids;
  }

  method GrowDescendants(arena: Arena, ids: set<Id>, ws: Workspace)
    requires arena.Valid() && ids <= arena.entries.Keys
    modifies arena
    ensures arena.Valid() && arena.nextId == old(arena.nextId)
    ensures arena.entries == Touch(old(arena.entries), ids, Below(ws))
  {
    hide Arena.Valid, Touch, WithDescendants, VsizeOf;
    ghost var before, done := arena.entries, {};
    var todo := ids;
    TouchNothing(before, Below(ws));
    while todo != {}
      invariant done + todo == ids && done !! todo
      invariant arena.Valid() && arena.nextId == old(arena.nextId)
      invariant arena.entries == Touch(before, done, Below(ws)) && arena.entries.Keys == before.Keys
      decreases todo
    {
      var id :| id in todo;
      TouchStep(before, done, Below(ws), id);
      arena.EntryIsSized(id);
      arena.UpdateDescendantState(id, VsizeOf(ws.tx), ws.modifiedFee, 1);
      done, todo := done + {id}, todo - {id};
    }
    assert done == ids;
  }

  lemma {:induction false} TouchedIsAccepted(entries: Entries, id: Id, ws: Workspace, ids: set<Id>)
    requires AllSized(entries) && VsizeOf(ws.tx) > 1 && id !in entries
    requires ids == AncestorIds(entries, ws.tx) <= entries.Keys
    ensures Touch(Touch(Touch(entries[id := Rekey(NewEntry(entries, ws))], ids, Child(id)), ids, Above(ws)), ids, Below(ws))
         == Accepted(entries, id, ws)
  {
    hide Apply, AncestorIds, NewEntry, Rekey;
  }

  /** Inserts the entry, links it below all its ancestors and adds it to their totals. */
  method InsertEntry(arena: Arena, ws: Workspace, e: Entry, ancestors: set<Id>) returns (id: Id)
    requires arena.Valid() && VsizeOf(ws.tx) > 1 && AllSized(arena.entries)
    requires e == NewEntry(arena.entries, ws) && ancestors == AncestorIds(arena.entries, ws.tx) <= arena.entries.Keys
    requires ws.tx.txid !in arena.byTxid && ws.tx.wtxid !in arena.byWtxid
    modifies arena
    ensures arena.Valid() && id == old(arena.nextId) && arena.nextId == id + 1
    ensures arena.entries == Accepted(old(arena.entries), id, ws) && JoinsAs(old(arena.entries), arena.entries, id, ws)
  {
    hide Arena.Valid, AncestorIds, Rekey, Accepted, AllSized, JoinsAs;
    arena.NextIsFresh();
    AcceptedSelf(arena.entries, arena.nextId, ws);
    TouchedIsAccepted(arena.entries, arena.nextId, ws, ancestors);
    id := arena.Insert(e);
    LinkChildren(arena, ancestors, id);
    GrowAncestors(arena, ancestors, ws);
    GrowDescendants(arena, ancestors, ws);
  }
}
