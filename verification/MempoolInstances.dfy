/** Small pools that keep every invariant, and where the code does not do what it is meant to. */
module MempoolInstances {
  import opened Bitcoin
  import opened Graphs
  import opened MempoolArena
  import opened MempoolGraph
  import opened MempoolSums
  import opened MempoolLinks
  import opened MempoolLimits
  import opened MempoolAccept
  import opened MempoolTotals
  import opened Mempool

  const DEFAULT_LIMITS: Limits := Limits(25, 101_000, 25, 101_000)

  /** A transaction of 100 virtual bytes. */
  function Joiner(txid: Txid, from: OutPoint, fee: nat, time: int): Workspace {
    Workspace(Transaction(txid, txid, [from], [], 0, 100, 400), fee, fee, 0, LockPoints(0, 0, None), false, time, 0)
  }

  /** The entry of such a transaction when nothing is above or below it. */
  predicate Alone(e: Entry, ws: Workspace) {
    && e.tx == ws.tx && e.modifiedFee == ws.modifiedFee && e.time == ws.time && e.parents == {} && Vsize(e) == 100
    && e.countWithAncestors == 1 && e.sizeWithAncestors == 100 && e.feesWithAncestors == ws.modifiedFee
    && e.countWithDescendants == 1 && e.sizeWithDescendants == 100 && e.feesWithDescendants == ws.modifiedFee
  }

  lemma {:induction false} NewTime(entries: Entries, id: Id, ws: Workspace)
    requires AllSized(entries) && VsizeOf(ws.tx) > 1
    ensures Accepted(entries, id, ws)[id].time == ws.time
  {
    hide AncestorIds, ParentIds, SumOver, Bumped, ComputeAncestorKey, ComputeDescendantKey;
  }

  lemma {:induction false} BumpedKeeps(e: Entry, id: Id, ws: Workspace)
    requires Sized(e)
    ensures Bumped(e, id, ws).time == e.time && Bumped(e, id, ws).parents == e.parents
    ensures id in Bumped(e, id, ws).children
    ensures Sized(Bumped(e, id, ws))
  {
    hide ComputeAncestorKey, ComputeDescendantKey;
  }

  lemma {:induction false} NobodyAbove(pool: Entries, tx: Transaction)
    requires ParentIds(pool, tx.inputs) == {}
    ensures AncestorIds(pool, tx) == {}
  {
    hide Closure, ParentIds;
    ClosureOfClosed(ParentGraph(pool), {});
  }

  lemma {:induction false} OneAbove(pool: Entries, tx: Transaction, p: Id)
    requires p in pool && ParentIds(pool, tx.inputs) == {p} && pool[p].parents == {}
    ensures AncestorIds(pool, tx) == {p}
  {
    hide Closure, ParentIds;
    ClosureOfClosed(ParentGraph(pool), {p});
  }

  lemma {:induction false} OthersStay(pool: Entries, id: Id, ws: Workspace, i: Id)
    requires AllSized(pool) && VsizeOf(ws.tx) > 1 && i in pool && i != id
    ensures Accepted(pool, id, ws)[i] == if i in AncestorIds(pool, ws.tx) then Bumped(pool[i], id, ws) else pool[i]
  {
    hide AncestorIds, Bumped, NewEntry, Rekey;
  }

  /** A transaction without parents in the pool joins it and changes nobody else. */
  lemma {:induction false} JoinsAlone(pool: Entries, id: Id, ws: Workspace)
    requires Shape(pool, id, DEFAULT_LIMITS) && AllSized(pool) && id !in pool && VsizeOf(ws.tx) == 100
    requires ParentIds(pool, ws.tx.inputs) == {}
    ensures var after := Accepted(pool, id, ws);
            && Shape(after, id + 1, DEFAULT_LIMITS) && AllSized(after) && after.Keys == pool.Keys + {id}
            && Alone(after[id], ws) && forall i :: i in pool ==> after[i] == pool[i]
  {
    hide Shape, AncestorIds, ParentIds, SumOver, Accepted, VsizeOf;
    var after := Accepted(pool, id, ws);
    NobodyAbove(pool, ws.tx);
    SumEmpty(pool, Vsize);
    SumEmpty(pool, ModifiedFee);
    assert RoomFor(pool, {}, VsizeOf(ws.tx), DEFAULT_LIMITS);
    JoinKeepsShape(pool, id, ws, DEFAULT_LIMITS);
    AcceptedKeys(pool, id, ws);
    NewFields(pool, id, ws);
    NewTime(pool, id, ws);
    forall i | i in pool ensures after[i] == pool[i] { OthersStay(pool, id, ws, i); }
  }

  lemma {:induction false} Nothing()
    ensures var none: Entries := map[];
            Shape(none, 0, DEFAULT_LIMITS) && AllSized(none) && forall ops :: ParentIds(none, ops) == {}
  {
    hide Shape;
    EmptyPool(DEFAULT_LIMITS);
  }

  // ----- A parent and its child -----

  const PARENT: Workspace := Joiner(7, OutPoint(100, 0), 100, 0)
  const CHILD: Workspace := Joiner(8, OutPoint(7, 0), 10, 100)

  ghost function ParentOnly(): Entries {
    Accepted(map[], 0, PARENT)
  }

  lemma {:induction false} ParentJoins()
    ensures Shape(ParentOnly(), 1, DEFAULT_LIMITS) && AllSized(ParentOnly()) && ParentOnly().Keys == {0}
    ensures Alone(ParentOnly()[0], PARENT)
  {
    hide Shape, Accepted, ParentIds, Alone;
    Nothing();
    JoinsAlone(map[], 0, PARENT);
  }

  ghost function ParentAndChild(): Entries
    requires AllSized(ParentOnly())
  {
    Accepted(ParentOnly(), 1, CHILD)
  }

  lemma {:induction false} ChildRoom(pool: Entries)
    requires pool.Keys == {0} && Alone(pool[0], PARENT)
    ensures RoomFor(pool, {0}, VsizeOf(CHILD.tx), DEFAULT_LIMITS)
  {
    hide SumOver;
    SumEmpty(pool, Vsize);
    SumAdd(pool, {}, Vsize, 0);
    assert {} + {0} == {0};
  }

  predicate IsChild(e: Entry) {
    && e.tx == CHILD.tx && e.parents == {0} && e.time == 100
    && e.countWithDescendants == 1 && e.sizeWithDescendants == 100
  }

  lemma {:induction false} ChildJoins()
    ensures AllSized(ParentOnly()) && Shape(ParentAndChild(), 2, DEFAULT_LIMITS) && AllSized(ParentAndChild())
    ensures ParentAndChild().Keys == {0, 1} && ParentAndChild()[0] == Bumped(ParentOnly()[0], 1, CHILD)
    ensures IsChild(ParentAndChild()[1])
  {
    ParentJoins();
    hide Shape, AncestorIds, SumOver, ParentOnly, Bumped, Accepted, VsizeOf;
    var pool := ParentOnly();
    assert CHILD.tx.inputs[0].txid == 7;
    assert ParentIds(pool, CHILD.tx.inputs) == {0};
    hide ParentIds;
    OneAbove(pool, CHILD.tx, 0);
    ChildRoom(pool);
    SizeOfJoiner(CHILD);
    JoinKeepsShape(pool, 1, CHILD, DEFAULT_LIMITS);
    AcceptedKeys(pool, 1, CHILD);
    OthersStay(pool, 1, CHILD, 0);
    NewFields(pool, 1, CHILD);
    NewTime(pool, 1, CHILD);
    BumpedKeeps(pool[0], 1, CHILD);
    SumMonotone(pool, {0}, {0}, Vsize);
    assert AllSized(ParentAndChild());
  }

  lemma {:induction false} SizeOfJoiner(ws: Workspace)
    requires ws.tx.weight == 400
    ensures VsizeOf(ws.tx) == 100
  {
  }

  /** In this pool, which keeps every invariant, the parent's ancestor count is 2 although it has no ancestor but
      itself. */
  lemma {:induction false} ParentCountsItsChild()
    ensures AllSized(ParentOnly()) && Shape(ParentAndChild(), 2, DEFAULT_LIMITS) && 0 in ParentAndChild()
    ensures ParentAndChild()[0].countWithAncestors == 2 && |Ancestors(ParentAndChild(), 0)| == 1
  {
    hide Accepted, ParentOnly, Bumped, Ancestors, SumOver, Linked, WithinLimits;
    ChildJoins();
    ParentJoins();
    BumpedTotals(ParentOnly()[0], 1, CHILD);
    assert TotalsOf(ParentAndChild(), 0);
  }

  // ----- Expiry -----

  const GRANDCHILD: Workspace := Joiner(9, OutPoint(8, 0), 10, 200)

  lemma {:induction false} ClosureOfLink(g: Graph<Id>, a: Id, b: Id)
    requires Successors(g, a) == {b} && Successors(g, b) == {}
    ensures Closure(g, {a}) == {a, b}
  {
    hide Closure;
    ClosureIsClosed(g, {a});
    ClosureIsLeast(g, {a}, {a, b});
    assert a in Closure(g, {a});
  }

  lemma {:induction false} SpendsFromNone(pool: Entries, op: OutPoint)
    requires forall j :: j in pool ==> pool[j].tx.txid != op.txid
    ensures ParentIds(pool, [op]) == {}
  {
  }

  lemma {:induction false} SpendsFromOne(pool: Entries, op: OutPoint, i: Id)
    requires i in pool && forall j :: j in pool ==> (pool[j].tx.txid == op.txid <==> j == i)
    ensures ParentIds(pool, [op]) == {i}
  {
    assert [op][0] == op;
  }

  lemma {:induction false} OrphanIsAbove(left: Entries)
    requires left.Keys == {1} && IsChild(left[1])
    ensures AncestorIds(left, GRANDCHILD.tx) == {0, 1}
  {
    hide Closure, ParentIds;
    SpendsFromOne(left, OutPoint(8, 0), 1);
    ClosureOfLink(ParentGraph(left), 1, 0);
  }

  lemma {:induction false} OrphanHasRoom(left: Entries)
    requires left.Keys == {1} && IsChild(left[1])
    ensures RoomFor(left, {0, 1}, VsizeOf(GRANDCHILD.tx), DEFAULT_LIMITS)
  {
    hide SumOver;
    SumEmpty(left, Vsize);
    SumSkips(left, {}, Vsize, 0);
    SumAdd(left, {} + {0}, Vsize, 1);
    assert {} + {0} + {1} == {0, 1};
  }

  /** Expiring what is older than time 50 takes the parent and leaves the child with a parent that is gone. */
  lemma {:induction false} ExpiryOrphansChild()
    ensures AllSized(ParentOnly()) && Shape(ParentAndChild(), 2, DEFAULT_LIMITS)
    ensures OlderThan(ParentAndChild(), 50) == {0} && !Linked(ParentAndChild() - {0}, 2)
  {
    hide Accepted, ParentOnly, Bumped, Ancestors, SumOver, WithinLimits, TotalsKept, Linked;
    ChildJoins();
    ParentJoins();
    BumpedKeeps(ParentOnly()[0], 1, CHILD);
    var pool := ParentAndChild();
    assert OlderThan(pool, 50) == {0};
    assert !DescentClosed(pool, {0});
    LinksSurviveIff(pool, 2, {0});
  }

  /** The next transaction to spend from the child then has a dead ancestor and room below the live one: the look-up
      of its ancestors panics. */
  lemma {:induction false} OrphanPanics()
    ensures AllSized(ParentOnly())
    ensures var left := ParentAndChild() - OlderThan(ParentAndChild(), 50);
            && !(AncestorIds(left, GRANDCHILD.tx) <= left.Keys)
            && RoomFor(left, AncestorIds(left, GRANDCHILD.tx), VsizeOf(GRANDCHILD.tx), DEFAULT_LIMITS)
  {
    hide Accepted, Bumped, AncestorIds, SumOver, RoomFor, Shape, Linked, OlderThan, VsizeOf;
    ExpiryOrphansChild();
    ChildJoins();
    var left := ParentAndChild() - {0};
    assert left.Keys == {1};
    OrphanIsAbove(left);
    OrphanHasRoom(left);
  }

  // ----- Mining order -----

  const STRANGER: Workspace := Joiner(9, OutPoint(101, 0), 60, 0)

  ghost function WithStranger(): Entries
    requires AllSized(ParentOnly()) && AllSized(ParentAndChild())
  {
    Accepted(ParentAndChild(), 2, STRANGER)
  }

  lemma {:induction false} StrangerJoins()
    ensures AllSized(ParentOnly()) && AllSized(ParentAndChild()) && Shape(WithStranger(), 3, DEFAULT_LIMITS)
    ensures WithStranger().Keys == {0, 1, 2} && AllSized(WithStranger())
    ensures Alone(WithStranger()[2], STRANGER) && WithStranger()[0] == Bumped(ParentOnly()[0], 1, CHILD)
  {
    hide Accepted, ParentOnly, Bumped, Shape, AllSized, Alone, ParentIds, VsizeOf;
    ChildJoins();
    ParentTx();
    var pool := ParentAndChild();
    SpendsFromNone(pool, OutPoint(101, 0));
    SizeOfJoiner(STRANGER);
    JoinsAlone(pool, 2, STRANGER);
  }

  lemma {:induction false} ParentTx()
    ensures AllSized(ParentOnly()) && 0 in ParentAndChild() && ParentAndChild()[0].tx == PARENT.tx
  {
    hide Accepted, ParentOnly, Bumped, Shape;
    ChildJoins();
    ParentJoins();
    BumpedTotals(ParentOnly()[0], 1, CHILD);
  }

  /** The true ancestor score, from the cached totals. */
  lemma {:induction false} TrueScoreOf(pool: Entries, nextId: Id, i: Id, fees: nat, size: int)
    requires Shape(pool, nextId, DEFAULT_LIMITS) && i in pool && Sized(pool[i])
    requires fees == pool[i].feesWithAncestors - pool[i].feesWithDescendants + pool[i].modifiedFee
    requires size == pool[i].sizeWithAncestors - pool[i].sizeWithDescendants + Vsize(pool[i]) > 0
    ensures HasTrueScore(pool, i)
    ensures TrueScore(pool, i) == LowerOf(Feerate(pool[i].modifiedFee, Vsize(pool[i])), Feerate(fees, size))
  {
    hide Linked, WithinLimits, Ancestors, SumOver, Feerate, VsizeOf, ParentsLive;
    ShapeHasLinks(pool, nextId, DEFAULT_LIMITS);
    assert TotalsOf(pool, i);
    TrueScoreExists(pool, i);
  }

  lemma {:induction false} Rates()
    ensures Feerate(100, 100) == 1_000_000 && Feerate(110, 200) == 550_000 && Feerate(60, 100) == 600_000
    ensures Feerate(10, 100) == 100_000 && Feerate(1000, 100) == 10_000_000
  {
  }

  /** In this pool the parent has the higher true ancestor score, and is listed after the stranger. */
  lemma {:induction false} StrangerOvertakes()
    ensures AllSized(ParentOnly()) && AllSized(ParentAndChild()) && Shape(WithStranger(), 3, DEFAULT_LIMITS)
    ensures var pool := WithStranger();
            && 0 in pool && 2 in pool && HasTrueScore(pool, 0) && HasTrueScore(pool, 2) && Sized(pool[0])
            && Sized(pool[2])
            && TrueScore(pool, 0) == 1_000_000 && TrueScore(pool, 2) == 600_000
            && AncestorScore(pool[0]) == 550_000 && AncestorScore(pool[2]) == 600_000
  {
    hide Accepted, ParentOnly, Bumped, Shape, Feerate, HasTrueScore, TrueScore, VsizeOf;
    StrangerJoins();
    ParentJoins();
    BumpedTotals(ParentOnly()[0], 1, CHILD);
    SizeOfJoiner(CHILD);
    var pool := WithStranger();
    TrueScoreOf(pool, 3, 0, 100, 100);
    TrueScoreOf(pool, 3, 2, 60, 100);
    Rates();
  }

  // ----- Eviction -----

  const CHEAP: Workspace := Joiner(7, OutPoint(100, 0), 10, 0)
  const DEAR: Workspace := Joiner(8, OutPoint(101, 0), 1000, 0)

  ghost function CheapOnly(): Entries {
    Accepted(map[], 0, CHEAP)
  }

  ghost function CheapAndDear(): Entries
    requires AllSized(CheapOnly())
  {
    Accepted(CheapOnly(), 1, DEAR)
  }

  lemma {:induction false} BothJoin()
    ensures AllSized(CheapOnly()) && Shape(CheapAndDear(), 2, DEFAULT_LIMITS) && AllSized(CheapAndDear())
    ensures CheapAndDear().Keys == {0, 1} && Alone(CheapAndDear()[0], CHEAP) && Alone(CheapAndDear()[1], DEAR)
  {
    hide Shape, Accepted, AllSized, VsizeOf, ParentIds;
    Nothing();
    SizeOfJoiner(CHEAP);
    SizeOfJoiner(DEAR);
    JoinsAlone(map[], 0, CHEAP);
    SpendsFromNone(CheapOnly(), OutPoint(101, 0));
    JoinsAlone(CheapOnly(), 1, DEAR);
  }

  lemma {:induction false} AloneScore(e: Entry, ws: Workspace)
    requires Alone(e, ws) && Sized(e)
    ensures DescendantScore(e) == Feerate(ws.modifiedFee, 100)
  {
    hide Feerate, VsizeOf;
  }

  /** Two unrelated transactions of one size. The one that pays a hundred times as much is evicted first. */
  lemma {:induction false} DearGoesFirst()
    ensures AllSized(CheapOnly()) && Shape(CheapAndDear(), 2, DEFAULT_LIMITS)
    ensures HasTopScore(CheapAndDear(), 1) && !HasTopScore(CheapAndDear(), 0) && !HasBottomScore(CheapAndDear(), 1)
  {
    hide Shape, Accepted, Feerate, DescendantScore, Sized, Alone;
    BothJoin();
    var pool := CheapAndDear();
    AloneScore(pool[0], CHEAP);
    AloneScore(pool[1], DEAR);
    Rates();
  }
}
