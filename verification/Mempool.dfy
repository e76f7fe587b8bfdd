/** The transaction pool: accepting single transactions and removing sets closed under descent. */
module Mempool {
  import opened Bitcoin
  import opened Graphs
  import opened MempoolArena
  import opened MempoolGraph
  import opened MempoolSums
  import opened MempoolLinks
  import opened MempoolLimits
  import opened MempoolSpends
  import opened MempoolAccept
  import opened MempoolTotals

  datatype Error =
    | Rejected | AlreadyInMempool | TxConflict | FeeOverflow
    | NoConflictToReplace | TooManyReplacements(count: int) | TxNotReplaceable | MissingConflict
    | NewUnconfirmedInput | InsufficientFee
    | TooManyAncestors(count: int) | AncestorSizeTooLarge(size: int)
    | TooManyDescendants(count: int) | DescendantSizeTooLarge(size: int)

  predicate HasRoomBelow(e: Entry, vsize: nat, limits: Limits) {
    e.countWithDescendants + 1 <= limits.maxDescendants && e.sizeWithDescendants + vsize <= limits.maxDescendantSize
  }

  ghost predicate RoomBelowLive(entries: Entries, ids: set<Id>, vsize: nat, limits: Limits) {
    forall a :: a in ids && a in entries ==> HasRoomBelow(entries[a], vsize, limits)
  }

  lemma {:induction false} RoomIsRoomBelow(entries: Entries, ids: set<Id>, vsize: nat, limits: Limits)
    ensures RoomFor(entries, ids, vsize, limits) <==>
              && |ids| + 1 <= limits.maxAncestors && vsize + SumOver(entries, ids, Vsize) <= limits.maxAncestorSize
              && RoomBelowLive(entries, ids, vsize, limits)
  {
    hide SumOver;
  }

  /** The spend map, the unbroadcast set and the total size agree with the live entries. */
  ghost predicate Books(entries: Entries, next: SpendMap, unbroadcast: set<Txid>, totalTxSize: int) {
    && SpendsTracked(entries, next)
    && OnlyLive(entries, unbroadcast)
    && totalTxSize == Total(entries, Weight)
  }

  /** Links mean descent, no entry exceeds the limits, and cached totals are what they count. */
  ghost predicate Shape(entries: Entries, nextId: Id, limits: Limits) {
    Linked(entries, nextId) && WithinLimits(entries, limits) && TotalsKept(entries)
  }

  lemma {:induction false} EmptyPool(limits: Limits)
    ensures Books(map[], map[], {}, 0) && Shape(map[], 0, limits) && Total(map[], BaseFee) == 0
  {
  }

  lemma {:induction false} UnbroadcastIsLive(entries: Entries, next: SpendMap, unbroadcast: set<Txid>, totalTxSize: int)
    requires Books(entries, next, unbroadcast, totalTxSize)
    ensures OnlyLive(entries, unbroadcast) && KeepLive(entries, unbroadcast) == unbroadcast
  {
  }

  lemma {:induction false} BooksAfterRemoval(entries: Entries, next: SpendMap, unbroadcast: set<Txid>, totalTxSize: int,
                                             id: Id)
    requires DistinctLive(entries) && Books(entries, next, unbroadcast, totalTxSize) && id in entries
    ensures var e := entries[id];
            Books(entries - {id}, next - Elements(e.tx.inputs), unbroadcast - {e.tx.txid}, totalTxSize - e.tx.weight)
  {
    hide SpendsTracked, OnlyLive, Total;
    TotalDrop(entries, Weight, id);
    TrackRemoval(entries, next, id);
    OnlyLiveRemoval(entries, unbroadcast, id);
  }

  lemma {:induction false} RemovalKeepsShape(entries: Entries, nextId: Id, s: set<Id>, limits: Limits)
    requires Shape(entries, nextId, limits) && DescentClosed(entries, s)
    ensures Shape(entries - s, nextId, limits)
  {
    hide Linked, WithinLimits, TotalsKept, DescentClosed;
    RemovalKeepsLinks(entries, nextId, s);
    RemovalKeepsLimits(entries, nextId, s, limits);
    RemovalKeepsTotals(entries, nextId, s);
  }

  function OlderThan(entries: Entries, cutoff: int): set<Id> {
    set i | i in entries && entries[i].time < cutoff
  }

  lemma {:induction false} OlderIff(entries: Entries, cutoff: int)
    ensures forall i :: i in entries ==> (i in OlderThan(entries, cutoff) <==> !(entries[i].time >= cutoff))
  {
  }

  /** The entries after clusters have been evicted one after the other. */
  ghost function Evicted(entries: Entries, heads: seq<Id>): Entries {
    if heads == [] then entries else
      var before := Evicted(entries, heads[..|heads| - 1]);
      before - Closure(ChildGraph(before), {heads[|heads| - 1]})
  }

  /** The pool is too large, and no live entry comes before this one in the descendant index. */
  ghost predicate Overdue(entries: Entries, head: Id, maxSize: nat) {
    Total(entries, Weight) > maxSize && HasTopScore(entries, head)
  }

  lemma {:induction false} NoneEvicted(entries: Entries, maxSize: nat)
    ensures Evicted(entries, []) == entries && EachOverdue(entries, [], maxSize)
  {
  }

  lemma {:induction false} EvictOneMore(entries: Entries, heads: seq<Id>, head: Id, now: Entries)
    requires now == Evicted(entries, heads)
    ensures Evicted(entries, heads + [head]) == now - Closure(ChildGraph(now), {head})
  {
  }

  /** Each head was overdue when its turn came. */
  ghost predicate EachOverdue(entries: Entries, heads: seq<Id>, maxSize: nat) {
    forall k :: 0 <= k < |heads| ==> Overdue(Evicted(entries, heads[..k]), heads[k], maxSize)
  }

  lemma {:induction false} OverdueOneMore(entries: Entries, heads: seq<Id>, head: Id, maxSize: nat)
    requires EachOverdue(entries, heads, maxSize) && Overdue(Evicted(entries, heads), head, maxSize)
    ensures EachOverdue(entries, heads + [head], maxSize)
  {
    hide Overdue, Evicted;
    var more := heads + [head];
    forall k | 0 <= k < |more| ensures Overdue(Evicted(entries, more[..k]), more[k], maxSize) {
      if k < |heads| { assert more[..k] == heads[..k]; } else { assert more[..k] == heads; }
    }
  }

  /** Every cluster that went was headed by an entry of lowest score at that time. */
  ghost predicate EvictsLowest(entries: Entries, heads: seq<Id>) {
    forall k :: 0 <= k < |heads| ==> HasBottomScore(Evicted(entries, heads[..k]), heads[k])
  }

  ghost predicate PartOf(part: Entries, entries: Entries) {
    forall i :: i in part ==> i in entries && part[i] == entries[i]
  }

  lemma {:induction false} EvictedIsPart(entries: Entries, heads: seq<Id>)
    ensures PartOf(Evicted(entries, heads), entries)
  {
    hide Closure, ChildGraph;
    if heads != [] { EvictedIsPart(entries, heads[..|heads| - 1]); }
  }

  /** Eviction goes by lowest score exactly when there is nothing to evict or all scores are the same to begin with. */
  lemma {:induction false} EvictsLowestIff(entries: Entries, heads: seq<Id>, maxSize: nat)
    requires EachOverdue(entries, heads, maxSize)
    ensures EvictsLowest(entries, heads) <==> heads == [] || SameScores(entries)
  {
    hide Evicted, HasTopScore, HasBottomScore, DescendantScore, Sized;
    if heads != [] {
      NoneEvicted(entries, maxSize);
      assert heads[..0] == [];
      forall k | 0 <= k < |heads|
        ensures HasBottomScore(Evicted(entries, heads[..k]), heads[k]) <==> SameScores(Evicted(entries, heads[..k]))
      {
        assert Overdue(Evicted(entries, heads[..k]), heads[k], maxSize);
        TopIsBottomIff(Evicted(entries, heads[..k]), heads[k]);
      }
      if SameScores(entries) {
        forall k | 0 <= k < |heads| ensures HasBottomScore(Evicted(entries, heads[..k]), heads[k]) {
          EvictedIsPart(entries, heads[..k]);
        }
      } else {
        assert !HasBottomScore(Evicted(entries, heads[..0]), heads[0]);
      }
    }
  }

  lemma {:induction false} TooLargeIsOverdue(entries: Entries, next: SpendMap, unbroadcast: set<Txid>, totalTxSize: int,
                                             head: Id, maxSize: nat)
    requires Books(entries, next, unbroadcast, totalTxSize) && totalTxSize > maxSize && HasTopScore(entries, head)
    ensures Overdue(entries, head, maxSize)
  {
    hide HasTopScore, SpendsTracked, OnlyLive;
  }

  lemma {:induction false} EmptyHasNoSize(entries: Entries, next: SpendMap, unbroadcast: set<Txid>, totalTxSize: int)
    requires Books(entries, next, unbroadcast, totalTxSize) && entries == map[]
    ensures totalTxSize == 0
  {
  }

  ghost predicate Spends(e: Entry, ops: seq<OutPoint>) {
    exists op :: op in ops && op in e.tx.inputs
  }

  /** The live entries that spend one of these outpoints. */
  ghost function Spenders(entries: Entries, ops: seq<OutPoint>): set<Id> {
    set i | i in entries && Spends(entries[i], ops)
  }

  lemma {:induction false} SpendersPush(entries: Entries, ops: seq<OutPoint>, op: OutPoint)
    ensures Spenders(entries, ops + [op]) == Spenders(entries, ops) + Spenders(entries, [op])
  {
  }

  /** The spend map and the txid index lead to the one entry that spends an outpoint. */
  lemma {:induction false} SpenderIsFound(entries: Entries, next: SpendMap, byTxid: map<Txid, Id>, op: OutPoint)
    requires SpendsTracked(entries, next) && HashIndex(entries, TxidOf, byTxid)
    ensures op in next ==> next[op] in byTxid && Spenders(entries, [op]) == {byTxid[next[op]]}
    ensures op !in next ==> Spenders(entries, [op]) == {}
  {
  }

  lemma {:induction false} NoSpenders(entries: Entries)
    ensures Spenders(entries, []) == {}
  {
  }

  ghost predicate Touched(e: Entry, txs: seq<Transaction>) {
    exists tx :: tx in txs && (e.tx.txid == tx.txid || Spends(e, tx.inputs))
  }

  ghost function TouchedBy(entries: Entries, txs: seq<Transaction>): set<Id> {
    set i | i in entries && Touched(entries[i], txs)
  }

  lemma {:induction false} NothingTouched(entries: Entries)
    ensures TouchedBy(entries, []) == {}
  {
  }

  lemma {:induction false} TouchedByPush(entries: Entries, byTxid: map<Txid, Id>, txs: seq<Transaction>,
                                         tx: Transaction)
    requires HashIndex(entries, TxidOf, byTxid)
    ensures TouchedBy(entries, txs + [tx])
         == TouchedBy(entries, txs) + (if tx.txid in byTxid then {byTxid[tx.txid]} else {}) + Spenders(entries, tx.inputs)
  {
    hide Spends;
    forall i | i in entries
      ensures Touched(entries[i], txs + [tx]) <==>
                Touched(entries[i], txs) || entries[i].tx.txid == tx.txid || Spends(entries[i], tx.inputs)
    {
      if x :| x in txs && (entries[i].tx.txid == x.txid || Spends(entries[i], x.inputs)) { assert x in txs + [tx]; }
      assert tx in txs + [tx];
    }
  }

  ghost predicate Clashes(e: Entry, txs: seq<Transaction>) {
    exists tx :: tx in txs && Spends(e, tx.inputs)
  }

  ghost function ClashingWith(entries: Entries, txs: seq<Transaction>): set<Id> {
    set i | i in entries && Clashes(entries[i], txs)
  }

  lemma {:induction false} ClashingPush(entries: Entries, txs: seq<Transaction>, tx: Transaction)
    ensures ClashingWith(entries, txs + [tx]) == ClashingWith(entries, txs) + Spenders(entries, tx.inputs)
  {
  }

  /** What `remove_for_reorg` knows of the new tip. */
  datatype Tip = Tip(height: nat, medianTimePast: int, onActiveChain: nat -> bool)

  predicate Invalid(e: Entry, tip: Tip) {
    || (e.lockPoints.height > 0 && e.lockPoints.height > tip.height)
    || (e.lockPoints.time > 0 && e.lockPoints.time > tip.medianTimePast)
    || (e.lockPoints.maxInputBlock.Some? && !tip.onActiveChain(e.lockPoints.maxInputBlock.value))
    || (e.spendsCoinbase && tip.height < e.entryHeight + COINBASE_MATURITY)
  }

  ghost function InvalidAt(entries: Entries, tip: Tip): set<Id> {
    set i | i in entries && Invalid(entries[i], tip)
  }

  lemma {:induction false} AllEntriesSized(arena: Arena)
    requires arena.Valid()
    ensures AllSized(arena.entries)
  {
  }

  lemma {:induction false} EntryIsNew(entries: Entries, ws: Workspace, e: Entry)
    requires var above := AncestorIds(entries, ws.tx);
             var fees := ws.modifiedFee + SumOver(entries, above, ModifiedFee);
             var size, sigops := VsizeOf(ws.tx) + SumOver(entries, above, Vsize), ws.sigopCost + SumOver(entries, above, Sigops);
             fees >= 0 && e == EntryFor(ws, ParentIds(entries, ws.tx.inputs), |above| + 1, size, fees, sigops)
    ensures e == NewEntry(entries, ws)
  {
  }

  lemma {:induction false} JoinKeepsShape(entries: Entries, id: Id, ws: Workspace, limits: Limits)
    requires Shape(entries, id, limits) && AllSized(entries) && VsizeOf(ws.tx) > 1 && id !in entries
    requires RoomFor(entries, AncestorIds(entries, ws.tx), VsizeOf(ws.tx), limits)
    ensures Shape(Accepted(entries, id, ws), id + 1, limits)
  {
    AcceptedExtends(entries, id, ws);
    var entries' := Accepted(entries, id, ws);
    assert entries'[id].tx == ws.tx && entries'[id].parents == ParentIds(entries, ws.tx.inputs);
    hide Linked, WithinLimits, TotalsKept, RoomFor, Extends, Accepted, AncestorsOfNew, ParentIds, VsizeOf;
    ExtendKeepsLinks(entries, entries', id);
    ExtendKeepsLimits(entries, entries', id, limits);
    AcceptKeepsTotals(entries, id, ws);
  }

  /** One more entry; the others keep their transactions and fees. */
  ghost predicate OneMore(entries: Entries, entries': Entries, id: Id) {
    && id !in entries && entries'.Keys == entries.Keys + {id}
    && forall i :: i in entries ==> entries'[i].tx == entries[i].tx && entries'[i].fee == entries[i].fee
  }

  lemma {:induction false} TotalOneMore(entries: Entries, entries': Entries, id: Id, f: Entry -> nat)
    requires OneMore(entries, entries', id) && forall i :: i in entries ==> f(entries'[i]) == f(entries[i])
    ensures Total(entries', f) == Total(entries, f) + f(entries'[id])
  {
    hide Total;
    TotalPut(entries, f, id, entries'[id]);
    TotalSame(entries[id := entries'[id]], entries', f);
  }

  lemma {:induction false} FeesOneMore(entries: Entries, entries': Entries, id: Id)
    requires OneMore(entries, entries', id)
    ensures Total(entries', BaseFee) == Total(entries, BaseFee) + entries'[id].fee
  {
    hide Total;
    TotalOneMore(entries, entries', id, BaseFee);
  }

  lemma {:induction false} TrackOneMore(entries: Entries, entries': Entries, next: SpendMap, id: Id)
    requires OneMore(entries, entries', id) && SpendsTracked(entries, next)
    requires forall op :: op in entries'[id].tx.inputs ==> op !in next
    ensures SpendsTracked(entries', next + SpendsOfTx(entries'[id].tx))
  {
  }

  lemma {:induction false} FewerLive(entries: Entries, some: set<Txid>, all: set<Txid>)
    requires some <= all && OnlyLive(entries, all)
    ensures OnlyLive(entries, some)
  {
  }

  lemma {:induction false} BooksOneMore(entries: Entries, entries': Entries, next: SpendMap, unbroadcast: set<Txid>,
                                        totalTxSize: int, id: Id)
    requires OneMore(entries, entries', id) && Books(entries, next, unbroadcast, totalTxSize)
    requires forall op :: op in entries'[id].tx.inputs ==> op !in next
    ensures Books(entries', next + SpendsOfTx(entries'[id].tx), unbroadcast, totalTxSize + entries'[id].tx.weight)
    ensures Books(entries', next + SpendsOfTx(entries'[id].tx), unbroadcast + {entries'[id].tx.txid},
                  totalTxSize + entries'[id].tx.weight)
  {
    hide SpendsTracked, SpendsOfTx, OnlyLive, Total;
    TotalOneMore(entries, entries', id, Weight);
    TrackOneMore(entries, entries', next, id);
    OnlyLiveExtend(entries, entries', unbroadcast, id);
    FewerLive(entries', unbroadcast, unbroadcast + {entries'[id].tx.txid});
  }

  lemma {:induction false} AcceptedIsOneMore(entries: Entries, id: Id, ws: Workspace)
    requires AllSized(entries) && VsizeOf(ws.tx) > 1 && id !in entries
    ensures OneMore(entries, Accepted(entries, id, ws), id)
    ensures Accepted(entries, id, ws)[id].tx == ws.tx && Accepted(entries, id, ws)[id].fee == ws.baseFee
  {
    AcceptedExtends(entries, id, ws);
    var entries' := Accepted(entries, id, ws);
    assert entries'[id].tx == ws.tx && entries'[id].fee == ws.baseFee;
    hide Accepted, AncestorsOfNew, VsizeOf;
    forall i | i in entries ensures entries'[i].tx == entries[i].tx && entries'[i].fee == entries[i].fee {
      assert Grown(entries[i], entries'[i], id, i in AncestorsOfNew(entries, entries'[id].parents), Vsize(entries'[id]));
    }
  }

  /** `signalsRbf` reads the input sequence numbers, which this model does not carry. */
  datatype Options = Options(enableRbf: bool, maxReplacementTxs: nat, minRelayFeeRate: nat, signalsRbf: Transaction -> bool)

  /** What the relay rate, per thousand virtual bytes, asks for this size, rounded down. */
  function FeeAt(rate: nat, vsize: int): (fee: int)
    ensures 1000 * fee <= rate * vsize < 1000 * fee + 1000
  {
    rate * vsize / 1000
  }

  /** The live entries in conflict with a transaction and all their descendants, dead ids included. */
  ghost function Replaced(entries: Entries, tx: Transaction): set<Id> {
    Closure(ChildGraph(entries), Spenders(entries, tx.inputs))
  }

  /** The fees of some live entries and `fee` together do not fit 64 bits. */
  ghost predicate FeesExceed(entries: Entries, fee: nat) {
    exists ids :: fee + SumOver(entries, ids, ModifiedFee) >= U64_SIZE
  }

  lemma {:induction false} FeesOfExceed(entries: Entries, ids: set<Id>, fee: nat)
    requires fee + SumOver(entries, ids, ModifiedFee) >= U64_SIZE
    ensures FeesExceed(entries, fee)
  {
    hide SumOver;
  }

  /** The rules of BIP 125 as this pool states them. */
  ghost predicate MayReplace(entries: Entries, tx: Transaction, modifiedFee: nat, options: Options) {
    var all := Replaced(entries, tx);
    var fees := SumOver(entries, all, ModifiedFee);
    && Spenders(entries, tx.inputs) != {}
    && |all| <= options.maxReplacementTxs
    && (forall i :: i in Spenders(entries, tx.inputs) && i in entries ==> options.signalsRbf(entries[i].tx))
    && all <= entries.Keys && fees < U64_SIZE
    && ParentIds(entries, tx.inputs) <= all
    && modifiedFee > fees
    && modifiedFee - fees >= FeeAt(options.minRelayFeeRate, VsizeOf(tx))
    && modifiedFee - fees >= FeeAt(options.minRelayFeeRate, SumOver(entries, all, Vsize))
  }

  /** What an error about a replacement says, in the order of the checks. */
  ghost predicate RefusesReplacement(entries: Entries, tx: Transaction, modifiedFee: nat, options: Options, error: Error) {
    var all := Replaced(entries, tx);
    var fees := SumOver(entries, all, ModifiedFee);
    match error
    case NoConflictToReplace => Spenders(entries, tx.inputs) == {}
    case TooManyReplacements(n) => Spenders(entries, tx.inputs) != {} && n == |all| > options.maxReplacementTxs
    case TxNotReplaceable =>
      && |all| <= options.maxReplacementTxs
      && exists i :: i in Spenders(entries, tx.inputs) && i in entries && !options.signalsRbf(entries[i].tx)
    case MissingConflict => |all| <= options.maxReplacementTxs && !(all <= entries.Keys)
    case FeeOverflow => |all| <= options.maxReplacementTxs && fees >= 18_446_744_073_709_551_616
    case NewUnconfirmedInput => all <= entries.Keys && !(ParentIds(entries, tx.inputs) <= all)
    case InsufficientFee =>
      && all <= entries.Keys && ParentIds(entries, tx.inputs) <= all
      && (|| modifiedFee <= fees
          || modifiedFee - fees < FeeAt(options.minRelayFeeRate, VsizeOf(tx))
          || modifiedFee - fees < FeeAt(options.minRelayFeeRate, SumOver(entries, all, Vsize)))
    case _ => false
  }

  /** A transaction that pays nothing replaces nothing. */
  lemma {:induction false} FreeReplacesNothing(entries: Entries, tx: Transaction, options: Options)
    ensures !MayReplace(entries, tx, 0, options)
  {
    SumMonotone(entries, Replaced(entries, tx), Replaced(entries, tx), ModifiedFee);
  }

  /** What code outside this model says of a transaction: sanity, standardness and not being a coinbase; what its
      coins pay and lock, if all are available, mature and final; and whether its scripts pass. */
  datatype Facts = Facts(fee: nat, sigopCost: nat, lockPoints: LockPoints, spendsCoinbase: bool)

  datatype Checks = Checks(sane: bool, coins: Option<Facts>, scripts: bool)

  function Joining(tx: Transaction, facts: Facts, time: int, height: nat): Workspace {
    Workspace(tx, facts.fee, facts.fee, facts.sigopCost, facts.lockPoints, facts.spendsCoinbase, time, height)
  }

  /** The calls that change the pool. */
  datatype Call =
    | Accept(tx: Transaction, checks: Checks, options: Options, time: int, height: nat)
    | ConnectBlock(txs: seq<Transaction>)
    | DropConflicts(txs: seq<Transaction>)
    | Reorganise(tip: Tip)
    | Trim(maxSize: nat)
    | DropExpired(now: int, maxAge: int)

  /** A serialised transaction has more than one virtual byte, and its fee is a 64-bit amount. */
  predicate RealCall(call: Call) {
    call.Accept? ==> VsizeOf(call.tx) > 1 && (call.checks.coins.Some? ==> call.checks.coins.value.fee < U64_SIZE)
  }

  /** The entry is the one that this call asked for. */
  ghost predicate AdmittedBy(call: Call, e: Entry) {
    && call.Accept? && call.checks.coins.Some?
    && var facts := call.checks.coins.value;
       && e.tx == call.tx && e.fee == facts.fee && e.modifiedFee == facts.fee && e.sigopCost == facts.sigopCost
       && e.lockPoints == facts.lockPoints && e.spendsCoinbase == facts.spendsCoinbase
       && e.time == call.time && e.entryHeight == call.height
  }

  /** What every entry left by a call satisfies. */
  ghost predicate Survives(e: Entry, call: Call) {
    match call
    case Accept(_, _, _, _, _) => true
    case Trim(_) => true
    case ConnectBlock(txs) => forall tx :: tx in txs ==> e.tx.txid != tx.txid && SharesNoInput(e.tx, tx)
    case DropConflicts(txs) => forall tx :: tx in txs ==> SharesNoInput(e.tx, tx)
    case DropExpired(now, maxAge) => e.time >= now - maxAge
    case Reorganise(tip) =>
      && (e.lockPoints.height > 0 ==> e.lockPoints.height <= tip.height)
      && (e.lockPoints.time > 0 ==> e.lockPoints.time <= tip.medianTimePast)
      && (e.lockPoints.maxInputBlock.Some? ==> tip.onActiveChain(e.lockPoints.maxInputBlock.value))
      && (e.spendsCoinbase ==> tip.height >= e.entryHeight + 100)
  }

  ghost predicate SharesNoInput(a: Transaction, b: Transaction) {
    forall op :: op in a.inputs ==> op !in b.inputs
  }

  /** An entry is gone exactly when it, or something it descends from, does not survive the call. */
  ghost predicate GoneIff(before: Entries, after: Entries, call: Call) {
    forall i :: i in before ==>
      (i !in after <==> exists j :: j in before && j in Ancestors(before, i) && !Survives(before[j], call))
  }

  lemma {:induction false} ClosureIsDescent(entries: Entries, nextId: Id, s: set<Id>, i: Id)
    requires Linked(entries, nextId) && s <= entries.Keys && i in entries
    ensures i in Closure(ChildGraph(entries), s) <==> exists j :: j in s && j in Ancestors(entries, i)
  {
    hide Linked, Closure, ChildGraph, Ancestors;
    var g := ChildGraph(entries);
    ClosureHas(g, s, i);
    forall j | j in s ensures Reach(g, j, i) <==> j in Ancestors(entries, i) {
      ClosureHas(g, {j}, i);
      assert ReachedFrom(g, {j}, i) <==> Reach(g, j, i);
      DescendantsOf(entries, nextId, j, i);
    }
  }

  /** The entry spends what the transaction spends, or descends from one that does. */
  ghost predicate FallsWith(entries: Entries, i: Id, tx: Transaction) {
    exists j :: j in entries && j in Ancestors(entries, i) && !SharesNoInput(entries[j].tx, tx)
  }

  ghost function FallingWith(entries: Entries, tx: Transaction): set<Id> {
    set i | i in entries && FallsWith(entries, i, tx)
  }

  lemma {:induction false} ReplacedAre(entries: Entries, nextId: Id, tx: Transaction)
    requires Linked(entries, nextId) && Replaced(entries, tx) <= entries.Keys
    ensures Replaced(entries, tx) == FallingWith(entries, tx)
  {
    forall i | i in entries ensures i in Spenders(entries, tx.inputs) <==> !SharesNoInput(entries[i].tx, tx) {}
    hide Linked, Closure, ChildGraph, Ancestors, SharesNoInput, Spenders;
    assert Spenders(entries, tx.inputs) <= entries.Keys by { SpendersAreLive(entries, tx.inputs); }
    forall i | i in entries ensures i in Replaced(entries, tx) <==> FallsWith(entries, i, tx) {
      ClosureIsDescent(entries, nextId, Spenders(entries, tx.inputs), i);
    }
  }

  lemma {:induction false} SpendersAreLive(entries: Entries, ops: seq<OutPoint>)
    ensures Spenders(entries, ops) <= entries.Keys
  {
  }

  lemma {:induction false} FeeAtMost(rate: nat, vsize: int, fee: int)
    ensures fee >= FeeAt(rate, vsize) <==> 1000 * fee + 1000 > rate * vsize
  {
    var asked := FeeAt(rate, vsize);
    hide FeeAt;
  }

  /** Some live entry is in conflict, every conflict agreed to be replaced, not too many entries fall, and the new
      transaction spends from nothing that stays. */
  ghost predicate MakesWay(entries: Entries, tx: Transaction, options: Options) {
    && (exists i :: i in entries && !SharesNoInput(entries[i].tx, tx))
    && |FallingWith(entries, tx)| <= options.maxReplacementTxs
    && (forall i :: i in entries && !SharesNoInput(entries[i].tx, tx) ==> options.signalsRbf(entries[i].tx))
    && (forall i :: i in entries && SpendsFrom(tx.inputs, entries[i].tx.txid) ==> i in FallingWith(entries, tx))
  }

  /** It pays more than all that falls, by the relay rate for the larger of the two. */
  ghost predicate Outbids(fee: int, lost: int, rate: nat, own: int, fallen: int) {
    && lost < 18_446_744_073_709_551_616 && lost < fee
    && 1000 * (fee - lost) + 1000 > rate * own && 1000 * (fee - lost) + 1000 > rate * fallen
  }

  lemma {:induction false} MakesWayIff(entries: Entries, tx: Transaction, options: Options)
    requires Replaced(entries, tx) == FallingWith(entries, tx)
    ensures MakesWay(entries, tx, options) <==>
      && Spenders(entries, tx.inputs) != {} && |Replaced(entries, tx)| <= options.maxReplacementTxs
      && (forall i :: i in Spenders(entries, tx.inputs) && i in entries ==> options.signalsRbf(entries[i].tx))
      && ParentIds(entries, tx.inputs) <= Replaced(entries, tx)
  {
    forall i ensures i in Spenders(entries, tx.inputs) <==> i in entries && !SharesNoInput(entries[i].tx, tx) {}
    hide Replaced, FallingWith, SharesNoInput, SpendsFrom, Spenders;
    var all := FallingWith(entries, tx);
    if MakesWay(entries, tx, options) {
      var i :| i in entries && !SharesNoInput(entries[i].tx, tx);
      assert i in Spenders(entries, tx.inputs);
    } else if Spenders(entries, tx.inputs) != {} {
      var i :| i in Spenders(entries, tx.inputs);
      assert i in entries && !SharesNoInput(entries[i].tx, tx);
    }
  }

  lemma {:induction false} OutbidsIff(fee: int, lost: int, rate: nat, own: int, fallen: int)
    ensures Outbids(fee, lost, rate, own, fallen) <==>
              lost < U64_SIZE && fee > lost && fee - lost >= FeeAt(rate, own) && fee - lost >= FeeAt(rate, fallen)
  {
    hide FeeAt;
    FeeAtMost(rate, own, fee - lost);
    FeeAtMost(rate, fallen, fee - lost);
  }

  /** The replacement rules, spelled out for a pool whose links are sound; besides, nothing dead may linger below the
      conflicts. */
  lemma {:induction false} ReplacesIff(entries: Entries, nextId: Id, tx: Transaction, fee: nat, options: Options)
    requires Linked(entries, nextId)
    ensures MayReplace(entries, tx, fee, options) <==>
      && Replaced(entries, tx) <= entries.Keys && MakesWay(entries, tx, options)
      && Outbids(fee, SumOver(entries, FallingWith(entries, tx), ModifiedFee), options.minRelayFeeRate, VsizeOf(tx),
                 SumOver(entries, FallingWith(entries, tx), Vsize))
  {
    hide Linked, Replaced, FallingWith, Spenders, SumOver, FeeAt, VsizeOf, MakesWay, Outbids, ParentIds;
    if Replaced(entries, tx) <= entries.Keys {
      ReplacedAre(entries, nextId, tx);
      MakesWayIff(entries, tx, options);
      OutbidsIff(fee, SumOver(entries, FallingWith(entries, tx), ModifiedFee), options.minRelayFeeRate, VsizeOf(tx),
                 SumOver(entries, FallingWith(entries, tx), Vsize));
    }
  }

  lemma {:induction false} RemovedIsGone(entries: Entries, nextId: Id, s: set<Id>, call: Call)
    requires Linked(entries, nextId)
    requires forall j :: j in s <==> j in entries && !Survives(entries[j], call)
    ensures GoneIff(entries, entries - Closure(ChildGraph(entries), s), call)
  {
    hide Linked, Closure, ChildGraph, Ancestors, Survives;
    forall i | i in entries
      ensures i in Closure(ChildGraph(entries), s) <==>
                exists j :: j in entries && j in Ancestors(entries, i) && !Survives(entries[j], call)
    {
      ClosureIsDescent(entries, nextId, s, i);
    }
  }

  lemma {:induction false} NothingDescends(entries: Entries)
    ensures entries - Closure(ChildGraph(entries), {}) == entries
  {
    ClosureOfClosed(ChildGraph(entries), {});
  }

  lemma {:induction false} InvalidIff(e: Entry, tip: Tip)
    ensures Invalid(e, tip) <==> !Survives(e, Reorganise(tip))
  {
  }

  lemma {:induction false} TouchedIff(e: Entry, txs: seq<Transaction>)
    ensures Touched(e, txs) <==> !Survives(e, ConnectBlock(txs))
  {
    if tx :| tx in txs && (e.tx.txid == tx.txid || Spends(e, tx.inputs)) {
      assert tx in txs && !(e.tx.txid != tx.txid && SharesNoInput(e.tx, tx));
    }
  }

  lemma {:induction false} ClashesIff(e: Entry, txs: seq<Transaction>)
    ensures Clashes(e, txs) <==> !Survives(e, DropConflicts(txs))
  {
    if tx :| tx in txs && Spends(e, tx.inputs) { assert tx in txs && !SharesNoInput(e.tx, tx); }
  }

  /** What accepting leaves of each entry: the new one is what was asked for, the others stay themselves. */
  lemma {:induction false} AcceptedFields(entries: Entries, id: Id, call: Call)
    requires AllSized(entries) && call.Accept? && VsizeOf(call.tx) > 1 && call.checks.coins.Some? && id !in entries
    ensures var after := Accepted(entries, id, Joining(call.tx, call.checks.coins.value, call.time, call.height));
      && after.Keys == entries.Keys + {id} && AdmittedBy(call, after[id])
      && forall i :: i in entries ==> SameSelf(entries[i], after[i])
  {
    hide Accepted, SameSelf, VsizeOf;
    AcceptedSelf(entries, id, Joining(call.tx, call.checks.coins.value, call.time, call.height));
  }

  /** How an entry came into the pool and what it has come through: it was there at the start (`n == 0`) or came with call
      `n - 1`, and it has survived every call since. */
  ghost predicate HasHistory(start: Entries, calls: seq<Call>, k: nat, i: Id, e: Entry, n: nat)
    requires k <= |calls|
  {
    && n <= k
    && (if n == 0 then i in start && SameSelf(start[i], e) else AdmittedBy(calls[n - 1], e))
    && forall m :: n <= m < k ==> Survives(e, calls[m])
  }

  ghost predicate Tracked(start: Entries, calls: seq<Call>, k: nat, entries: Entries, since: map<Id, nat>)
    requires k <= |calls|
  {
    entries.Keys == since.Keys && forall i :: i in entries ==> HasHistory(start, calls, k, i, entries[i], since[i])
  }

  /** What one call does to the entries, as far as their history goes. */
  ghost predicate Moves(before: Entries, after: Entries, call: Call) {
    && (forall i :: i in before && i in after ==> SameSelf(before[i], after[i]))
    && (forall i :: i in after && i !in before ==> AdmittedBy(call, after[i]))
    && (forall i :: i in after ==> Survives(after[i], call))
  }

  lemma {:induction false} AcceptMoves(before: Entries, after: Entries, id: Id, call: Call)
    requires call.Accept? && call.checks.coins.Some? && id !in before
    requires AllSized(before) && VsizeOf(call.tx) > 1
    requires after == Accepted(before, id, Joining(call.tx, call.checks.coins.value, call.time, call.height))
    ensures Moves(before, after, call)
  {
    hide Accepted, SameSelf, AdmittedBy, VsizeOf;
    AcceptedFields(before, id, call);
  }

  lemma {:induction false} RemovalMoves(before: Entries, after: Entries, call: Call)
    requires PartOf(after, before) && forall i :: i in after ==> Survives(after[i], call)
    ensures Moves(before, after, call)
  {
    hide Survives;
  }

  lemma {:induction false} LeftByBlock(entries: Entries, txs: seq<Transaction>)
    requires forall i, tx :: i in entries && tx in txs ==>
               entries[i].tx.txid != tx.txid && !Spends(entries[i], tx.inputs)
    ensures forall i :: i in entries ==> Survives(entries[i], ConnectBlock(txs))
  {
  }

  lemma {:induction false} LeftByConflicts(entries: Entries, txs: seq<Transaction>)
    requires forall i, tx :: i in entries && tx in txs ==> !Spends(entries[i], tx.inputs)
    ensures forall i :: i in entries ==> Survives(entries[i], DropConflicts(txs))
  {
  }

  lemma {:induction false} LeftByReorg(entries: Entries, tip: Tip)
    requires forall i :: i in entries ==>
               var e := entries[i];
               && (e.lockPoints.height > 0 ==> e.lockPoints.height <= tip.height)
               && (e.lockPoints.time > 0 ==> e.lockPoints.time <= tip.medianTimePast)
               && (e.lockPoints.maxInputBlock.Some? ==> tip.onActiveChain(e.lockPoints.maxInputBlock.value))
               && (e.spendsCoinbase ==> tip.height >= e.entryHeight + 100)
    ensures forall i :: i in entries ==> Survives(entries[i], Reorganise(tip))
  {
  }

  lemma {:induction false} LeftByTrim(entries: Entries, maxSize: nat)
    ensures forall i :: i in entries ==> Survives(entries[i], Trim(maxSize))
  {
  }

  lemma {:induction false} LeftByExpiry(entries: Entries, now: int, maxAge: int)
    requires forall i :: i in entries ==> entries[i].time >= now - maxAge
    ensures forall i :: i in entries ==> Survives(entries[i], DropExpired(now, maxAge))
  {
  }

  lemma {:induction false} NothingMoves(entries: Entries, call: Call)
    requires call.Accept?
    ensures Moves(entries, entries, call)
  {
  }

  ghost function Since(before: Entries, after: Entries, since: map<Id, nat>, k: nat): map<Id, nat> {
    map i | i in after :: if i in before && i in since then since[i] else k + 1
  }

  lemma {:induction false} SelfSurvives(e: Entry, e': Entry, call: Call)
    requires SameSelf(e, e')
    ensures Survives(e, call) <==> Survives(e', call)
  {
  }

  lemma {:induction false} HistoryMoves(start: Entries, calls: seq<Call>, k: nat, i: Id, e: Entry, e': Entry, n: nat)
    requires k < |calls| && HasHistory(start, calls, k, i, e, n) && SameSelf(e, e') && Survives(e', calls[k])
    ensures HasHistory(start, calls, k + 1, i, e', n)
  {
    hide Survives;
    forall m | n <= m < k + 1 ensures Survives(e', calls[m]) {
      if m < k { SelfSurvives(e, e', calls[m]); }
    }
  }

  lemma {:induction false} TrackedMoves(start: Entries, calls: seq<Call>, k: nat, before: Entries, after: Entries,
                                        since: map<Id, nat>)
    requires k < |calls| && Tracked(start, calls, k, before, since) && Moves(before, after, calls[k])
    ensures Tracked(start, calls, k + 1, after, Since(before, after, since, k))
  {
    hide Survives, SameSelf, AdmittedBy;
    var next := Since(before, after, since, k);
    forall i | i in after ensures HasHistory(start, calls, k + 1, i, after[i], next[i]) {
      if i in before {
        hide HasHistory;
        HistoryMoves(start, calls, k, i, before[i], after[i], since[i]);
      }
    }
  }

  lemma {:induction false} TrackedStart(start: Entries, calls: seq<Call>)
    ensures Tracked(start, calls, 0, start, map i | i in start :: 0)
  {
  }

  /** Nothing that was admitted at height `h` and spends a coinbase outlives a later reorganisation to a tip below
      `h + 100`; nothing outlives a block that confirms it or spends what it spends, or an expiry that it is too old for.
      */
  lemma {:induction false} OutlivesNothing(start: Entries, calls: seq<Call>, done: nat, entries: Entries,
                                           since: map<Id, nat>, i: Id, m: nat)
    requires done <= |calls| && Tracked(start, calls, done, entries, since) && i in entries && 0 < since[i] <= m < done
    ensures var admission := calls[since[i] - 1];
      && admission.Accept? && admission.checks.coins.Some?
      && var facts := admission.checks.coins.value;
      && (calls[m].Reorganise? && facts.spendsCoinbase ==> calls[m].tip.height >= admission.height + 100)
      && (calls[m].Reorganise? && facts.lockPoints.height > 0 ==> facts.lockPoints.height <= calls[m].tip.height)
      && (calls[m].Reorganise? && facts.lockPoints.time > 0 ==> facts.lockPoints.time <= calls[m].tip.medianTimePast)
      && (calls[m].Reorganise? && facts.lockPoints.maxInputBlock.Some? ==>
            calls[m].tip.onActiveChain(facts.lockPoints.maxInputBlock.value))
      && (calls[m].DropExpired? ==> admission.time >= calls[m].now - calls[m].maxAge)
      && (calls[m].ConnectBlock? ==> forall tx :: tx in calls[m].txs ==> admission.tx.txid != tx.txid)
      && (calls[m].ConnectBlock? || calls[m].DropConflicts? ==>
            forall tx, op :: tx in calls[m].txs && op in tx.inputs ==> op !in admission.tx.inputs)
  {
    var e := entries[i];
    assert HasHistory(start, calls, done, i, e, since[i]);
    assert AdmittedBy(calls[since[i] - 1], e) && Survives(e, calls[m]);
  }

  // ----- The relay list -----

  /** The list names exactly the live entries outside `unlisted`, each with its witness txid. */
  ghost predicate Announced(entries: Entries, list: seq<(nat, Id)>, unlisted: set<Id>) {
    && unlisted <= entries.Keys
    && (forall k :: 0 <= k < |list| ==>
          list[k].1 in entries && list[k].1 !in unlisted && list[k].0 == entries[list[k].1].tx.wtxid)
    && (forall id :: id in entries && id !in unlisted ==> (entries[id].tx.wtxid, id) in list)
  }

  ghost predicate NamesAll(entries: Entries, list: seq<(nat, Id)>) {
    forall id :: id in entries ==> (entries[id].tx.wtxid, id) in list
  }

  /** Every live entry is named exactly when none is unlisted. */
  lemma {:induction false} NamesAllIff(entries: Entries, list: seq<(nat, Id)>, unlisted: set<Id>)
    requires Announced(entries, list, unlisted)
    ensures NamesAll(entries, list) <==> unlisted == {}
  {
    if id :| id in unlisted {
      assert (entries[id].tx.wtxid, id) !in list;
    }
  }

  lemma {:induction false} AnnouncedOneMore(entries: Entries, entries': Entries, id: Id, list: seq<(nat, Id)>,
                                            unlisted: set<Id>)
    requires OneMore(entries, entries', id) && Announced(entries, list, unlisted)
    ensures Announced(entries', list, unlisted + {id})
  {
  }

  /** Every live entry once, in mining order. */
  ghost predicate ScoreOrder(entries: Entries, list: seq<(nat, Id)>) {
    && Distinct(list) && NamesAll(entries, list)
    && (forall k :: 0 <= k < |list| ==> list[k].1 in entries && Sized(entries[list[k].1]))
    && forall j, k :: 0 <= j < k < |list| ==> MinesBefore(entries[list[j].1], entries[list[k].1])
  }

  lemma {:induction false} ListIsScoreOrder(entries: Entries, ids: seq<Id>, list: seq<(nat, Id)>)
    requires Distinct(ids) && Elements(ids) == entries.Keys
    requires forall k :: 0 <= k < |ids| ==> ids[k] in entries && Sized(entries[ids[k]])
    requires forall j, k :: 0 <= j < k < |ids| ==> MinesBefore(entries[ids[j]], entries[ids[k]])
    requires |list| == |ids| && forall k :: 0 <= k < |ids| ==> list[k] == (entries[ids[k]].tx.wtxid, ids[k])
    ensures ScoreOrder(entries, list) && Announced(entries, list, {})
  {
    hide MinesBefore, Sized;
    forall id | id in entries ensures (entries[id].tx.wtxid, id) in list {
      assert id in Elements(ids);
      var k :| 0 <= k < |ids| && ids[k] == id;
      assert list[k] == (entries[id].tx.wtxid, id);
    }
  }

  /** What that order means in a pool that keeps its totals: falling blended score, and falling true ancestor score
      among entries whose score stands. */
  ghost predicate RelayOrder(entries: Entries, list: seq<(nat, Id)>) {
    && Distinct(list) && NamesAll(entries, list) && (forall k :: 0 <= k < |list| ==> list[k].1 in entries)
    && forall j, k :: 0 <= j < k < |list| ==> ComesFirst(entries, list[j].1, list[k].1)
  }

  ghost predicate ComesFirst(entries: Entries, i: Id, j: Id)
    requires i in entries && j in entries
  {
    && Sized(entries[i]) && Sized(entries[j]) && TotalsOf(entries, i) && TotalsOf(entries, j)
    && HasTrueScore(entries, i) && HasTrueScore(entries, j)
    && BlendedScore(entries, i) >= BlendedScore(entries, j)
    && (ScoreStands(entries, i) && ScoreStands(entries, j) ==> TrueScore(entries, i) >= TrueScore(entries, j))
  }

  lemma {:induction false} HigherComesFirst(entries: Entries, i: Id, j: Id)
    requires TotalsKept(entries) && ParentsLive(entries)
    requires i in entries && j in entries && Sized(entries[i]) && Sized(entries[j])
    requires AncestorScore(entries[i]) >= AncestorScore(entries[j])
    ensures ComesFirst(entries, i, j)
  {
    hide AncestorScore, BlendedScore, TrueScore, TotalsOf, BelowOf, Sized, Ancestors, SumOver, ScoreStands,
         HasTrueScore, ParentsLive;
    ScoreIsBlended(entries, i);
    ScoreIsBlended(entries, j);
    TrueScoreExists(entries, i);
    TrueScoreExists(entries, j);
    ScoreIsTrueIff(entries, i);
    ScoreIsTrueIff(entries, j);
  }

  lemma {:induction false} ScoreOrderIsRelayOrder(entries: Entries, list: seq<(nat, Id)>)
    requires ScoreOrder(entries, list) && TotalsKept(entries) && ParentsLive(entries)
    ensures RelayOrder(entries, list)
  {
    hide AncestorScore, ComesFirst, Sized, TotalsKept, ParentsLive, NamesAll;
    forall j, k | 0 <= j < k < |list| ensures ComesFirst(entries, list[j].1, list[k].1) {
      HigherComesFirst(entries, list[j].1, list[k].1);
    }
  }

  lemma {:induction false} ShapeHasLinks(entries: Entries, nextId: Id, limits: Limits)
    requires Shape(entries, nextId, limits)
    ensures TotalsKept(entries) && ParentsLive(entries) && Linked(entries, nextId)
  {
    hide TotalsKept, WithinLimits;
  }

  class MemPool {
    const arena: Arena
    const limits: Limits
    var mapNextTx: SpendMap
    var unbroadcast: set<Txid>
    var totalTxSize: int
    var totalFee: int
    /** What is announced to peers. It is rebuilt by every removal and by nothing else. */
    var relayList: seq<(nat, Id)>
    /** The entries accepted since it was last rebuilt. */
    ghost var unlisted: set<Id>

    ghost predicate Counted()
      reads this, arena
    {
      arena.Valid() && Books(arena.entries, mapNextTx, unbroadcast, totalTxSize) && 0 <= totalFee < U64_SIZE
    }

    /** What every operation keeps, expiry included. */
    ghost predicate Consistent()
      reads this, arena
    {
      Counted() && Announced(arena.entries, relayList, unlisted)
    }

    /** What every operation but expiry keeps. */
    ghost predicate Valid()
      reads this, arena
    {
      Consistent() && Shape(arena.entries, arena.nextId, limits)
    }

    ghost predicate FeesExact()
      reads this, arena
    {
      totalFee == Total(arena.entries, BaseFee)
    }

    constructor (limits: Limits)
      ensures Valid() && FeesExact() && fresh(arena) && arena.entries == map[] && this.limits == limits
      ensures unlisted == {}
    {
      arena := new Arena();
      this.limits := limits;
      mapNextTx, unbroadcast, totalTxSize, totalFee := map[], {}, 0, 0;
      relayList, unlisted := [], {};
      new;
      EmptyPool(limits);
    }

    /** Rebuilds the relay list in the order of the ancestor index. */
    method RebuildList()
      requires Counted()
      modifies `relayList, `unlisted
      ensures Consistent() && unlisted == {} && ScoreOrder(arena.entries, relayList)
    {
      hide Arena.Valid, Books, Sized, ScoreOrder, MinesBefore, Elements, Announced;
      var ids := arena.IterByAncestorScore();
      var list := [];
      for k := 0 to |ids|
        invariant |list| == k
        invariant forall m :: 0 <= m < k ==> list[m] == (arena.entries[ids[m]].tx.wtxid, ids[m])
      {
        list := list + [(arena.entries[ids[k]].tx.wtxid, ids[k])];
      }
      ListIsScoreOrder(arena.entries, ids, list);
      relayList, unlisted := list, {};
    }

    /** The stored list names every live entry exactly when nothing was accepted since it was rebuilt. */
    lemma {:induction false} ListIsCurrentIff()
      requires Consistent()
      ensures NamesAll(arena.entries, relayList) <==> unlisted == {}
    {
      hide Counted, NamesAll, Announced;
      NamesAllIff(arena.entries, relayList, unlisted);
    }

    // ----- Removal -----

    method RemoveSpends(tx: Transaction)
      modifies `mapNextTx
      ensures mapNextTx == old(mapNextTx) - Elements(tx.inputs)
    {
      for k := 0 to |tx.inputs|
        invariant mapNextTx == old(mapNextTx) - Elements(tx.inputs[..k])
      {
        ElementsAppend(tx.inputs[..k], [tx.inputs[k]]);
        assert tx.inputs[..k + 1] == tx.inputs[..k] + [tx.inputs[k]];
        mapNextTx := mapNextTx - {tx.inputs[k]};
      }
      assert tx.inputs[..|tx.inputs|] == tx.inputs;
    }

    method RemoveOne(id: Id)
      requires Counted()
      modifies this, arena
      ensures Counted() && arena.entries == old(arena.entries) - {id} && arena.nextId == old(arena.nextId)
      ensures unbroadcast == KeepLive(arena.entries, old(unbroadcast))
      ensures old(FeesExact()) ==> FeesExact()
      ensures relayList == old(relayList) && unlisted == old(unlisted)
    {
      hide Arena.Valid, Books, Total, Elements, KeepLive;
      ghost var entries := arena.entries;
      arena.TxidsAreDistinct();
      UnbroadcastIsLive(entries, mapNextTx, unbroadcast, totalTxSize);
      var removed := arena.Remove(id);
      match removed
      case None =>
        assert entries - {id} == entries;
      case Some(e) =>
        OneLessLive(entries, unbroadcast, id);
        BooksAfterRemoval(entries, mapNextTx, unbroadcast, totalTxSize, id);
        TotalDrop(entries, BaseFee, id);
        totalTxSize := totalTxSize - e.tx.weight;
        totalFee := if totalFee < e.fee then 0 else totalFee - e.fee;
        RemoveSpends(e.tx);
        unbroadcast := unbroadcast - {e.tx.txid};
    }

    /** What a removal leaves: a fresh relay list, and, where all invariants hold, one in the order that they give it.
        */
    ghost predicate FreshList()
      reads this, arena
    {
      && unlisted == {} && ScoreOrder(arena.entries, relayList)
      && (Valid() ==> RelayOrder(arena.entries, relayList))
    }

    lemma {:induction false} ListIsFresh()
      requires Consistent() && unlisted == {} && ScoreOrder(arena.entries, relayList)
      ensures FreshList()
    {
      hide Consistent, ScoreOrder, RelayOrder, Shape, TotalsKept, ParentsLive, Linked;
      if Valid() {
        ShapeHasLinks(arena.entries, arena.nextId, limits);
        ScoreOrderIsRelayOrder(arena.entries, relayList);
      }
    }

    /** Removes a set of entries. If the set is closed under descent, everything the pool keeps survives. */
    method RemoveStaged(toRemove: set<Id>)
      requires Consistent()
      modifies this, arena
      ensures Consistent() && arena.entries == old(arena.entries) - toRemove && arena.nextId == old(arena.nextId)
      ensures unbroadcast == KeepLive(arena.entries, old(unbroadcast)) && FreshList()
      ensures old(FeesExact()) ==> FeesExact()
      ensures old(Valid()) && DescentClosed(old(arena.entries), toRemove) ==> Valid()
    {
      hide Arena.Valid, Books, Shape, DescentClosed, KeepLive, OnlyLive, ScoreOrder, Announced, FreshList;
      UnbroadcastIsLive(arena.entries, mapNextTx, unbroadcast, totalTxSize);
      ghost var before, done := arena.entries, {};
      assert before - done == before;
      var todo := toRemove;
      while todo != {}
        invariant done + todo == toRemove
        invariant Counted() && arena.entries == before - done && arena.nextId == old(arena.nextId)
        invariant unbroadcast == KeepLive(arena.entries, old(unbroadcast))
        invariant old(FeesExact()) ==> FeesExact()
        decreases todo
      {
        hide *;
        var id :| id in todo;
        KeepLiveTwice(arena.entries, {id}, old(unbroadcast));
        RemoveOne(id);
        assert before - done - {id} == before - (done + {id});
        done, todo := done + {id}, todo - {id};
      }
      assert done == toRemove;
      RebuildList();
      ListIsFresh();
      if old(Valid()) && DescentClosed(before, toRemove) {
        RemovalKeepsShape(before, arena.nextId, toRemove, limits);
      }
    }

    /** Removes entries together with everything that descends from them. */
    method RemoveWithDescendants(ids: set<Id>)
      requires Consistent()
      modifies this, arena
      ensures Consistent() && (old(Valid()) ==> Valid()) && arena.nextId == old(arena.nextId) && FreshList()
      ensures arena.entries == old(arena.entries) - Closure(ChildGraph(old(arena.entries)), ids)
      ensures arena.entries.Keys !! ids && unbroadcast == KeepLive(arena.entries, old(unbroadcast))
      ensures old(FeesExact()) ==> FeesExact()
    {
      hide Arena.Valid, Books, Shape, Closure, ChildGraph, DescentClosed, KeepLive, FreshList, Announced;
      var expanded := ExpandToDescendants(arena.entries, ids);
      ClosureIsClosed(ChildGraph(arena.entries), ids);
      ClosedIsDescentClosed(arena.entries, expanded);
      RemoveStaged(expanded);
    }

    /** Removes what is older than the cutoff, without its descendants. Links survive exactly when no younger entry
        descends from an expired one. */
    method Expire(now: int, maxAge: int)
      requires Consistent()
      modifies this, arena
      ensures Consistent() && arena.nextId == old(arena.nextId)
      ensures arena.entries == old(arena.entries) - OlderThan(old(arena.entries), now - maxAge)
      ensures forall i :: i in old(arena.entries) ==> (i in arena.entries <==> old(arena.entries)[i].time >= now - maxAge)
      ensures unbroadcast == KeepLive(arena.entries, old(unbroadcast))
      ensures old(Valid()) ==>
                (Valid() <==> DescentClosed(old(arena.entries), OlderThan(old(arena.entries), now - maxAge)))
      ensures if OlderThan(old(arena.entries), now - maxAge) == {} then relayList == old(relayList) && unlisted
              == old(unlisted)
              else FreshList()
      ensures old(FeesExact()) ==> FeesExact()
    {
      hide Arena.Valid, Books, DescentClosed, Linked, WithinLimits, TotalsKept, KeepLive, OnlyLive, OlderThan,
           FreshList, Announced;
      UnbroadcastIsLive(arena.entries, mapNextTx, unbroadcast, totalTxSize);
      ghost var entries := arena.entries;
      var toRemove := OlderThan(arena.entries, now - maxAge);
      OlderIff(entries, now - maxAge);
      if Valid() { LinksSurviveIff(entries, arena.nextId, toRemove); }
      if toRemove != {} {
        RemoveStaged(toRemove);
      }
      assert arena.entries == entries - toRemove;
    }

    /** Evicts the first cluster of the descendant index until the pool fits. `heads` are the entries it starts
        from: each was first in the index when the pool was still too large, and goes with its descendants. */
    method TrimToSize(maxSize: nat) returns (ghost heads: seq<Id>)
      requires Consistent()
      modifies this, arena
      ensures Consistent() && (old(Valid()) ==> Valid()) && totalTxSize <= maxSize && arena.nextId == old(arena.nextId)
      ensures arena.entries == Evicted(old(arena.entries), heads) && EachOverdue(old(arena.entries), heads, maxSize)
      ensures heads == [] <==> old(totalTxSize) <= maxSize
      ensures EvictsLowest(old(arena.entries), heads) <==> heads == [] || SameScores(old(arena.entries))
      ensures if heads == [] then relayList == old(relayList) && unlisted == old(unlisted) else FreshList()
      ensures unbroadcast == KeepLive(arena.entries, old(unbroadcast))
      ensures old(FeesExact()) ==> FeesExact()
    {
      hide Arena.Valid, Books, Shape, KeepLive, OnlyLive, Evicted, EachOverdue, HasTopScore, Overdue, Closure,
           ChildGraph, FreshList, Announced, SameScores, HasBottomScore, EvictsLowest;
      UnbroadcastIsLive(arena.entries, mapNextTx, unbroadcast, totalTxSize);
      ghost var before := arena.entries;
      heads := [];
      NoneEvicted(before, maxSize);
      while totalTxSize > maxSize
        invariant Consistent() && (old(Valid()) ==> Valid()) && arena.nextId == old(arena.nextId)
        invariant arena.entries == Evicted(before, heads) && EachOverdue(before, heads, maxSize)
        invariant if heads == [] then totalTxSize == old(totalTxSize) else old(totalTxSize) > maxSize
        invariant if heads == [] then relayList == old(relayList) && unlisted == old(unlisted) else FreshList()
        invariant unbroadcast == KeepLive(arena.entries, old(unbroadcast))
        invariant old(FeesExact()) ==> FeesExact()
        decreases arena.entries.Keys
      {
        var first := arena.FirstByDescendantScore();
        if first.None? {
          EmptyHasNoSize(arena.entries, mapNextTx, unbroadcast, totalTxSize);
          break;
        }
        TooLargeIsOverdue(arena.entries, mapNextTx, unbroadcast, totalTxSize, first.value, maxSize);
        OverdueOneMore(before, heads, first.value, maxSize);
        EvictOneMore(before, heads, first.value, arena.entries);
        KeepLiveTwice(arena.entries, Closure(ChildGraph(arena.entries), {first.value}), old(unbroadcast));
        RemoveWithDescendants({first.value});
        heads := heads + [first.value];
      }
      EvictsLowestIff(before, heads, maxSize);
    }

    method CollectConflicts(tx: Transaction) returns (conflicts: set<Id>)
      requires Consistent()
      ensures conflicts == Spenders(arena.entries, tx.inputs)
    {
      hide Spenders, SpendsTracked, HashIndex;
      conflicts := {};
      NoSpenders(arena.entries);
      for k := 0 to |tx.inputs|
        invariant conflicts == Spenders(arena.entries, tx.inputs[..k])
      {
        var op := tx.inputs[k];
        SpenderIsFound(arena.entries, mapNextTx, arena.byTxid, op);
        SpendersPush(arena.entries, tx.inputs[..k], op);
        assert tx.inputs[..k + 1] == tx.inputs[..k] + [op];
        if op in mapNextTx {
          var id := arena.GetByTxid(mapNextTx[op]);
          if id.Some? { conflicts := conflicts + {id.value}; }
        }
      }
      assert tx.inputs[..|tx.inputs|] == tx.inputs;
    }

    /** What a removal for these reasons takes: whatever does not survive the call, and its descendants. */
    lemma {:induction false} RemovalIsGone(toRemove: set<Id>, call: Call)
      requires Valid()
      requires || (call.ConnectBlock? && toRemove == TouchedBy(arena.entries, call.txs))
               || (call.DropConflicts? && toRemove == ClashingWith(arena.entries, call.txs))
               || (call.Reorganise? && toRemove == InvalidAt(arena.entries, call.tip))
      ensures GoneIff(arena.entries, arena.entries - Closure(ChildGraph(arena.entries), toRemove), call)
    {
      hide Consistent, Linked, TotalsKept, WithinLimits, Touched, Clashes, Invalid, Survives, GoneIff, ParentsLive;
      forall i | i in arena.entries ensures i in toRemove <==> !Survives(arena.entries[i], call) {
        if call.ConnectBlock? { TouchedIff(arena.entries[i], call.txs); }
        if call.DropConflicts? { ClashesIff(arena.entries[i], call.txs); }
        if call.Reorganise? { InvalidIff(arena.entries[i], call.tip); }
      }
      RemovedIsGone(arena.entries, arena.nextId, toRemove, call);
    }

    /** What a block's transactions push out of the pool: themselves and whatever they conflict with. */
    method CollectForBlock(txs: seq<Transaction>) returns (toRemove: set<Id>)
      requires Consistent()
      ensures toRemove == TouchedBy(arena.entries, txs)
    {
      arena.TxidsAreIndexed();
      hide Arena.Valid, TouchedBy, Spenders, Books, HashIndex;
      toRemove := {};
      NothingTouched(arena.entries);
      for k := 0 to |txs|
        invariant toRemove == TouchedBy(arena.entries, txs[..k])
      {
        TouchedByPush(arena.entries, arena.byTxid, txs[..k], txs[k]);
        assert txs[..k + 1] == txs[..k] + [txs[k]];
        var id := arena.GetByTxid(txs[k].txid);
        if id.Some? { toRemove := toRemove + {id.value}; }
        var conflicts := CollectConflicts(txs[k]);
        toRemove := toRemove + conflicts;
      }
      assert txs[..|txs|] == txs;
    }

    /** After a block: nothing the block confirms is left, nothing left conflicts with the block, and exactly the
        descendants of what was touched are gone. */
    method RemoveForBlock(txs: seq<Transaction>)
      requires Consistent()
      modifies this, arena
      ensures Consistent() && (old(Valid()) ==> Valid()) && FreshList()
      ensures arena.entries
              == old(arena.entries) - Closure(ChildGraph(old(arena.entries)), TouchedBy(old(arena.entries), txs))
      ensures unbroadcast == KeepLive(arena.entries, old(unbroadcast))
      ensures forall i, tx :: i in arena.entries && tx in txs ==>
                arena.entries[i].tx.txid != tx.txid && !Spends(arena.entries[i], tx.inputs)
      ensures old(Valid()) ==> GoneIff(old(arena.entries), arena.entries, ConnectBlock(txs))
      ensures old(FeesExact()) ==> FeesExact()
    {
      hide Arena.Valid, Books, Shape, Closure, ChildGraph, Spends, KeepLive, FreshList, Announced, GoneIff;
      var toRemove := CollectForBlock(txs);
      if Valid() { RemovalIsGone(toRemove, ConnectBlock(txs)); }
      RemoveWithDescendants(toRemove);
    }

    method CollectAllConflicts(txs: seq<Transaction>) returns (toRemove: set<Id>)
      requires Consistent()
      ensures toRemove == ClashingWith(arena.entries, txs)
    {
      toRemove := {};
      for k := 0 to |txs|
        invariant toRemove == ClashingWith(arena.entries, txs[..k])
      {
        hide ClashingWith, Spenders, Books, Arena.Valid;
        ClashingPush(arena.entries, txs[..k], txs[k]);
        assert txs[..k + 1] == txs[..k] + [txs[k]];
        var conflicts := CollectConflicts(txs[k]);
        toRemove := toRemove + conflicts;
      }
      assert txs[..|txs|] == txs;
    }

    /** Afterwards nothing left conflicts with the given transactions. */
    method RemoveConflicts(txs: seq<Transaction>)
      requires Consistent()
      modifies this, arena
      ensures Consistent() && (old(Valid()) ==> Valid()) && FreshList()
      ensures arena.entries
              == old(arena.entries) - Closure(ChildGraph(old(arena.entries)), ClashingWith(old(arena.entries), txs))
      ensures unbroadcast == KeepLive(arena.entries, old(unbroadcast))
      ensures forall i, tx :: i in arena.entries && tx in txs ==> !Spends(arena.entries[i], tx.inputs)
      ensures old(Valid()) ==> GoneIff(old(arena.entries), arena.entries, DropConflicts(txs))
      ensures old(FeesExact()) ==> FeesExact()
    {
      hide Arena.Valid, Books, Shape, Closure, ChildGraph, Spends, KeepLive, FreshList, Announced, GoneIff;
      var toRemove := CollectAllConflicts(txs);
      if Valid() { RemovalIsGone(toRemove, DropConflicts(txs)); }
      RemoveWithDescendants(toRemove);
    }

    /** After a reorganisation: whatever is left is still valid at the new tip, and what is gone descends from something
        that is not. */
    method RemoveForReorg(tip: Tip)
      requires Consistent()
      modifies this, arena
      ensures Consistent() && (old(Valid()) ==> Valid())
      ensures arena.entries
              == old(arena.entries) - Closure(ChildGraph(old(arena.entries)), InvalidAt(old(arena.entries), tip))
      ensures unbroadcast == KeepLive(arena.entries, old(unbroadcast))
      ensures forall i :: i in arena.entries ==>
        var e := arena.entries[i];
        && (e.lockPoints.height > 0 ==> e.lockPoints.height <= tip.height)
        && (e.lockPoints.time > 0 ==> e.lockPoints.time <= tip.medianTimePast)
        && (e.lockPoints.maxInputBlock.Some? ==> tip.onActiveChain(e.lockPoints.maxInputBlock.value))
        && (e.spendsCoinbase ==> tip.height >= e.entryHeight + 100)
      ensures old(Valid()) ==> GoneIff(old(arena.entries), arena.entries, Reorganise(tip))
      ensures if InvalidAt(old(arena.entries), tip) == {} then relayList == old(relayList) && unlisted == old(unlisted)
              else FreshList()
      ensures old(FeesExact()) ==> FeesExact()
    {
      hide Arena.Valid, Books, Shape, Closure, ChildGraph, Invalid, KeepLive, FreshList, Announced, GoneIff, OnlyLive;
      UnbroadcastIsLive(arena.entries, mapNextTx, unbroadcast, totalTxSize);
      var toRemove := set i | i in arena.entries && Invalid(arena.entries[i], tip);
      forall i | i in arena.entries && i !in toRemove ensures Survives(arena.entries[i], Reorganise(tip)) {
        InvalidIff(arena.entries[i], tip);
      }
      if Valid() { RemovalIsGone(toRemove, Reorganise(tip)); }
      if toRemove == {} {
        NothingDescends(arena.entries);
        return;
      }
      RemoveWithDescendants(toRemove);
    }

    // ----- Acceptance -----

    /** The in-pool parents of a transaction and everything above them. */
    method FindAncestors(tx: Transaction) returns (parents: set<Id>, ancestors: set<Id>)
      requires Consistent()
      ensures parents == ParentIds(arena.entries, tx.inputs) && ancestors == AncestorIds(arena.entries, tx)
    {
      hide Books, ParentIds, Closure, ParentGraph, HashIndex, SortedIndex, AllKeyed, Announced;
      ghost var g := ParentGraph(arena.entries);
      parents, ancestors := {}, {};
      NoParents(arena.entries);
      ClosureOfClosed(g, {});
      for k := 0 to |tx.inputs|
        invariant parents == ParentIds(arena.entries, tx.inputs[..k])
        invariant ancestors == Closure(g, parents) && Closed(g, ancestors)
      {
        hide Closed;
        var op := tx.inputs[k];
        ParentIdsPush(arena.entries, arena.byTxid, tx.inputs[..k], op);
        assert tx.inputs[..k + 1] == tx.inputs[..k] + [op];
        var parent := arena.GetByTxid(op.txid);
        if parent.Some? {
          ClosureOfUnion(g, parents, {parent.value});
          parents := parents + {parent.value};
          ancestors := CalculateAncestors(arena.entries, parent.value, ancestors);
        }
      }
      assert tx.inputs[..|tx.inputs|] == tx.inputs;
    }

    lemma {:induction false} AncestorsLive(tx: Transaction)
      requires Valid()
      ensures AncestorIds(arena.entries, tx) <= arena.entries.Keys
    {
      hide Consistent, AncestorIds, ParentsLive, TotalsKept;
      ShapeHasLinks(arena.entries, arena.nextId, limits);
      AncestorIdsAreLive(arena.entries, tx);
    }

    /** Dead ids count for nothing. */
    method SumVsizes(ids: set<Id>) returns (total: int)
      ensures total == SumOver(arena.entries, ids, Vsize)
    {
      hide SumOver;
      var todo := ids;
      ghost var done := {};
      total := 0;
      SumEmpty(arena.entries, Vsize);
      while todo != {}
        invariant done + todo == ids && done !! todo && total == SumOver(arena.entries, done, Vsize)
        decreases todo
      {
        var id :| id in todo;
        if id in arena.entries {
          SumAdd(arena.entries, done, Vsize, id);
          total := total + Vsize(arena.entries[id]);
        } else {
          SumSkips(arena.entries, done, Vsize, id);
        }
        done, todo := done + {id}, todo - {id};
      }
      assert done == ids;
    }

    /** One of the live ids has as many descendants as it may have, or would with one more of this size exceed their size;
        the error says how many, or how large. */
    ghost predicate Crowded(entries: Entries, ids: set<Id>, vsize: nat, error: Error) {
      exists a :: a in ids && a in entries
        && var e := entries[a];
           || (error == TooManyDescendants(e.countWithDescendants + 1) && e.countWithDescendants >= limits.maxDescendants)
           || (error == DescendantSizeTooLarge(e.sizeWithDescendants + vsize)
               && e.countWithDescendants < limits.maxDescendants && e.sizeWithDescendants + vsize > limits.maxDescendantSize)
    }

    /** Visits the ids in any order. `None` is the panic on a dead id; it comes unless a live one without room for one
        more descendant of this size comes first. */
    method CheckDescendants(ids: set<Id>, vsize: nat) returns (r: Option<Result<(), Error>>)
      ensures r == Some(Ok(())) <==> ids <= arena.entries.Keys && RoomBelowLive(arena.entries, ids, vsize, limits)
      ensures r.None? ==> !(ids <= arena.entries.Keys)
      ensures r.Some? && r.value.Ok? ==> r == Some(Ok(()))
      ensures r.Some? && r.value.Err? ==> !RoomBelowLive(arena.entries, ids, vsize, limits)
      ensures r.Some? && r.value.Err? ==> r.value.error.TooManyDescendants? || r.value.error.DescendantSizeTooLarge?
      ensures r.Some? && r.value.Err? ==> Crowded(arena.entries, ids, vsize, r.value.error)
    {
      var todo := ids;
      while todo != {}
        invariant todo <= ids
        invariant forall a :: a in ids && a !in todo ==>
                    a in arena.entries && HasRoomBelow(arena.entries[a], vsize, limits)
        decreases todo
      {
        var id :| id in todo;
        if id !in arena.entries { return None; }
        var e := arena.entries[id];
        if e.countWithDescendants + 1 > limits.maxDescendants {
          return Some(Err(TooManyDescendants(e.countWithDescendants + 1)));
        }
        if e.sizeWithDescendants + vsize > limits.maxDescendantSize {
          return Some(Err(DescendantSizeTooLarge(e.sizeWithDescendants + vsize)));
        }
        todo := todo - {id};
      }
      return Some(Ok(()));
    }

    /** Some ancestor is no longer in the pool. */
    ghost predicate DeadAbove(tx: Transaction)
      reads arena
    {
      !(AncestorIds(arena.entries, tx) <= arena.entries.Keys)
    }

    /** Accepts exactly when all ancestors are live and there is room below them. `None` is the panic on a dead one: it
        needs one, and with room below the live ones it is certain. */
    method CheckPackageLimits(tx: Transaction) returns (r: Option<Result<(), Error>>)
      requires Consistent()
      ensures r == Some(Ok(())) <==>
                !DeadAbove(tx) && RoomFor(arena.entries, AncestorIds(arena.entries, tx), VsizeOf(tx), limits)
      ensures r.None? ==> DeadAbove(tx)
      ensures r != Some(Err(FeeOverflow)) && r != Some(Err(Rejected))
      ensures DeadAbove(tx) && RoomFor(arena.entries, AncestorIds(arena.entries, tx), VsizeOf(tx), limits) ==> r.None?
      ensures r.Some? && r.value.Err? ==>
                || |AncestorIds(arena.entries, tx)| + 1 > limits.maxAncestors
                || VsizeOf(tx) + SumOver(arena.entries, AncestorIds(arena.entries, tx), Vsize) > limits.maxAncestorSize
                || Crowded(arena.entries, AncestorIds(arena.entries, tx), VsizeOf(tx), r.value.error)
      ensures |AncestorIds(arena.entries, tx)| + 1 > limits.maxAncestors ==>
                r == Some(Err(TooManyAncestors(|AncestorIds(arena.entries, tx)| + 1)))
      ensures |AncestorIds(arena.entries, tx)| + 1 <= limits.maxAncestors &&
              VsizeOf(tx) + SumOver(arena.entries, AncestorIds(arena.entries, tx), Vsize) > limits.maxAncestorSize ==>
                r == Some(Err(AncestorSizeTooLarge(VsizeOf(tx) + SumOver(arena.entries, AncestorIds(arena.entries, tx), Vsize))))
    {
      hide Books, AncestorIds, SumOver, VsizeOf, Consistent, RoomBelowLive, Crowded;
      var parents, ancestors := FindAncestors(tx);
      RoomIsRoomBelow(arena.entries, ancestors, VsizeOf(tx), limits);
      if |ancestors| + 1 > limits.maxAncestors { return Some(Err(TooManyAncestors(|ancestors| + 1))); }
      var above := SumVsizes(ancestors);
      if VsizeOf(tx) + above > limits.maxAncestorSize { return Some(Err(AncestorSizeTooLarge(VsizeOf(tx) + above))); }
      r := CheckDescendants(ancestors, VsizeOf(tx));
    }

    /** Ancestor totals of a new transaction, itself included. Only the fees are checked for overflow. */
    method AncestorTotals(ws: Workspace, ids: set<Id>) returns (r: Result<(nat, int, nat, int), Error>)
      requires ids <= arena.entries.Keys && ws.modifiedFee < U64_SIZE
      ensures r == if ws.modifiedFee + SumOver(arena.entries, ids, ModifiedFee) >= U64_SIZE then Err(FeeOverflow)
                   else Ok((|ids| + 1, VsizeOf(ws.tx) + SumOver(arena.entries, ids, Vsize),
                            ws.modifiedFee + SumOver(arena.entries, ids, ModifiedFee),
                            ws.sigopCost + SumOver(arena.entries, ids, Sigops)))
    {
      hide SumOver, VsizeOf, Vsize;
      ghost var entries := arena.entries;
      var count, size, sigops := 1, VsizeOf(ws.tx), ws.sigopCost;
      var fees: nat := ws.modifiedFee;
      var todo := ids;
      ghost var done := {};
      SumEmpty(entries, Vsize);
      SumEmpty(entries, ModifiedFee);
      SumEmpty(entries, Sigops);
      while todo != {}
        invariant done + todo == ids && done !! todo && fees < U64_SIZE && count == |done| + 1
        invariant size == VsizeOf(ws.tx) + SumOver(entries, done, Vsize)
        invariant fees == ws.modifiedFee + SumOver(entries, done, ModifiedFee)
        invariant sigops == ws.sigopCost + SumOver(entries, done, Sigops)
        decreases todo
      {
        var id :| id in todo;
        var e := arena.entries[id];
        SumAdd(entries, done, Vsize, id);
        SumAdd(entries, done, ModifiedFee, id);
        SumAdd(entries, done, Sigops, id);
        SumMonotone(entries, done + {id}, ids, ModifiedFee);
        count, size := count + 1, size + Vsize(e);
        if fees + e.modifiedFee >= U64_SIZE { return Err(FeeOverflow); }
        fees, sigops := fees + e.modifiedFee, sigops + e.sigopCost;
        done, todo := done + {id}, todo - {id};
      }
      assert done == ids;
      return Ok((count, size, fees, sigops));
    }

    method AddSpends(tx: Transaction)
      modifies `mapNextTx
      ensures mapNextTx == old(mapNextTx) + SpendsOfTx(tx)
    {
      for k := 0 to |tx.inputs|
        invariant mapNextTx == old(mapNextTx) + (map op | op in tx.inputs[..k] :: tx.txid)
      {
        assert tx.inputs[..k + 1] == tx.inputs[..k] + [tx.inputs[k]];
        mapNextTx := mapNextTx[tx.inputs[k] := tx.txid];
      }
      assert tx.inputs[..|tx.inputs|] == tx.inputs;
    }

    /** What must hold for a transaction that has passed every check. */
    ghost predicate MayJoin(tx: Transaction)
      reads this, arena
    {
      && VsizeOf(tx) > 1
      && tx.txid !in arena.byTxid && tx.wtxid !in arena.byWtxid
      && (forall op :: op in tx.inputs ==> op !in mapNextTx)
      && !DeadAbove(tx) && RoomFor(arena.entries, AncestorIds(arena.entries, tx), VsizeOf(tx), limits)
    }

    ghost predicate FeesFit(ws: Workspace)
      reads this, arena
    {
      ws.modifiedFee + SumOver(arena.entries, AncestorIds(arena.entries, ws.tx), ModifiedFee) < U64_SIZE
    }

    /** Inserts the entry with its links, totals and spends. `None` is an overflow of the ancestor fees. */
    method AddEntry(ws: Workspace) returns (r: Option<Id>)
      requires Consistent() && MayJoin(ws.tx) && ws.modifiedFee < U64_SIZE
      modifies this, arena
      ensures Consistent() && (old(Valid()) ==> Valid()) && relayList == old(relayList)
      ensures totalFee == old(totalFee) && unbroadcast == old(unbroadcast)
      ensures !old(FeesFit(ws)) ==> r == None && unchanged(this) && unchanged(arena)
      ensures old(FeesFit(ws)) ==>
        && AllSized(old(arena.entries)) && arena.entries == Accepted(old(arena.entries), old(arena.nextId), ws)
        && r == Some(old(arena.nextId)) && unlisted == old(unlisted) + {old(arena.nextId)}
        && mapNextTx == old(mapNextTx) + SpendsOfTx(ws.tx)
        && Books(arena.entries, mapNextTx, unbroadcast + {ws.tx.txid}, totalTxSize)
        && Total(arena.entries, BaseFee) == old(Total(arena.entries, BaseFee)) + ws.baseFee
    {
      hide Arena.Valid, Books, Shape, RoomFor, AncestorIds, NewEntry, Accepted, SumOver, Total, VsizeOf, Announced,
           OneMore, SpendsOfTx, AllSized, ParentIds;
      ghost var entries := arena.entries;
      var parents, ancestors := FindAncestors(ws.tx);
      var totals := AncestorTotals(ws, ancestors);
      if totals.Err? { return None; }
      var e := EntryFor(ws, parents, totals.value.0, totals.value.1, totals.value.2, totals.value.3);
      EntryIsNew(entries, ws, e);
      AllEntriesSized(arena);
      arena.NextIsFresh();
      if Valid() { JoinKeepsShape(entries, arena.nextId, ws, limits); }
      var id := InsertEntry(arena, ws, e, ancestors);
      AcceptedIsOneMore(entries, id, ws);
      BooksOneMore(entries, arena.entries, mapNextTx, unbroadcast, totalTxSize, id);
      FeesOneMore(entries, arena.entries, id);
      AnnouncedOneMore(entries, arena.entries, id, relayList, unlisted);
      unlisted := unlisted + {id};
      AddSpends(ws.tx);
      totalTxSize := totalTxSize + ws.tx.weight;
      return Some(id);
    }

    /** Adds the transaction. An overflow of the ancestor fees leaves the pool as it was; an overflow of the pool's
        total is reported after the entry has been added, and leaves the total and the unbroadcast set behind. */
    method FinalizeTx(ws: Workspace) returns (r: Result<Id, Error>)
      requires Consistent() && MayJoin(ws.tx) && ws.modifiedFee < U64_SIZE
      modifies this, arena
      ensures Consistent() && (old(Valid()) ==> Valid()) && relayList == old(relayList)
      ensures !old(FeesFit(ws)) ==> r == Err(FeeOverflow) && unchanged(this) && unchanged(arena)
      ensures old(FeesFit(ws)) ==>
        && AllSized(old(arena.entries)) && arena.entries == Accepted(old(arena.entries), old(arena.nextId), ws)
        && JoinsAs(old(arena.entries), arena.entries, old(arena.nextId), ws)
        && mapNextTx == old(mapNextTx) + SpendsOfTx(ws.tx) && unlisted == old(unlisted) + {old(arena.nextId)}
        && (if old(totalFee) + ws.baseFee < U64_SIZE
            then && r == Ok(old(arena.nextId)) && totalFee == old(totalFee) + ws.baseFee
                 && unbroadcast == old(unbroadcast) + {ws.tx.txid}
            else r == Err(FeeOverflow) && totalFee == old(totalFee) && unbroadcast == old(unbroadcast))
      ensures old(FeesExact()) && old(FeesFit(ws)) ==> (FeesExact() <==> old(totalFee) + ws.baseFee < U64_SIZE)
    {
      hide Arena.Valid, Books, Shape, FeesFit, Accepted, Total, Announced, SpendsOfTx, AllSized, JoinsAs, RoomFor, VsizeOf,
           DeadAbove;
      ghost var entries, next := arena.entries, arena.nextId;
      AllEntriesSized(arena);
      arena.NextIsFresh();
      AcceptedSelf(entries, next, ws);
      hide MayJoin;
      var id := AddEntry(ws);
      if id.None? { return Err(FeeOverflow); }
      if totalFee + ws.baseFee >= U64_SIZE {
        return Err(FeeOverflow);
      }
      totalFee := totalFee + ws.baseFee;
      unbroadcast := unbroadcast + {ws.tx.txid};
      return Ok(id.value);
    }

    // ----- Replacement -----

    /** Fees and size of everything a replacement would push out. Ids that linger as dead children are an error. */
    method ReplacedTotals(ids: set<Id>) returns (r: Result<(nat, int), Error>)
      ensures r.Ok? <==> ids <= arena.entries.Keys && SumOver(arena.entries, ids, ModifiedFee) < U64_SIZE
      ensures r == Err(FeeOverflow) ==> SumOver(arena.entries, ids, ModifiedFee) >= U64_SIZE
      ensures r.Err? && r.error != FeeOverflow ==> r.error == MissingConflict && !(ids <= arena.entries.Keys)
      ensures r.Ok? ==> r.value == (SumOver(arena.entries, ids, ModifiedFee), SumOver(arena.entries, ids, Vsize))
    {
      hide SumOver, Vsize;
      ghost var entries := arena.entries;
      var size, todo := 0, ids;
      var fees: nat := 0;
      ghost var done := {};
      SumEmpty(entries, Vsize);
      SumEmpty(entries, ModifiedFee);
      while todo != {}
        invariant done + todo == ids && done !! todo && done <= entries.Keys && fees < U64_SIZE
        invariant size == SumOver(entries, done, Vsize) && fees == SumOver(entries, done, ModifiedFee)
        decreases todo
      {
        var id :| id in todo;
        if id !in arena.entries { return Err(MissingConflict); }
        var e := arena.entries[id];
        SumAdd(entries, done, Vsize, id);
        SumAdd(entries, done, ModifiedFee, id);
        SumMonotone(entries, done + {id}, ids, ModifiedFee);
        if fees + e.modifiedFee >= U64_SIZE { return Err(FeeOverflow); }
        fees, size := fees + e.modifiedFee, size + Vsize(e);
        done, todo := done + {id}, todo - {id};
      }
      assert done == ids;
      return Ok((fees, size));
    }

    /** The replacement rules, for a transaction that pays `modifiedFee`. */
    method CheckRbfPolicy(tx: Transaction, modifiedFee: nat, options: Options) returns (r: Result<set<Id>, Error>)
      requires Consistent()
      ensures r.Ok? <==> MayReplace(arena.entries, tx, modifiedFee, options)
      ensures r == Err(FeeOverflow) ==> FeesExceed(arena.entries, 0)
      ensures r.Ok? ==> r.value == Replaced(arena.entries, tx)
      ensures r.Err? ==> RefusesReplacement(arena.entries, tx, modifiedFee, options, r.error)
    {
      hide Consistent, Spenders, Closure, ChildGraph, SumOver, FeeAt, VsizeOf, AncestorIds, ParentIds, FeesExceed;
      var direct := CollectConflicts(tx);
      if direct == {} { return Err(NoConflictToReplace); }
      var all := ExpandToDescendants(arena.entries, direct);
      if |all| > options.maxReplacementTxs { return Err(TooManyReplacements(|all|)); }
      if exists id :: id in direct && id in arena.entries && !options.signalsRbf(arena.entries[id].tx) {
        return Err(TxNotReplaceable);
      }
      var totals := ReplacedTotals(all);
      if totals.Err? {
        if totals.error == FeeOverflow { FeesOfExceed(arena.entries, all, 0); }
        return Err(totals.error);
      }
      var parents, ancestors := FindAncestors(tx);
      if !(parents <= all) { return Err(NewUnconfirmedInput); }
      var (fees, size) := totals.value;
      if modifiedFee <= fees { return Err(InsufficientFee); }
      if modifiedFee - fees < FeeAt(options.minRelayFeeRate, VsizeOf(tx)) { return Err(InsufficientFee); }
      if modifiedFee - fees < FeeAt(options.minRelayFeeRate, size) { return Err(InsufficientFee); }
      return Ok(all);
    }

    method HasConflict(tx: Transaction) returns (r: bool)
      ensures r <==> exists op :: op in tx.inputs && op in mapNextTx
    {
      for k := 0 to |tx.inputs|
        invariant forall m :: 0 <= m < k ==> tx.inputs[m] !in mapNextTx
      {
        if tx.inputs[k] in mapNextTx { return true; }
      }
      return false;
    }

    ghost predicate PassesPreChecks(tx: Transaction, checks: Checks)
      reads this, arena
    {
      && checks.sane && checks.coins.Some? && tx.wtxid !in arena.byWtxid && tx.txid !in arena.byTxid
      && forall op :: op in tx.inputs ==> op !in mapNextTx
    }

    /** What an error of the early checks says, in their order. */
    ghost predicate RefusesEarly(tx: Transaction, checks: Checks, options: Options, error: Error)
      reads this, arena
    {
      if !checks.sane then error == Rejected
      else if tx.wtxid in arena.byWtxid || tx.txid in arena.byTxid then error == AlreadyInMempool
      else if exists op :: op in tx.inputs && op in mapNextTx then
        if options.enableRbf then RefusesReplacement(arena.entries, tx, 0, options, error) else error == TxConflict
      else checks.coins.None? && error == Rejected
    }

    /** The checks against the pool itself. Replacement is judged while the fee of the workspace is still zero. */
    method PreChecks(tx: Transaction, checks: Checks, options: Options) returns (r: Result<(), Error>)
      requires Consistent()
      ensures r.Ok? <==> PassesPreChecks(tx, checks)
      ensures r == Err(FeeOverflow) ==> FeesExceed(arena.entries, 0)
      ensures r.Err? ==> RefusesEarly(tx, checks, options, r.error)
    {
      hide Arena.Valid, Books, Shape, MayReplace, Announced, RefusesReplacement;
      if !checks.sane { return Err(Rejected); }
      if tx.wtxid in arena.byWtxid { return Err(AlreadyInMempool); }
      if tx.txid in arena.byTxid { return Err(AlreadyInMempool); }
      var conflicting := HasConflict(tx);
      if conflicting {
        if !options.enableRbf { return Err(TxConflict); }
        var policy := CheckRbfPolicy(tx, 0, options);
        FreeReplacesNothing(arena.entries, tx, options);
        return Err(policy.error);
      }
      if checks.coins.None? { return Err(Rejected); }
      return Ok(());
    }

    ghost predicate Admissible(tx: Transaction, checks: Checks, time: int, height: nat)
      reads this, arena
    {
      && checks.sane && checks.coins.Some? && checks.scripts && MayJoin(tx)
      && FeesFit(Joining(tx, checks.coins.value, time, height))
    }

    /** Why an overflow of fees may be reported: fees already in the pool, or those together with the new one. */
    ghost predicate TooDear(tx: Transaction, checks: Checks)
      reads this, arena
    {
      || FeesExceed(arena.entries, 0)
      || (&& PassesPreChecks(tx, checks)
          && (FeesExceed(arena.entries, checks.coins.value.fee) || totalFee + checks.coins.value.fee >= U64_SIZE))
    }

    ghost predicate OnlyDeadInTheWay(tx: Transaction, checks: Checks)
      reads this, arena
    {
      && PassesPreChecks(tx, checks) && DeadAbove(tx)
      && RoomFor(arena.entries, AncestorIds(arena.entries, tx), VsizeOf(tx), limits)
    }

    /** The whole path of one transaction. It joins exactly when every check passes; a conflict with a live entry is
        always refused, whatever the replacement options. `None` is a panic; it needs a dead ancestor, and it is certain
        when there is one and nothing else is in the way. */
    method AcceptSingle(tx: Transaction, checks: Checks, options: Options, time: int, height: nat)
      returns (r: Option<Result<(), Error>>)
      requires Consistent() && VsizeOf(tx) > 1 && (checks.coins.Some? ==> checks.coins.value.fee < U64_SIZE)
      modifies this, arena
      ensures Consistent() && (old(Valid()) ==> Valid()) && relayList == old(relayList)
      ensures r.None? ==> old(DeadAbove(tx))
      ensures old(OnlyDeadInTheWay(tx, checks)) ==> r.None?
      ensures !old(PassesPreChecks(tx, checks)) ==>
                r.Some? && r.value.Err? && old(RefusesEarly(tx, checks, options, r.value.error))
      ensures old(PassesPreChecks(tx, checks)) && r == Some(Err(Rejected)) ==> !checks.scripts
      ensures !old(Admissible(tx, checks, time, height)) ==> r != Some(Ok(())) && unchanged(this) && unchanged(arena)
      ensures old(Admissible(tx, checks, time, height)) ==>
        && AllSized(old(arena.entries)) && r.Some? && unlisted == old(unlisted) + {old(arena.nextId)}
        && arena.entries == Accepted(old(arena.entries), old(arena.nextId), Joining(tx, checks.coins.value, time, height))
        && arena.entries.Keys == old(arena.entries.Keys) + {old(arena.nextId)}
        && (var e, facts := arena.entries[old(arena.nextId)], checks.coins.value;
            && e.tx == tx && e.fee == facts.fee && e.modifiedFee == facts.fee && e.sigopCost == facts.sigopCost
            && e.lockPoints == facts.lockPoints && e.spendsCoinbase == facts.spendsCoinbase
            && e.time == time && e.entryHeight == height)
        && (forall i :: i in old(arena.entries) ==> SameSelf(old(arena.entries)[i], arena.entries[i]))
        && (r.value.Ok? <==> old(totalFee) + checks.coins.value.fee < U64_SIZE)
        && unbroadcast == if r.value.Ok? then old(unbroadcast) + {tx.txid} else old(unbroadcast)
      ensures old(FeesExact()) ==> FeesExact() || r == Some(Err(FeeOverflow))
      ensures r == Some(Err(FeeOverflow)) ==> old(TooDear(tx, checks))
    {
      hide Arena.Valid, Books, Shape, RoomFor, AncestorIds, Accepted, SumOver, Total, VsizeOf, Announced, FeesExceed,
           RefusesEarly, Crowded;
      var pre := PreChecks(tx, checks, options);
      if pre.Err? { return Some(Err(pre.error)); }
      var room := CheckPackageLimits(tx);
      if room != Some(Ok(())) { return room; }
      if !checks.scripts { return Some(Err(Rejected)); }
      ghost var above := AncestorIds(arena.entries, tx);
      if !FeesFit(Joining(tx, checks.coins.value, time, height)) {
        FeesOfExceed(arena.entries, above, checks.coins.value.fee);
      }
      var added := FinalizeTx(Joining(tx, checks.coins.value, time, height));
      if added.Err? { return Some(Err(added.error)); }
      return Some(Ok(()));
    }

    /** An expiry that takes an entry and leaves something below it. */
    ghost predicate Orphans(call: Call)
      reads arena
    {
      call.DropExpired? && !DescentClosed(arena.entries, OlderThan(arena.entries, call.now - call.maxAge))
    }

    /** One call. `None` is a panic. */
    method Step(call: Call) returns (r: Option<Result<(), Error>>)
      requires Consistent() && RealCall(call)
      modifies this, arena
      ensures Consistent() && (old(FeesExact()) ==> FeesExact() || r == Some(Err(FeeOverflow)))
      ensures old(Valid()) ==> r.Some? && (Valid() <==> !old(Orphans(call)))
      ensures r == Some(Err(FeeOverflow)) ==> call.Accept? && old(TooDear(call.tx, call.checks))
      ensures !call.Accept? ==> PartOf(arena.entries, old(arena.entries))
      ensures call.Accept? && !old(Admissible(call.tx, call.checks, call.time, call.height)) ==>
                arena.entries == old(arena.entries)
      ensures call.Accept? && old(Admissible(call.tx, call.checks, call.time, call.height)) ==>
        && AllSized(old(arena.entries))
        && arena.entries == Accepted(old(arena.entries), old(arena.nextId),
                                     Joining(call.tx, call.checks.coins.value, call.time, call.height))
      ensures call.ConnectBlock? ==> forall i, tx :: i in arena.entries && tx in call.txs ==>
                !Spends(arena.entries[i], tx.inputs)
      ensures Moves(old(arena.entries), arena.entries, call) && (r.None? ==> arena.entries == old(arena.entries))
      ensures old(Valid()) && (call.ConnectBlock? || call.DropConflicts? || call.Reorganise?) ==>
                GoneIff(old(arena.entries), arena.entries, call)
    {
      hide Valid, Consistent, FeesExact, AncestorIds, Closure, Touched, Clashes, Spends, Invalid, FreshList,
           DescentClosed, OlderThan, Evicted, EachOverdue, SameScores, EvictsLowest, Accepted, RoomFor, Admissible,
           TooDear, AllSized;
      hide Survives, Moves, GoneIff, SameSelf, AdmittedBy;
      r := Some(Ok(()));
      ghost var before := arena.entries;
      match call
      case Accept(tx, checks, options, time, height) =>
        ghost var id := arena.nextId;
        if Valid() { AncestorsLive(tx); }
        assert id !in before by { ConsistentIsFresh(); }
        ghost var fits := Admissible(tx, checks, time, height);
        if fits { AdmissibleHasCoins(tx, checks, time, height); }
        r := AcceptSingle(tx, checks, options, time, height);
        if fits { AcceptMoves(before, arena.entries, id, call); } else { NothingMoves(before, call); }
      case ConnectBlock(txs) =>
        RemoveForBlock(txs);
        LeftByBlock(arena.entries, txs);
        RemovalMoves(before, arena.entries, call);
      case DropConflicts(txs) =>
        RemoveConflicts(txs);
        LeftByConflicts(arena.entries, txs);
        RemovalMoves(before, arena.entries, call);
      case Reorganise(tip) =>
        RemoveForReorg(tip);
        LeftByReorg(arena.entries, tip);
        RemovalMoves(before, arena.entries, call);
      case Trim(maxSize) =>
        ghost var heads := TrimToSize(maxSize);
        EvictedIsPart(before, heads);
        LeftByTrim(arena.entries, maxSize);
        RemovalMoves(before, arena.entries, call);
      case DropExpired(now, maxAge) =>
        Expire(now, maxAge);
        LeftByExpiry(arena.entries, now, maxAge);
        RemovalMoves(before, arena.entries, call);
    }

    lemma {:induction false} AdmissibleHasCoins(tx: Transaction, checks: Checks, time: int, height: nat)
      requires Admissible(tx, checks, time, height)
      ensures checks.coins.Some?
    {
    }

    lemma {:induction false} ConsistentIsFresh()
      requires Consistent()
      ensures arena.nextId !in arena.entries
    {
      hide Arena.Valid, Books, Announced;
      arena.NextIsFresh();
    }

    /** Every run: after any sequence of calls, accepted or refused, the books, the indices and the relay list agree
        with the live entries, and the fee total is exact unless some call reported an overflow. As long as no expiry
        has left an orphan, all invariants hold and no call panics; without expiry that is always so. Every live entry was
        there at the start or is what one of the calls asked for, and it has survived every call since. */
    method Run(calls: seq<Call>)
      returns (overflowed: bool, panicked: bool, ghost orphaned: bool, ghost done: nat, ghost since: map<Id, nat>)
      requires Valid() && FeesExact() && forall k :: 0 <= k < |calls| ==> RealCall(calls[k])
      modifies this, arena
      ensures Consistent() && (overflowed || FeesExact())
      ensures !orphaned ==> Valid() && !panicked
      ensures orphaned ==> exists k :: 0 <= k < |calls| && calls[k].DropExpired?
      ensures NamesAll(arena.entries, relayList) <==> unlisted == {}
      ensures if panicked then done < |calls| else done == |calls|
      ensures Tracked(old(arena.entries), calls, done, arena.entries, since)
    {
      hide Valid, Consistent, FeesExact, NamesAll, DescentClosed, OlderThan, Tracked, Moves, Since, Admissible, TooDear,
           Accepted, AllSized, Joining, PartOf, GoneIff, Spends;
      overflowed, panicked, orphaned := false, false, false;
      done, since := 0, map i | i in arena.entries :: 0;
      TrackedStart(arena.entries, calls);
      assert Consistent() by { ValidIsConsistent(); }
      for k := 0 to |calls|
        invariant Consistent() && (overflowed || FeesExact()) && (!orphaned ==> Valid())
        invariant orphaned ==> exists m :: 0 <= m < k && calls[m].DropExpired?
        invariant done == k && !panicked && Tracked(old(arena.entries), calls, k, arena.entries, since)
      {
        assert RealCall(calls[k]);
        ghost var before := arena.entries;
        ghost var orphans := Orphans(calls[k]);
        var r := Step(calls[k]);
        overflowed := overflowed || r == Some(Err(FeeOverflow));
        if r.None? {
          panicked := true;
          break;
        }
        TrackedMoves(old(arena.entries), calls, k, before, arena.entries, since);
        done, since := k + 1, Since(before, arena.entries, since, k);
        orphaned := orphaned || orphans;
      }
      ListIsCurrentIff();
    }

    lemma {:induction false} ValidIsConsistent()
      requires Valid()
      ensures Consistent()
    {
      hide Consistent;
    }
  }
}
