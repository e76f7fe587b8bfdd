/** The mempool's entry arena: a slot map with five secondary indices. */
module MempoolArena {
  import opened Bitcoin

  /** A slot key. It carries a version, so a key is never handed out twice. */
  type Id = nat

  const I64_SIGN: int := 0x8000_0000_0000_0000

  function WrapU64(x: int): nat {
    x % U64_SIZE
  }

  function WrapI64(x: int): int {
    WrapU64(x + I64_SIGN) - I64_SIGN
  }

  /** Division of signed machine integers truncates toward zero. */
  function TruncDiv(a: int, b: int): int
    requires b > 0
  {
    if a >= 0 then a / b else -(-a / b)
  }

  function Feerate(fee: nat, size: int): int
    requires size > 0
  {
    TruncDiv(WrapI64(fee * 1_000_000), size)
  }

  /** Key of a score index. `tie` is the txid in the ancestor index and the entry time in the descendant index. */
  datatype ScoreKey = ScoreKey(negFeerate: int, size: int, tie: int)

  datatype LockPoints = LockPoints(height: int, time: int, maxInputBlock: Option<nat>)

  datatype Entry = Entry(
    tx: Transaction,
    fee: nat,
    modifiedFee: nat,
    time: int,
    entryHeight: nat,
    spendsCoinbase: bool,
    sigopCost: nat,
    lockPoints: LockPoints,
    countWithAncestors: int,
    sizeWithAncestors: int,
    feesWithAncestors: nat,
    sigopsWithAncestors: int,
    countWithDescendants: int,
    sizeWithDescendants: int,
    feesWithDescendants: nat,
    parents: set<Id>,
    children: set<Id>,
    ancestorKey: ScoreKey,
    descendantKey: ScoreKey)

  type Entries = map<Id, Entry>

  /** The weight over four, rounded up. */
  function VsizeOf(tx: Transaction): (v: nat)
    ensures 4 * v - 4 < tx.weight <= 4 * v
  {
    (tx.weight + 3) / 4
  }

  function Vsize(e: Entry): nat {
    VsizeOf(e.tx)
  }

  /** A serialised transaction has more than one virtual byte, and totals that include it are no smaller. */
  predicate Sized(e: Entry) {
    Vsize(e) > 1 && e.sizeWithAncestors > 1 && e.sizeWithDescendants > 1
  }

  /** What the ancestor index is ordered by: the lower of the own feerate and that of the cached ancestor totals. */
  function AncestorScore(e: Entry): (score: int)
    requires Sized(e)
    ensures score in {Feerate(e.modifiedFee, Vsize(e)), Feerate(e.feesWithAncestors, e.sizeWithAncestors)}
    ensures score <= Feerate(e.modifiedFee, Vsize(e)) && score <= Feerate(e.feesWithAncestors, e.sizeWithAncestors)
  {
    var own, withAncestors := Feerate(e.modifiedFee, Vsize(e)), Feerate(e.feesWithAncestors, e.sizeWithAncestors);
    if own <= withAncestors then own else withAncestors
  }

  /** What the descendant index is ordered by: the higher of the own feerate and that of the cached descendant totals. */
  function DescendantScore(e: Entry): (score: int)
    requires Sized(e)
    ensures score in {Feerate(e.modifiedFee, Vsize(e)), Feerate(e.feesWithDescendants, e.sizeWithDescendants)}
    ensures score >= Feerate(e.modifiedFee, Vsize(e)) && score >= Feerate(e.feesWithDescendants, e.sizeWithDescendants)
  {
    var own, withDescendants := Feerate(e.modifiedFee, Vsize(e)), Feerate(e.feesWithDescendants, e.sizeWithDescendants);
    if own >= withDescendants then own else withDescendants
  }

  function ComputeAncestorKey(e: Entry): ScoreKey
    requires Sized(e)
  {
    ScoreKey(WrapI64(-AncestorScore(e)), e.sizeWithAncestors, e.tx.txid)
  }

  function ComputeDescendantKey(e: Entry): ScoreKey
    requires Sized(e)
  {
    ScoreKey(WrapI64(-DescendantScore(e)), e.sizeWithDescendants, e.time)
  }

  function Rekey(e: Entry): Entry
    requires Sized(e)
  {
    e.(ancestorKey := ComputeAncestorKey(e), descendantKey := ComputeDescendantKey(e))
  }

  /** The cached keys are those computed from the current fields. */
  predicate Keyed(e: Entry) {
    Sized(e) && e.ancestorKey == ComputeAncestorKey(e) && e.descendantKey == ComputeDescendantKey(e)
  }

  lemma {:induction false} RekeyIsKeyed(e: Entry)
    requires Sized(e)
    ensures Keyed(Rekey(e)) && Rekey(e).tx == e.tx && Rekey(e).time == e.time
  {
  }

  /** Wrapping moves a number by whole multiples of 2^64 into the signed range. */
  lemma {:induction false} WrapIsCongruent(x: int) returns (k: int)
    ensures WrapI64(x) == x + k * 18_446_744_073_709_551_616
    ensures -9_223_372_036_854_775_808 <= WrapI64(x) < 9_223_372_036_854_775_808
  {
    k := -((x + I64_SIGN) / U64_SIZE);
  }

  /** A feerate is the wrapped fee in millionths over the size, rounded toward zero. */
  lemma {:induction false} FeerateRounds(fee: nat, size: int)
    requires size > 0
    ensures var a, r := WrapI64(fee * 1_000_000), Feerate(fee, size);
            if a >= 0 then r * size <= a < r * size + size else r * size - size < a <= r * size
  {
    var a := WrapI64(fee * 1_000_000);
    hide WrapI64;
    if a < 0 {
      assert (-a) / size * size <= -a < (-a) / size * size + size;
    }
  }

  lemma {:induction false} WrapFits(x: int)
    requires -I64_SIGN < x < I64_SIGN
    ensures WrapI64(x) == x
  {
  }

  lemma {:induction false} HalfAtMost(a: nat, b: int)
    requires b > 1
    ensures 0 <= 2 * (a / b) <= a
  {
    var q := a / b;
    assert q * b <= a;
    assert 2 * q <= q * b;
  }

  /** With more than one virtual byte a feerate stays clear of the ends of the range, so negating it is exact. */
  lemma {:induction false} FeerateRange(fee: nat, size: int)
    requires size > 1
    ensures -I64_SIGN < Feerate(fee, size) < I64_SIGN
  {
    var a := WrapI64(fee * 1_000_000);
    assert -I64_SIGN <= a < I64_SIGN;
    HalfAtMost(if a >= 0 then a else -a, size);
  }

  lemma {:induction false} KeyIsNegatedScore(e: Entry)
    requires Sized(e)
    ensures ComputeAncestorKey(e).negFeerate == -AncestorScore(e)
    ensures ComputeDescendantKey(e).negFeerate == -DescendantScore(e)
  {
    hide Feerate, WrapI64;
    FeerateRange(e.modifiedFee, Vsize(e));
    FeerateRange(e.feesWithAncestors, e.sizeWithAncestors);
    FeerateRange(e.feesWithDescendants, e.sizeWithDescendants);
    WrapFits(-AncestorScore(e));
    WrapFits(-DescendantScore(e));
  }

  function WithChild(e: Entry, child: Id): Entry {
    e.(children := e.children + {child})
  }

  function WithFee(e: Entry, newModifiedFee: nat): Entry
    requires Sized(e)
  {
    var feeDelta := WrapU64(newModifiedFee - e.modifiedFee);
    Rekey(e.(modifiedFee := newModifiedFee,
             feesWithAncestors := WrapU64(e.feesWithAncestors + feeDelta),
             feesWithDescendants := WrapU64(e.feesWithDescendants + feeDelta)))
  }

  lemma {:induction false} WrapDetour(fees: nat, delta: int)
    requires fees < U64_SIZE && delta < U64_SIZE && 0 < delta + U64_SIZE && 0 <= fees + delta < U64_SIZE
    ensures WrapU64(fees + WrapU64(delta)) == fees + delta
  {
  }

  /** The detour through unsigned words is harmless: the totals move by exactly the change of fee. */
  lemma {:induction false} FeeChangeIsExact(e: Entry, newModifiedFee: nat)
    requires Sized(e) && e.modifiedFee <= e.feesWithAncestors && e.modifiedFee <= e.feesWithDescendants
    requires newModifiedFee < U64_SIZE && e.feesWithAncestors < U64_SIZE && e.feesWithDescendants < U64_SIZE
    requires e.feesWithAncestors + newModifiedFee - e.modifiedFee < U64_SIZE
    requires e.feesWithDescendants + newModifiedFee - e.modifiedFee < U64_SIZE
    ensures WithFee(e, newModifiedFee).feesWithAncestors == e.feesWithAncestors + newModifiedFee - e.modifiedFee
    ensures WithFee(e, newModifiedFee).feesWithDescendants == e.feesWithDescendants + newModifiedFee - e.modifiedFee
  {
    hide WrapU64, ComputeAncestorKey, ComputeDescendantKey, Sized;
    WrapDetour(e.feesWithAncestors, newModifiedFee - e.modifiedFee);
    WrapDetour(e.feesWithDescendants, newModifiedFee - e.modifiedFee);
  }

  predicate CanGrowAncestors(e: Entry, sizeDelta: int, feeDelta: int) {
    Sized(e) && e.sizeWithAncestors + sizeDelta > 1 && e.feesWithAncestors + feeDelta >= 0
  }

  predicate CanGrowDescendants(e: Entry, sizeDelta: int, feeDelta: int) {
    Sized(e) && e.sizeWithDescendants + sizeDelta > 1 && e.feesWithDescendants + feeDelta >= 0
  }

  function WithAncestors(e: Entry, sizeDelta: int, feeDelta: int, countDelta: int, sigopsDelta: int): Entry
    requires CanGrowAncestors(e, sizeDelta, feeDelta)
  {
    Rekey(e.(sizeWithAncestors := e.sizeWithAncestors + sizeDelta,
             feesWithAncestors := e.feesWithAncestors + feeDelta,
             countWithAncestors := e.countWithAncestors + countDelta,
             sigopsWithAncestors := e.sigopsWithAncestors + sigopsDelta))
  }

  function WithDescendants(e: Entry, sizeDelta: int, feeDelta: int, countDelta: int): Entry
    requires CanGrowDescendants(e, sizeDelta, feeDelta)
  {
    Rekey(e.(sizeWithDescendants := e.sizeWithDescendants + sizeDelta,
             feesWithDescendants := e.feesWithDescendants + feeDelta,
             countWithDescendants := e.countWithDescendants + countDelta))
  }

  lemma {:induction false} AncestorKeyStays(e: Entry, sizeDelta: int, feeDelta: int, countDelta: int)
    requires Keyed(e) && CanGrowDescendants(e, sizeDelta, feeDelta)
    ensures var e' := e.(sizeWithDescendants := e.sizeWithDescendants + sizeDelta,
                         feesWithDescendants := e.feesWithDescendants + feeDelta,
                         countWithDescendants := e.countWithDescendants + countDelta);
            var entry := e'.(descendantKey := ComputeDescendantKey(e'));
            WithDescendants(e, sizeDelta, feeDelta, countDelta) == entry && Keyed(entry)
  {
    hide Feerate, WrapI64;
  }

  // ----- The order in which a sorted index is walked -----

  type Scored = (ScoreKey, Id)

  /** Lexicographic, as the source derives it for the key pairs. */
  predicate AtMost(a: Scored, b: Scored) {
    || a.0.negFeerate < b.0.negFeerate
    || (a.0.negFeerate == b.0.negFeerate &&
        (|| a.0.size < b.0.size
         || (a.0.size == b.0.size &&
             (|| a.0.tie < b.0.tie
              || (a.0.tie == b.0.tie && a.1 <= b.1)))))
  }

  ghost predicate IsFirst(s: set<Scored>, m: Scored) {
    m in s && forall x :: x in s ==> AtMost(m, x)
  }

  lemma {:induction false} FirstExists(s: set<Scored>)
    requires s != {}
    ensures exists m :: IsFirst(s, m)
    decreases s
  {
    var x :| x in s;
    if s == {x} {
      assert IsFirst(s, x);
    } else {
      FirstExists(s - {x});
      var m :| IsFirst(s - {x}, m);
      assert IsFirst(s, if AtMost(m, x) then m else x) by {
        forall y | y in s ensures AtMost(if AtMost(m, x) then m else x, y) {
          if y != x { assert y in s - {x}; }
        }
      }
    }
  }

  method First(s: set<Scored>) returns (m: Scored)
    requires s != {}
    ensures IsFirst(s, m)
  {
    FirstExists(s);
    m :| m in s && forall x :: x in s ==> AtMost(m, x);
  }

  ghost predicate InOrder(order: seq<Scored>) {
    forall i, j :: 0 <= i < j < |order| ==> AtMost(order[i], order[j])
  }

  /** Walks a sorted index from its first element. */
  method Walk(index: set<Scored>) returns (order: seq<Scored>)
    ensures Elements(order) == index && Distinct(order) && InOrder(order)
  {
    order := [];
    var todo := index;
    while todo != {}
      invariant Elements(order) + todo == index && Elements(order) !! todo
      invariant Distinct(order) && InOrder(order)
      invariant forall k, x :: 0 <= k < |order| && x in todo ==> AtMost(order[k], x)
      decreases todo
    {
      var m := First(todo);
      ElementsAppend(order, [m]);
      assert m !in order by { assert m !in Elements(order); }
      order, todo := order + [m], todo - {m};
    }
  }

  // ----- Indices -----

  function TxidOf(e: Entry): nat { e.tx.txid }
  function WtxidOf(e: Entry): nat { e.tx.wtxid }
  function AncestorKeyOf(e: Entry): ScoreKey { e.ancestorKey }
  function DescendantKeyOf(e: Entry): ScoreKey { e.descendantKey }
  function TimeOf(e: Entry): int { e.time }

  /** Each live entry is found under its key, and nothing else is found. In particular no two entries share a key. */
  ghost predicate HashIndex(entries: Entries, key: Entry -> nat, index: map<nat, Id>) {
    && (forall id :: id in entries ==> key(entries[id]) in index && index[key(entries[id])] == id)
    && (forall k :: k in index ==> index[k] in entries && key(entries[index[k]]) == k)
  }

  /** Each live entry is listed once, under its key, and nothing else is listed. */
  ghost predicate SortedIndex<K(!new)>(entries: Entries, key: Entry -> K, index: set<(K, Id)>) {
    forall x :: x in index <==> x.1 in entries && key(entries[x.1]) == x.0
  }

  lemma {:induction false} HashPut(entries: Entries, key: Entry -> nat, index: map<nat, Id>, id: Id, e: Entry)
    requires HashIndex(entries, key, index) && id !in entries && key(e) !in index
    ensures HashIndex(entries[id := e], key, index[key(e) := id])
  {
  }

  lemma {:induction false} HashDrop(entries: Entries, key: Entry -> nat, index: map<nat, Id>, id: Id)
    requires HashIndex(entries, key, index) && id in entries
    ensures HashIndex(entries - {id}, key, index - {key(entries[id])})
  {
  }

  lemma {:induction false} HashKeep(entries: Entries, key: Entry -> nat, index: map<nat, Id>, id: Id, e: Entry)
    requires HashIndex(entries, key, index) && id in entries && key(e) == key(entries[id])
    ensures HashIndex(entries[id := e], key, index)
  {
  }

  lemma {:induction false} SortedPut<K(!new)>(entries: Entries, key: Entry -> K, index: set<(K, Id)>, id: Id, e: Entry)
    requires SortedIndex(entries, key, index) && id !in entries
    ensures SortedIndex(entries[id := e], key, index + {(key(e), id)})
  {
  }

  lemma {:induction false} SortedDrop<K(!new)>(entries: Entries, key: Entry -> K, index: set<(K, Id)>, id: Id)
    requires SortedIndex(entries, key, index) && id in entries
    ensures SortedIndex(entries - {id}, key, index - {(key(entries[id]), id)})
  {
  }

  lemma {:induction false} SortedReplace<K(!new)>(entries: Entries, key: Entry -> K, index: set<(K, Id)>, id: Id, e: Entry)
    requires SortedIndex(entries, key, index) && id in entries
    ensures SortedIndex(entries[id := e], key, index - {(key(entries[id]), id)} + {(key(e), id)})
  {
  }

  lemma {:induction false} SortedKeep<K(!new)>(entries: Entries, key: Entry -> K, index: set<(K, Id)>, id: Id, e: Entry)
    requires SortedIndex(entries, key, index) && id in entries && key(e) == key(entries[id])
    ensures SortedIndex(entries[id := e], key, index)
  {
  }

  ghost predicate DistinctLive(entries: Entries) {
    forall i, j :: i in entries && j in entries && entries[i].tx.txid == entries[j].tx.txid ==> i == j
  }

  ghost predicate AllKeyed(entries: Entries, nextId: Id) {
    forall id :: id in entries ==> id < nextId && Keyed(entries[id])
  }

  lemma {:induction false} KeyedPut(entries: Entries, nextId: Id, id: Id, e: Entry)
    requires AllKeyed(entries, nextId) && id <= nextId && Keyed(e)
    ensures AllKeyed(entries[id := e], if id < nextId then nextId else id + 1)
  {
  }

  function Listed(order: seq<Scored>): seq<Id> {
    seq(|order|, i requires 0 <= i < |order| => order[i].1)
  }

  lemma {:induction false} ListsLiveEntries(entries: Entries, index: set<Scored>, order: seq<Scored>)
    requires SortedIndex(entries, AncestorKeyOf, index) && Elements(order) == index && Distinct(order)
    ensures Distinct(Listed(order)) && Elements(Listed(order)) == entries.Keys
  {
    var ids := Listed(order);
    forall i | 0 <= i < |order| ensures ids[i] in entries && order[i] == (entries[ids[i]].ancestorKey, ids[i]) {
      assert order[i] in Elements(order);
    }
    forall id | id in entries ensures id in ids {
      var x := (entries[id].ancestorKey, id);
      assert x in index && x in Elements(order);
      var i :| 0 <= i < |order| && order[i] == x;
      assert ids[i] == id;
    }
  }

  /** Mining order: falling score, then the smaller ancestor size, then the lower txid. */
  ghost predicate MinesBefore(a: Entry, b: Entry)
    requires Sized(a) && Sized(b)
  {
    || AncestorScore(a) > AncestorScore(b)
    || (AncestorScore(a) == AncestorScore(b)
        && (|| a.sizeWithAncestors < b.sizeWithAncestors
            || (a.sizeWithAncestors == b.sizeWithAncestors && a.tx.txid < b.tx.txid)))
  }

  /** The key order of the ancestor index is mining order. */
  lemma {:induction false} OrderFollowsScore(entries: Entries, nextId: Id, index: set<Scored>, order: seq<Scored>,
                                             i: nat, j: nat)
    requires AllKeyed(entries, nextId) && SortedIndex(entries, AncestorKeyOf, index) && DistinctLive(entries)
    requires Elements(order) == index && InOrder(order) && Distinct(order) && i < j < |order|
    ensures order[i].1 in entries && order[j].1 in entries
    ensures Sized(entries[order[i].1]) && Sized(entries[order[j].1])
    ensures MinesBefore(entries[order[i].1], entries[order[j].1])
  {
    hide AncestorScore;
    assert order[i] in Elements(order) && order[j] in Elements(order);
    var a, b := entries[order[i].1], entries[order[j].1];
    assert order[i] == (ComputeAncestorKey(a), order[i].1) && order[j] == (ComputeAncestorKey(b), order[j].1);
    KeyIsNegatedScore(a);
    KeyIsNegatedScore(b);
    hide Distinct;
    assert order[i] != order[j] by { DifferAt(order, i, j); }
  }

  lemma {:induction false} DifferAt<T>(s: seq<T>, i: nat, j: nat)
    requires Distinct(s) && i < j < |s|
    ensures s[i] != s[j]
  {
  }

  /** No live entry has a higher max(own feerate, descendant feerate). */
  ghost predicate HasTopScore(entries: Entries, head: Id) {
    && head in entries && Sized(entries[head])
    && forall id :: id in entries ==>
      Sized(entries[id]) && DescendantScore(entries[head]) >= DescendantScore(entries[id])
  }

  /** No live entry has a lower one. */
  ghost predicate HasBottomScore(entries: Entries, head: Id) {
    && head in entries && Sized(entries[head])
    && forall id :: id in entries ==>
      Sized(entries[id]) && DescendantScore(entries[head]) <= DescendantScore(entries[id])
  }

  ghost predicate SameScores(entries: Entries) {
    forall i, j :: i in entries && j in entries ==>
      Sized(entries[i]) && Sized(entries[j]) && DescendantScore(entries[i]) == DescendantScore(entries[j])
  }

  /** So what comes first in the index has the lowest score exactly when all scores are the same. */
  lemma {:induction false} TopIsBottomIff(entries: Entries, head: Id)
    requires HasTopScore(entries, head)
    ensures HasBottomScore(entries, head) <==> SameScores(entries)
  {
    hide DescendantScore, Sized;
    if HasBottomScore(entries, head) {
      forall i, j | i in entries && j in entries
        ensures Sized(entries[i]) && Sized(entries[j]) && DescendantScore(entries[i]) == DescendantScore(entries[j])
      {
        assert DescendantScore(entries[i]) == DescendantScore(entries[head]) == DescendantScore(entries[j]);
      }
    }
  }

  /** Eviction order: falling score, then the smaller descendant size, then the older entry, then the older key. */
  ghost predicate GoesBefore(a: Entry, i: Id, b: Entry, j: Id)
    requires Sized(a) && Sized(b)
  {
    || DescendantScore(a) > DescendantScore(b)
    || (DescendantScore(a) == DescendantScore(b)
        && (|| a.sizeWithDescendants < b.sizeWithDescendants
            || (a.sizeWithDescendants == b.sizeWithDescendants && (a.time < b.time || (a.time == b.time && i <= j)))))
  }

  lemma {:induction false} FirstHasTopScore(entries: Entries, nextId: Id, index: set<Scored>, m: Scored, id: Id)
    requires AllKeyed(entries, nextId) && SortedIndex(entries, DescendantKeyOf, index) && IsFirst(index, m)
    requires id in entries
    ensures m.1 in entries && Sized(entries[m.1]) && Sized(entries[id]) && GoesBefore(entries[m.1], m.1, entries[id], id)
  {
    hide DescendantScore;
    assert (entries[id].descendantKey, id) in index;
    var a, b := entries[m.1], entries[id];
    assert m.0 == ComputeDescendantKey(a) && entries[id].descendantKey == ComputeDescendantKey(b);
    KeyIsNegatedScore(a);
    KeyIsNegatedScore(b);
  }

  class Arena {
    var entries: Entries
    var nextId: Id
    var byTxid: map<Txid, Id>
    var byWtxid: map<nat, Id>
    var byAncestorScore: set<Scored>
    var byDescendantScore: set<Scored>
    var byEntryTime: set<(int, Id)>

    /** All five indices agree with the entries, and every cached key is current. */
    ghost predicate Valid()
      reads this
    {
      && AllKeyed(entries, nextId)
      && HashIndex(entries, TxidOf, byTxid)
      && HashIndex(entries, WtxidOf, byWtxid)
      && SortedIndex(entries, AncestorKeyOf, byAncestorScore)
      && SortedIndex(entries, DescendantKeyOf, byDescendantScore)
      && SortedIndex(entries, TimeOf, byEntryTime)
    }

    constructor ()
      ensures Valid() && entries == map[] && nextId == 0
    {
      entries, nextId, byTxid, byWtxid := map[], 0, map[], map[];
      byAncestorScore, byDescendantScore, byEntryTime := {}, {}, {};
    }

    lemma {:induction false} TxidsAreIndexed()
      requires Valid()
      ensures HashIndex(entries, TxidOf, byTxid)
    {
    }

    lemma {:induction false} TxidsAreDistinct()
      requires Valid()
      ensures DistinctLive(entries)
    {
    }

    lemma {:induction false} EntryIsSized(id: Id)
      requires Valid() && id in entries
      ensures Sized(entries[id])
    {
    }

    lemma {:induction false} NextIsFresh()
      requires Valid()
      ensures nextId !in entries
    {
    }

    method Insert(e: Entry) returns (id: Id)
      requires Valid() && Sized(e) && e.tx.txid !in byTxid && e.tx.wtxid !in byWtxid
      modifies this
      ensures Valid() && id == old(nextId) && nextId == id + 1
      ensures entries == old(entries)[id := Rekey(e)]
    {
      hide Rekey, Keyed, Sized, HashIndex, SortedIndex;
      RekeyIsKeyed(e);
      var entry := Rekey(e);
      id := nextId;
      KeyedPut(entries, nextId, id, entry);
      HashPut(entries, TxidOf, byTxid, id, entry);
      HashPut(entries, WtxidOf, byWtxid, id, entry);
      SortedPut(entries, AncestorKeyOf, byAncestorScore, id, entry);
      SortedPut(entries, DescendantKeyOf, byDescendantScore, id, entry);
      SortedPut(entries, TimeOf, byEntryTime, id, entry);
      hide AllKeyed;
      entries, nextId := entries[id := entry], nextId + 1;
      byTxid, byWtxid := byTxid[e.tx.txid := id], byWtxid[e.tx.wtxid := id];
      byAncestorScore := byAncestorScore + {(entry.ancestorKey, id)};
      byDescendantScore := byDescendantScore + {(entry.descendantKey, id)};
      byEntryTime := byEntryTime + {(e.time, id)};
    }

    /** Takes the entry out of both score indices by its cached keys, replaces it, and puts it back under fresh keys. */
    method Reindex(id: Id, e: Entry)
      requires Valid() && id in entries && Sized(e)
      requires e.tx == entries[id].tx && e.time == entries[id].time
      modifies `entries, `byAncestorScore, `byDescendantScore
      ensures Valid() && entries == old(entries)[id := Rekey(e)]
    {
      hide Rekey, Keyed, Sized, HashIndex, SortedIndex;
      RekeyIsKeyed(e);
      var entry := Rekey(e);
      KeyedPut(entries, nextId, id, entry);
      HashKeep(entries, TxidOf, byTxid, id, entry);
      HashKeep(entries, WtxidOf, byWtxid, id, entry);
      SortedReplace(entries, AncestorKeyOf, byAncestorScore, id, entry);
      SortedReplace(entries, DescendantKeyOf, byDescendantScore, id, entry);
      SortedKeep(entries, TimeOf, byEntryTime, id, entry);
      byAncestorScore := byAncestorScore - {(entries[id].ancestorKey, id)};
      byDescendantScore := byDescendantScore - {(entries[id].descendantKey, id)};
      entries := entries[id := entry];
      byAncestorScore := byAncestorScore + {(entry.ancestorKey, id)};
      byDescendantScore := byDescendantScore + {(entry.descendantKey, id)};
    }

    method UpdateAncestorState(id: Id, sizeDelta: int, feeDelta: int, countDelta: int, sigopsDelta: int)
      requires Valid() && id in entries && CanGrowAncestors(entries[id], sizeDelta, feeDelta)
      modifies `entries, `byAncestorScore, `byDescendantScore
      ensures Valid()
      ensures entries
              == old(entries)[id := WithAncestors(old(entries)[id], sizeDelta, feeDelta, countDelta, sigopsDelta)]
    {
      hide Rekey, Valid;
      var e := entries[id];
      Reindex(id, e.(sizeWithAncestors := e.sizeWithAncestors + sizeDelta,
                     feesWithAncestors := e.feesWithAncestors + feeDelta,
                     countWithAncestors := e.countWithAncestors + countDelta,
                     sigopsWithAncestors := e.sigopsWithAncestors + sigopsDelta));
    }

    /** Only the descendant index is touched: the ancestor key does not depend on what changes. */
    method UpdateDescendantState(id: Id, sizeDelta: int, feeDelta: int, countDelta: int)
      requires Valid() && id in entries && CanGrowDescendants(entries[id], sizeDelta, feeDelta)
      modifies `entries, `byDescendantScore
      ensures Valid()
      ensures entries == old(entries)[id := WithDescendants(old(entries)[id], sizeDelta, feeDelta, countDelta)]
    {
      hide HashIndex, SortedIndex;
      var e := entries[id];
      var e' := e.(sizeWithDescendants := e.sizeWithDescendants + sizeDelta,
                   feesWithDescendants := e.feesWithDescendants + feeDelta,
                   countWithDescendants := e.countWithDescendants + countDelta);
      var entry := e'.(descendantKey := ComputeDescendantKey(e'));
      AncestorKeyStays(e, sizeDelta, feeDelta, countDelta);
      hide WithDescendants, ComputeDescendantKey, Keyed;
      KeyedPut(entries, nextId, id, entry);
      HashKeep(entries, TxidOf, byTxid, id, entry);
      HashKeep(entries, WtxidOf, byWtxid, id, entry);
      SortedKeep(entries, AncestorKeyOf, byAncestorScore, id, entry);
      SortedReplace(entries, DescendantKeyOf, byDescendantScore, id, entry);
      SortedKeep(entries, TimeOf, byEntryTime, id, entry);
      byDescendantScore := byDescendantScore - {(e.descendantKey, id)};
      entries := entries[id := entry];
      byDescendantScore := byDescendantScore + {(entry.descendantKey, id)};
    }

    /** Priority adjustment. The difference passes through unsigned 64-bit words, which cancels out. */
    method UpdateModifiedFee(id: Id, newModifiedFee: nat)
      requires Valid() && id in entries
      modifies `entries, `byAncestorScore, `byDescendantScore
      ensures Valid() && entries == old(entries)[id := WithFee(old(entries)[id], newModifiedFee)]
    {
      hide Rekey, WrapU64, HashIndex, SortedIndex, ComputeAncestorKey, ComputeDescendantKey;
      var e := entries[id];
      assert Sized(e);
      hide Valid;
      var feeDelta := WrapU64(newModifiedFee - e.modifiedFee);
      Reindex(id, e.(modifiedFee := newModifiedFee,
                     feesWithAncestors := WrapU64(e.feesWithAncestors + feeDelta),
                     feesWithDescendants := WrapU64(e.feesWithDescendants + feeDelta)));
    }

    /** A link to a new child. No key depends on it. */
    method AddChild(id: Id, child: Id)
      requires Valid() && id in entries
      modifies `entries
      ensures Valid() && entries == old(entries)[id := WithChild(old(entries)[id], child)]
    {
      hide HashIndex, SortedIndex;
      var entry := WithChild(entries[id], child);
      KeyedPut(entries, nextId, id, entry);
      HashKeep(entries, TxidOf, byTxid, id, entry);
      HashKeep(entries, WtxidOf, byWtxid, id, entry);
      SortedKeep(entries, AncestorKeyOf, byAncestorScore, id, entry);
      SortedKeep(entries, DescendantKeyOf, byDescendantScore, id, entry);
      SortedKeep(entries, TimeOf, byEntryTime, id, entry);
      entries := entries[id := entry];
    }

    method Remove(id: Id) returns (removed: Option<Entry>)
      requires Valid()
      modifies this
      ensures Valid() && nextId == old(nextId) && entries == old(entries) - {id}
      ensures removed == if id in old(entries) then Some(old(entries)[id]) else None
    {
      hide Keyed, HashIndex, SortedIndex;
      if id !in entries {
        assert entries - {id} == entries;
        return None;
      }
      var e := entries[id];
      HashDrop(entries, TxidOf, byTxid, id);
      HashDrop(entries, WtxidOf, byWtxid, id);
      SortedDrop(entries, AncestorKeyOf, byAncestorScore, id);
      SortedDrop(entries, DescendantKeyOf, byDescendantScore, id);
      SortedDrop(entries, TimeOf, byEntryTime, id);
      entries := entries - {id};
      byTxid, byWtxid := byTxid - {e.tx.txid}, byWtxid - {e.tx.wtxid};
      byAncestorScore := byAncestorScore - {(e.ancestorKey, id)};
      byDescendantScore := byDescendantScore - {(e.descendantKey, id)};
      byEntryTime := byEntryTime - {(e.time, id)};
      return Some(e);
    }

    function GetByTxid(txid: Txid): Option<Id>
      reads this
    {
      if txid in byTxid then Some(byTxid[txid]) else None
    }

    /** Mining order: every live entry once, never a higher min(own feerate, ancestor feerate) after a lower one; ties
        go by ancestor size and then by txid. */
    method IterByAncestorScore() returns (ids: seq<Id>)
      requires Valid()
      ensures Distinct(ids) && Elements(ids) == entries.Keys
      ensures forall i :: 0 <= i < |ids| ==> ids[i] in entries && Sized(entries[ids[i]])
      ensures forall i, j :: 0 <= i < j < |ids| ==> MinesBefore(entries[ids[i]], entries[ids[j]])
    {
      var order := Walk(byAncestorScore);
      ids := Listed(order);
      ListsLiveEntries(entries, byAncestorScore, order);
      TxidsAreDistinct();
      forall i | 0 <= i < |ids| ensures ids[i] in entries && Sized(entries[ids[i]]) {
        assert ids[i] in Elements(ids);
      }
      hide MinesBefore, SortedIndex, InOrder, Keyed, DistinctLive;
      forall i, j | 0 <= i < j < |ids| ensures MinesBefore(entries[ids[i]], entries[ids[j]]) {
        OrderFollowsScore(entries, nextId, byAncestorScore, order, i, j);
      }
    }

    /** The first entry of the descendant index, if any. */
    method FirstByDescendantScore() returns (r: Option<Id>)
      requires Valid()
      ensures r.None? <==> entries == map[]
      ensures r.Some? ==> r.value in entries && HasTopScore(entries, r.value)
      ensures r.Some? ==> forall id :: id in entries ==> GoesBefore(entries[r.value], r.value, entries[id], id)
      ensures r.Some? ==> (HasBottomScore(entries, r.value) <==> SameScores(entries))
    {
      if byDescendantScore == {} {
        assert entries == map[] by {
          forall id ensures id !in entries {
            assert (if id in entries then entries[id].descendantKey else ScoreKey(0, 0, 0), id) !in byDescendantScore;
          }
        }
        return None;
      }
      var m := First(byDescendantScore);
      assert m.1 in entries;
      forall id | id in entries
        ensures Sized(entries[id]) && Sized(entries[m.1]) && GoesBefore(entries[m.1], m.1, entries[id], id)
      {
        FirstHasTopScore(entries, nextId, byDescendantScore, m, id);
      }
      TopIsBottomIff(entries, m.1);
      return Some(m.1);
    }
  }
}
