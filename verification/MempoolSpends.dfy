/** The spend map and the set of unbroadcast txids, as functions of the live entries. */
module MempoolSpends {
  import opened Bitcoin
  import opened MempoolArena

  type SpendMap = map<OutPoint, Txid>

  ghost predicate SpentByLive(entries: Entries, op: OutPoint) {
    exists i :: i in entries && op in entries[i].tx.inputs
  }

  ghost predicate EntryTracked(e: Entry, next: SpendMap) {
    forall op :: op in e.tx.inputs ==> op in next && next[op] == e.tx.txid
  }

  /** The spend map names the spender of exactly the outpoints that live entries spend. */
  ghost predicate SpendsTracked(entries: Entries, next: SpendMap) {
    && (forall i :: i in entries ==> EntryTracked(entries[i], next))
    && (forall op :: op in next ==> SpentByLive(entries, op))
  }

  /** So no two live transactions spend the same outpoint. */
  lemma {:induction false} NoDoubleSpend(entries: Entries, next: SpendMap, i: Id, j: Id, op: OutPoint)
    requires DistinctLive(entries) && SpendsTracked(entries, next)
    requires i in entries && j in entries && op in entries[i].tx.inputs && op in entries[j].tx.inputs
    ensures i == j
  {
    assert EntryTracked(entries[i], next) && EntryTracked(entries[j], next);
  }

  function SpendsOfTx(tx: Transaction): SpendMap {
    map op | op in tx.inputs :: tx.txid
  }

  lemma {:induction false} TrackRemoval(entries: Entries, next: SpendMap, id: Id)
    requires DistinctLive(entries) && SpendsTracked(entries, next) && id in entries
    ensures SpendsTracked(entries - {id}, next - Elements(entries[id].tx.inputs))
  {
    var entries', next' := entries - {id}, next - Elements(entries[id].tx.inputs);
    forall i | i in entries' ensures EntryTracked(entries'[i], next') {
      assert EntryTracked(entries[i], next);
      forall op | op in entries[i].tx.inputs ensures op !in Elements(entries[id].tx.inputs) {
        if op in entries[id].tx.inputs { NoDoubleSpend(entries, next, i, id, op); }
      }
    }
    forall op | op in next' ensures SpentByLive(entries', op) {
      assert SpentByLive(entries, op);
      var i :| i in entries && op in entries[i].tx.inputs;
      assert i in entries' && op in entries'[i].tx.inputs;
    }
  }

  ghost predicate LiveTxid(entries: Entries, t: Txid) {
    exists i :: i in entries && entries[i].tx.txid == t
  }

  ghost predicate OnlyLive(entries: Entries, txids: set<Txid>) {
    forall t :: t in txids ==> LiveTxid(entries, t)
  }

  /** Those of the txids that are still live. */
  ghost function KeepLive(entries: Entries, txids: set<Txid>): set<Txid> {
    set t | t in txids && LiveTxid(entries, t)
  }

  lemma {:induction false} OneLessLive(entries: Entries, txids: set<Txid>, id: Id)
    requires DistinctLive(entries) && OnlyLive(entries, txids) && id in entries
    ensures KeepLive(entries - {id}, txids) == txids - {entries[id].tx.txid}
  {
    OnlyLiveRemoval(entries, txids, id);
    forall t | t in txids && LiveTxid(entries - {id}, t) ensures t != entries[id].tx.txid {
      var i :| i in entries - {id} && (entries - {id})[i].tx.txid == t;
      assert i in entries && i != id;
    }
  }

  /** Keeping the live ones before and after a further removal is keeping those live in the end. */
  lemma {:induction false} KeepLiveTwice(entries: Entries, s: set<Id>, txids: set<Txid>)
    ensures KeepLive(entries - s, KeepLive(entries, txids)) == KeepLive(entries - s, txids)
  {
  }

  lemma {:induction false} OnlyLiveRemoval(entries: Entries, txids: set<Txid>, id: Id)
    requires OnlyLive(entries, txids) && id in entries
    ensures OnlyLive(entries - {id}, txids - {entries[id].tx.txid})
  {
    forall t | t in txids && t != entries[id].tx.txid ensures LiveTxid(entries - {id}, t) {
      assert LiveTxid(entries, t);
      var i :| i in entries && entries[i].tx.txid == t;
      assert i in entries - {id} && (entries - {id})[i].tx.txid == t;
    }
  }

  lemma {:induction false} OnlyLiveExtend(entries: Entries, entries': Entries, txids: set<Txid>, id: Id)
    requires OnlyLive(entries, txids) && entries'.Keys == entries.Keys + {id}
    requires forall i :: i in entries ==> entries[i].tx == entries'[i].tx
    ensures OnlyLive(entries', txids + {entries'[id].tx.txid})
  {
  }
}
