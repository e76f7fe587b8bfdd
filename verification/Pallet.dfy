/** The UTXO set of the runtime: `Coins` and `CoinsCount`, and the one operation that changes them. */
module Pallet {
  import opened Bitcoin
  import opened Sums

  /** Heights of the two coinbases that a later coinbase repeats. Their outputs are skipped, so the repeats overwrite
      nothing (BIP 30). */
  const BIP30_EXCEPTION_HEIGHTS: set<nat> := {91722, 91812}

  predicate SkippedByBip30(tx: Transaction, height: nat) {
    IsCoinbase(tx) && height in BIP30_EXCEPTION_HEIGHTS
  }

  function CoinOf(tx: Transaction, vout: nat, height: nat): Coin
    requires vout < |tx.outputs|
  {
    Coin(IsCoinbase(tx), tx.outputs[vout].value, height, tx.outputs[vout].script)
  }

  /** The coins of the first `n` outputs; OP_RETURN outputs create none. */
  function CoinsOfOutputs(tx: Transaction, height: nat, n: nat): (r: Coins)
    requires n <= |tx.outputs|
    ensures forall op :: op in r <==> op.txid == tx.txid && op.vout < n && !IsOpReturn(tx.outputs[op.vout].script)
    ensures forall op :: op in r ==> r[op] == CoinOf(tx, op.vout, height)
  {
    if n == 0 then map[] else
      var r := CoinsOfOutputs(tx, height, n - 1);
      if IsOpReturn(tx.outputs[n - 1].script) then r else r[OutPoint(tx.txid, n - 1) := CoinOf(tx, n - 1, height)]
  }

  /** Everything a transaction adds to the UTXO set. */
  function Created(tx: Transaction, height: nat): Coins {
    if SkippedByBip30(tx, height) then map[] else CoinsOfOutputs(tx, height, |tx.outputs|)
  }

  /** Every consumed coin exists, and none is consumed twice. */
  predicate Spendable(coins: Coins, tx: Transaction) {
    IsCoinbase(tx) || (Distinct(tx.inputs) && Elements(tx.inputs) <= coins.Keys)
  }

  /** The UTXO set after a transaction; `None` is the panic on a missing coin. */
  function ApplyTx(coins: Coins, tx: Transaction, height: nat): Option<Coins> {
    if Spendable(coins, tx) then Some((coins - Spent(tx)) + Created(tx, height)) else None
  }

  function ApplyTxs(coins: Coins, txs: seq<Transaction>, height: nat): Option<Coins>
    decreases |txs|
  {
    if txs == [] then Some(coins) else
      match ApplyTx(coins, txs[0], height)
      case None => None
      case Some(next) => ApplyTxs(next, txs[1..], height)
  }

  function Consumed(tx: Transaction): nat {
    if IsCoinbase(tx) then 0 else |tx.inputs|
  }

  function CountAfter(count: int, tx: Transaction, height: nat): int {
    count + |Created(tx, height)| - Consumed(tx)
  }

  function CountAfterAll(count: int, txs: seq<Transaction>, height: nat): int
    decreases |txs|
  {
    if txs == [] then count else CountAfterAll(CountAfter(count, txs[0], height), txs[1..], height)
  }

  /** How many created coins land on an outpoint that is still in the set (what BIP 30 forbids). */
  function Overwritten(coins: Coins, tx: Transaction, height: nat): nat {
    |Created(tx, height).Keys * (coins.Keys - Spent(tx))|
  }

  /** The exact size of the set after a transaction; in particular the subtraction never underflows. */
  lemma {:induction false} SizeAfter(coins: Coins, tx: Transaction, height: nat)
    requires ApplyTx(coins, tx, height).Some?
    ensures Consumed(tx) <= |coins|
    ensures |ApplyTx(coins, tx, height).value| + Overwritten(coins, tx, height)
         == |coins| + |Created(tx, height)| - Consumed(tx)
  {
    var left, made, gone := coins.Keys - Spent(tx), Created(tx, height).Keys, Spent(tx);
    assert gone <= coins.Keys && |gone| == Consumed(tx) by {
      if !IsCoinbase(tx) { DistinctSize(tx.inputs); }
    }
    SubsetSize(gone, coins.Keys);
    UnionSize(left, made);
    assert ApplyTx(coins, tx, height).value.Keys == left + made;
  }

  ghost predicate FreshRun(coins: Coins, txs: seq<Transaction>, height: nat)
    decreases |txs|
  {
    txs != [] ==>
      && Overwritten(coins, txs[0], height) == 0
      && (ApplyTx(coins, txs[0], height).Some? ==> FreshRun(ApplyTx(coins, txs[0], height).value, txs[1..], height))
  }

  /** A counter that agrees with the set never drops below zero, and goes on agreeing after a
      transaction exactly when no coin was overwritten. */
  lemma {:induction false} CountTracksSize(coins: Coins, tx: Transaction, height: nat)
    requires ApplyTx(coins, tx, height).Some?
    ensures |coins| - Consumed(tx) >= 0
    ensures CountAfter(|coins|, tx, height) == |ApplyTx(coins, tx, height).value| <==>
              Overwritten(coins, tx, height) == 0
  {
    SizeAfter(coins, tx, height);
  }

  /** How many coins a run overwrites. */
  function TotalOverwritten(coins: Coins, txs: seq<Transaction>, height: nat): nat
    decreases |txs|
  {
    if txs == [] then 0 else
      Overwritten(coins, txs[0], height) +
      match ApplyTx(coins, txs[0], height)
      case None => 0
      case Some(next) => TotalOverwritten(next, txs[1..], height)
  }

  /** Over a run the counter moves away from the size of the set by exactly the number of coins overwritten. */
  lemma {:induction false} CountDrifts(coins: Coins, count: int, txs: seq<Transaction>, height: nat)
    requires ApplyTxs(coins, txs, height).Some?
    ensures CountAfterAll(count, txs, height) - |ApplyTxs(coins, txs, height).value|
         == count - |coins| + TotalOverwritten(coins, txs, height)
    ensures TotalOverwritten(coins, txs, height) == 0 <==> FreshRun(coins, txs, height)
    decreases |txs|
  {
    if txs != [] {
      var next := ApplyTx(coins, txs[0], height).value;
      SizeAfter(coins, txs[0], height);
      hide ApplyTx, Overwritten, Created, Consumed;
      CountDrifts(next, CountAfter(count, txs[0], height), txs[1..], height);
    }
  }

  /** Along a run the counter ends as the size of the set exactly when nothing was overwritten. */
  lemma {:induction false} CountTracksRun(coins: Coins, txs: seq<Transaction>, height: nat)
    requires ApplyTxs(coins, txs, height).Some?
    ensures CountAfterAll(|coins|, txs, height) == |ApplyTxs(coins, txs, height).value| <==>
              FreshRun(coins, txs, height)
  {
    hide *;
    CountDrifts(coins, |coins|, txs, height);
  }

  /** A coinbase paying one output. */
  function Payout(txid: Txid, script: Script): Transaction {
    Transaction(txid, txid, [OutPoint(0, 0xFFFF_FFFF)], [TxOut(50, script)], 2, 100, 400)
  }

  lemma {:induction false} PayoutCreates(txid: Txid, script: Script, height: nat)
    requires !IsOpReturn(script) && height !in BIP30_EXCEPTION_HEIGHTS
    ensures Created(Payout(txid, script), height) == map[OutPoint(txid, 0) := Coin(true, 50, height, script)]
  {
    var tx := Payout(txid, script);
    assert CoinsOfOutputs(tx, height, 0) == map[] && CoinOf(tx, 0, height) == Coin(true, 50, height, script);
  }

  /** What BIP 30 is about: a coinbase that repeats a txid still in the set adds nothing and is counted all the same. */
  lemma {:induction false} RepeatedCoinbaseMiscounts(script: Script, before: Coins)
    requires !IsOpReturn(script) && before == map[OutPoint(5, 0) := Coin(true, 50, 1, script)]
    ensures ApplyTx(before, Payout(5, script), 2) == Some(map[OutPoint(5, 0) := Coin(true, 50, 2, script)])
    ensures |before| == 1 && CountAfter(|before|, Payout(5, script), 2) == 2
  {
    var tx := Payout(5, script);
    PayoutCreates(5, script, 2);
    assert IsCoinbase(tx) && before - Spent(tx) == before;
    assert |Created(tx, 2)| == 1;
    assert before + Created(tx, 2) == Created(tx, 2);
  }

  lemma {:induction false} ApplyTxsAppend(coins: Coins, txs: seq<Transaction>, more: seq<Transaction>, height: nat)
    ensures ApplyTxs(coins, txs + more, height)
         == match ApplyTxs(coins, txs, height)
            case None => None
            case Some(mid) => ApplyTxs(mid, more, height)
    decreases |txs|
  {
    if txs == [] {
      assert txs + more == more;
    } else {
      assert (txs + more)[1..] == txs[1..] + more;
      match ApplyTx(coins, txs[0], height)
      case None =>
      case Some(next) => ApplyTxsAppend(next, txs[1..], more, height);
    }
  }

  lemma {:induction false} ApplyOne(coins: Coins, tx: Transaction, height: nat)
    ensures ApplyTxs(coins, [tx], height) == ApplyTx(coins, tx, height)
  {
  }

  lemma {:induction false} ApplyTxsPush(coins: Coins, txs: seq<Transaction>, tx: Transaction, height: nat)
    ensures ApplyTxs(coins, txs + [tx], height)
         == match ApplyTxs(coins, txs, height)
            case None => None
            case Some(mid) => ApplyTx(mid, tx, height)
  {
    hide *;
    ApplyTxsAppend(coins, txs, [tx], height);
    if ApplyTxs(coins, txs, height).Some? { ApplyOne(ApplyTxs(coins, txs, height).value, tx, height); }
  }

  lemma {:induction false} ApplyTxCases(coins: Coins, tx: Transaction, height: nat)
    ensures SkippedByBip30(tx, height) ==> ApplyTx(coins, tx, height) == Some(coins)
    ensures !SkippedByBip30(tx, height) && Spendable(coins, tx) ==>
              ApplyTx(coins, tx, height) == Some(coins - Spent(tx) + CoinsOfOutputs(tx, height, |tx.outputs|))
    ensures IsCoinbase(tx) ==> coins - Spent(tx) == coins
  {
    if IsCoinbase(tx) {
      assert coins - Spent(tx) == coins;
      assert coins + map[] == coins;
    }
  }

  // ----- Written out -----

  /** The one input of a coinbase names no output: txid zero, index 2^32 - 1. */
  ghost predicate Rewards(tx: Transaction) {
    |tx.inputs| == 1 && tx.inputs[0] == OutPoint(0, 4_294_967_295)
  }

  /** Output `i` of the transaction may be stored: its script does not start with OP_RETURN. */
  ghost predicate Storable(tx: Transaction, i: nat) {
    i < |tx.outputs| && !(|tx.outputs[i].script.bytes| > 0 && tx.outputs[i].script.bytes[0] == 106)
  }

  /** The transaction stores a coin at the outpoint: one of its storable outputs, unless it is one of the two coinbases
      that are skipped. */
  ghost predicate Stores(tx: Transaction, height: nat, op: OutPoint) {
    op.txid == tx.txid && Storable(tx, op.vout) && !(Rewards(tx) && (height == 91_722 || height == 91_812))
  }

  /** The set after a transaction: what it stores, with value, script, height and whether it is a coinbase, and of what was
      there all that it does not spend. */
  ghost predicate StateAfter(before: Coins, after: Coins, tx: Transaction, height: nat) {
    && (forall op :: op in after <==>
          Stores(tx, height, op) || (op in before && (Rewards(tx) || op !in tx.inputs)))
    && forall op :: op in after ==>
         after[op] == if Stores(tx, height, op)
                      then Coin(Rewards(tx), tx.outputs[op.vout].value, height, tx.outputs[op.vout].script)
                      else before[op]
  }

  /** Exactly the storable outputs, with value, script, height and whether it is a coinbase. */
  ghost predicate AreNewCoins(tx: Transaction, height: nat, coins: Coins) {
    && (forall op :: op in coins <==> op.txid == tx.txid && Storable(tx, op.vout))
    && forall op :: op in coins ==>
         coins[op] == Coin(Rewards(tx), tx.outputs[op.vout].value, height, tx.outputs[op.vout].script)
  }

  lemma {:induction false} NewCoinsAre(tx: Transaction, height: nat)
    ensures AreNewCoins(tx, height, CoinsOfOutputs(tx, height, |tx.outputs|))
  {
  }

  lemma {:induction false} ApplyTxMeans(coins: Coins, tx: Transaction, height: nat)
    ensures ApplyTx(coins, tx, height).None? <==>
              !Rewards(tx) && ((exists op :: op in tx.inputs && op !in coins) || !Distinct(tx.inputs))
    ensures ApplyTx(coins, tx, height).Some? ==> StateAfter(coins, ApplyTx(coins, tx, height).value, tx, height)
  {
    hide Distinct;
    forall op ensures op in Created(tx, height) <==> Stores(tx, height, op) {}
    if !Rewards(tx) {
      assert (exists op :: op in tx.inputs && op !in coins) <==> !(Elements(tx.inputs) <= coins.Keys);
    }
  }

  function FromPairs(v: seq<(OutPoint, Coin)>): Coins {
    if v == [] then map[] else FromPairs(v[..|v| - 1])[v[|v| - 1].0 := v[|v| - 1].1]
  }

  lemma {:induction false} FromPairsPush(v: seq<(OutPoint, Coin)>, op: OutPoint, coin: Coin)
    ensures FromPairs(v + [(op, coin)]) == FromPairs(v)[op := coin]
    ensures op !in FromPairs(v) ==> |FromPairs(v + [(op, coin)])| == |FromPairs(v)| + 1
  {
  }

  lemma {:induction false} NoPairs(tx: Transaction, height: nat)
    ensures FromPairs([]) == CoinsOfOutputs(tx, height, 0) == map[]
  {
  }

  lemma {:induction false} CoinsPush(tx: Transaction, height: nat, i: nat)
    requires i < |tx.outputs|
    ensures var before, op := CoinsOfOutputs(tx, height, i), OutPoint(tx.txid, i);
            && op !in before
            && CoinsOfOutputs(tx, height, i + 1)
               == if IsOpReturn(tx.outputs[i].script) then before else before[op := CoinOf(tx, i, height)]
  {
  }

  class Storage {
    var coins: Coins
    var coinsCount: int

    constructor ()
      ensures coins == map[] && coinsCount == 0
    {
      coins, coinsCount := map[], 0;
    }

    static method CollectNewCoins(tx: Transaction, height: nat) returns (v: seq<(OutPoint, Coin)>)
      ensures FromPairs(v) == CoinsOfOutputs(tx, height, |tx.outputs|)
      ensures |v| == |CoinsOfOutputs(tx, height, |tx.outputs|)|
      ensures AreNewCoins(tx, height, FromPairs(v))
    {
      hide AreNewCoins, CoinsOfOutputs, FromPairs, CoinOf, IsOpReturn;
      NewCoinsAre(tx, height);
      NoPairs(tx, height);
      v := [];
      for i := 0 to |tx.outputs|
        invariant FromPairs(v) == CoinsOfOutputs(tx, height, i)
        invariant |v| == |CoinsOfOutputs(tx, height, i)|
      {
        CoinsPush(tx, height, i);
        if !IsOpReturn(tx.outputs[i].script) {
          FromPairsPush(v, OutPoint(tx.txid, i), CoinOf(tx, i, height));
          v := v + [(OutPoint(tx.txid, i), CoinOf(tx, i, height))];
        }
      }
    }

    /** Overwrites or adds each pair in turn. */
    method InsertAll(v: seq<(OutPoint, Coin)>)
      modifies this`coins
      ensures coins == old(coins) + FromPairs(v)
    {
      for k := 0 to |v|
        invariant coins == old(coins) + FromPairs(v[..k])
      {
        coins := coins[v[k].0 := v[k].1];
        assert v[..k + 1][..k] == v[..k];
      }
      assert v[..|v|] == v;
    }

    /** Takes each input's coin in turn and stops at the first missing one. */
    method TakeAll(inputs: seq<OutPoint>) returns (missing: bool)
      modifies this`coins
      ensures missing <==> !(Distinct(inputs) && Elements(inputs) <= old(coins).Keys)
      ensures !missing ==> coins == old(coins) - Elements(inputs)
    {
      for k := 0 to |inputs|
        invariant Distinct(inputs[..k]) && Elements(inputs[..k]) <= old(coins).Keys
        invariant coins == old(coins) - Elements(inputs[..k])
      {
        assert inputs[..k + 1] == inputs[..k] + [inputs[k]];
        assert Elements(inputs[..k + 1]) == Elements(inputs[..k]) + {inputs[k]};
        if inputs[k] !in coins {
          if inputs[k] in old(coins) {
            var j :| 0 <= j < k && inputs[..k][j] == inputs[k];
            assert inputs[j] == inputs[k];
          }
          return true;
        }
        coins := coins - {inputs[k]};
      }
      assert inputs[..|inputs|] == inputs;
      return false;
    }

    method ProcessCoinbase(tx: Transaction, height: nat)
      requires IsCoinbase(tx)
      modifies this
      ensures Some(coins) == ApplyTx(old(coins), tx, height)
      ensures coinsCount == CountAfter(old(coinsCount), tx, height)
    {
      ApplyTxCases(coins, tx, height);
      if height in BIP30_EXCEPTION_HEIGHTS {
        return;
      }
      var newCoins := CollectNewCoins(tx, height);
      InsertAll(newCoins);
      coinsCount := coinsCount + |newCoins|;
    }

    method ProcessSpend(tx: Transaction, height: nat) returns (panicked: bool)
      requires !IsCoinbase(tx)
      modifies this
      ensures panicked <==> ApplyTx(old(coins), tx, height).None?
      ensures !panicked ==> Some(coins) == ApplyTx(old(coins), tx, height)
      ensures !panicked ==> coinsCount == CountAfter(old(coinsCount), tx, height)
    {
      var newCoins := CollectNewCoins(tx, height);
      panicked := TakeAll(tx.inputs);
      if !panicked {
        InsertAll(newCoins);
        coinsCount := coinsCount + |newCoins| - |tx.inputs|;
      }
    }

    /** Applies one transaction at the current height. A panic aborts the block, so nothing is
        promised about the storage it leaves. */
    method ProcessTransaction(tx: Transaction, height: nat) returns (panicked: bool)
      modifies this
      ensures panicked <==> ApplyTx(old(coins), tx, height).None?
      ensures !panicked ==> Some(coins) == ApplyTx(old(coins), tx, height)
      ensures !panicked ==> coinsCount == CountAfter(old(coinsCount), tx, height)
      ensures panicked <==>
                !Rewards(tx) && ((exists op :: op in tx.inputs && op !in old(coins)) || !Distinct(tx.inputs))
      ensures !panicked ==> StateAfter(old(coins), coins, tx, height)
    {
      ApplyTxMeans(coins, tx, height);
      hide ApplyTx, StateAfter, Distinct, Rewards;
      if IsCoinbase(tx) {
        ProcessCoinbase(tx, height);
        return false;
      }
      panicked := ProcessSpend(tx, height);
    }

    /** Applies a block's transactions in block order. */
    method ProcessBlock(txs: seq<Transaction>, height: nat) returns (panicked: bool)
      modifies this
      ensures panicked <==> ApplyTxs(old(coins), txs, height).None?
      ensures !panicked ==> Some(coins) == ApplyTxs(old(coins), txs, height)
      ensures !panicked ==> coinsCount == CountAfterAll(old(coinsCount), txs, height)
    {
      for k := 0 to |txs|
        invariant ApplyTxs(old(coins), txs, height) == ApplyTxs(coins, txs[k..], height)
        invariant CountAfterAll(old(coinsCount), txs, height) == CountAfterAll(coinsCount, txs[k..], height)
      {
        assert txs[k..][1..] == txs[k + 1..];
        var failed := ProcessTransaction(txs[k], height);
        if failed {
          return true;
        }
      }
      return false;
    }
  }
}
