/** The vocabulary shared by every component: outpoints, coins, transactions and blocks.
    A transaction carries its txid as a field, so nothing here depends on how it is hashed;
    a theorem that needs txids to be distinct, fresh or collision-free says so. */
module Bitcoin {
  datatype Option<+T> = None | Some(value: T)

  datatype Result<+T, +E> = Ok(value: T) | Err(error: E)

  type Txid = nat

  datatype OutPoint = OutPoint(txid: Txid, vout: nat)

  /** A locking script, with the address the node's network derives from it (if any). */
  datatype Script = Script(bytes: seq<nat>, address: Option<string>)

  datatype TxOut = TxOut(value: nat, script: Script)

  /** `inputs` are the previous outputs. `scriptSigLen` is the length of the first input's script. */
  datatype Transaction = Transaction(
    txid: Txid,
    wtxid: nat,
    inputs: seq<OutPoint>,
    outputs: seq<TxOut>,
    scriptSigLen: nat,
    baseSize: nat,
    weight: nat)

  /** `coinbaseHeight` is the height serialised in the coinbase script (BIP 34), if it parses. */
  datatype Block = Block(hash: nat, time: nat, coinbaseHeight: Option<nat>, txs: seq<Transaction>)

  datatype Coin = Coin(isCoinbase: bool, amount: nat, height: nat, script: Script)

  type Coins = map<OutPoint, Coin>

  const U64_SIZE: nat := 0x1_0000_0000_0000_0000
  const U32_SIZE: nat := 0x1_0000_0000
  const MAX_MONEY: nat := 21_000_000 * 100_000_000
  const MAX_BLOCK_WEIGHT: nat := 4_000_000
  const WITNESS_SCALE_FACTOR: nat := 4
  const MAX_BLOCK_SIGOPS_COST: nat := 80_000
  const COINBASE_MATURITY: nat := 100

  predicate IsNull(op: OutPoint) {
    op.txid == 0 && op.vout == 0xFFFF_FFFF
  }

  predicate IsCoinbase(tx: Transaction) {
    |tx.inputs| == 1 && IsNull(tx.inputs[0])
  }

  /** OP_RETURN (0x6a) in first position. */
  predicate IsOpReturn(script: Script) {
    |script.bytes| > 0 && script.bytes[0] == 0x6a
  }

  predicate Distinct<T(==)>(s: seq<T>) {
    forall i, j :: 0 <= i < j < |s| ==> s[i] != s[j]
  }

  predicate DistinctTxids(txs: seq<Transaction>) {
    forall i, j :: 0 <= i < j < |txs| ==> txs[i].txid != txs[j].txid
  }

  function Elements<T(==)>(s: seq<T>): (r: set<T>) {
    set x | x in s
  }

  lemma {:induction false} DistinctPush<T>(s: seq<T>, x: T)
    requires Distinct(s) && x !in Elements(s)
    ensures Distinct(s + [x]) && Elements(s + [x]) == Elements(s) + {x}
  {
  }

  lemma {:induction false} ElementsAppend<T>(a: seq<T>, b: seq<T>)
    ensures Elements(a + b) == Elements(a) + Elements(b)
  {
  }

  /** The outpoints a transaction removes from the UTXO set: a coinbase removes none. */
  function Spent(tx: Transaction): set<OutPoint> {
    if IsCoinbase(tx) then {} else Elements(tx.inputs)
  }

  function SumOutputs(outs: seq<TxOut>): nat {
    if outs == [] then 0 else SumOutputs(outs[..|outs| - 1]) + outs[|outs| - 1].value
  }

  lemma {:induction false} DistinctSize<T>(s: seq<T>)
    requires Distinct(s)
    ensures |Elements(s)| == |s|
  {
    if s != [] {
      var n := |s| - 1;
      DistinctSize(s[..n]);
      assert s == s[..n] + [s[n]];
      ElementsAppend(s[..n], [s[n]]);
      assert Elements([s[n]]) == {s[n]} && s[n] !in Elements(s[..n]);
    }
  }

  /** One of these outpoints is an output of the given transaction. */
  predicate SpendsFrom(ops: seq<OutPoint>, txid: Txid) {
    exists op :: op in ops && op.txid == txid
  }

  lemma {:induction false} SpendsFromPush(ops: seq<OutPoint>, op: OutPoint, txid: Txid)
    ensures SpendsFrom(ops + [op], txid) <==> SpendsFrom(ops, txid) || op.txid == txid
  {
    if x :| x in ops && x.txid == txid { assert x in ops + [op]; }
    assert op in ops + [op];
  }
}
