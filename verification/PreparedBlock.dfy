/** `PreparedBlock`: the coins a block needs, fetched once, against the verifier's direct lookup. */
module PreparedBlock {
  import opened Bitcoin
  import opened ExecutionLevels
  import opened Verification

  datatype InBlockOutput = InBlockOutput(out: TxOut, isCoinbase: bool, txIndex: nat)

  datatype Prepared = Prepared(
    txs: seq<Transaction>,
    height: nat,
    inputUtxos: Coins,
    inBlockOutputs: map<OutPoint, InBlockOutput>,
    levels: Levels)

  function OutputAt(txs: seq<Transaction>, j: nat, op: OutPoint): InBlockOutput
    requires j < |txs| && Creates(txs[j], op)
  {
    InBlockOutput(txs[j].outputs[op.vout], j == 0, j)
  }

  /** Outputs of the first `n` transactions, the last one winning. */
  ghost predicate IsInBlock(txs: seq<Transaction>, n: nat, outputs: map<OutPoint, InBlockOutput>)
    requires n <= |txs|
  {
    forall op :: match Creator(txs, n, op)
      case None => op !in outputs
      case Some(j) => op in outputs && outputs[op] == OutputAt(txs, j, op)
  }

  /** The first `vout` outputs of transaction `i` have been recorded over `before`. */
  ghost predicate RecordedInBlock(before: map<OutPoint, InBlockOutput>, outputs: map<OutPoint, InBlockOutput>,
                                  tx: Transaction, i: nat, vout: nat)
    requires vout <= |tx.outputs|
  {
    && (forall op :: op in outputs <==> op in before || (op.txid == tx.txid && op.vout < vout))
    && forall op :: op in outputs ==>
         outputs[op] == if op.txid == tx.txid && op.vout < vout then InBlockOutput(tx.outputs[op.vout], i == 0, i) else before[op]
  }

  lemma {:induction false} RecordNext(before: map<OutPoint, InBlockOutput>, outputs: map<OutPoint, InBlockOutput>,
                                      tx: Transaction, i: nat, vout: nat)
    requires vout < |tx.outputs| && RecordedInBlock(before, outputs, tx, i, vout)
    ensures var next := InBlockOutput(tx.outputs[vout], i == 0, i);
            RecordedInBlock(before, outputs[OutPoint(tx.txid, vout) := next], tx, i, vout + 1)
  {
  }

  lemma {:induction false} RecordedIsInBlock(txs: seq<Transaction>, i: nat, before: map<OutPoint, InBlockOutput>,
                                             outputs: map<OutPoint, InBlockOutput>)
    requires i < |txs| && IsInBlock(txs, i, before) && RecordedInBlock(before, outputs, txs[i], i, |txs[i].outputs|)
    ensures IsInBlock(txs, i + 1, outputs)
  {
  }

  method RecordInBlock(txs: seq<Transaction>, i: nat, before: map<OutPoint, InBlockOutput>)
    returns (outputs: map<OutPoint, InBlockOutput>)
    requires i < |txs| && IsInBlock(txs, i, before)
    ensures IsInBlock(txs, i + 1, outputs)
  {
    outputs := before;
    var tx := txs[i];
    assert RecordedInBlock(before, outputs, tx, i, 0);
    hide RecordedInBlock, IsInBlock;
    for vout := 0 to |tx.outputs|
      invariant RecordedInBlock(before, outputs, tx, i, vout)
    {
      RecordNext(before, outputs, tx, i, vout);
      outputs := outputs[OutPoint(tx.txid, vout) := InBlockOutput(tx.outputs[vout], i == 0, i)];
    }
    RecordedIsInBlock(txs, i, before, outputs);
  }

  /** An input of a transaction other than the first. */
  ghost predicate IsInput(txs: seq<Transaction>, n: nat, op: OutPoint)
    requires n <= |txs|
  {
    exists i :: 1 <= i < n && op in txs[i].inputs
  }

  /** The inputs, block order, that `known` does not hold. */
  method CollectUnknown(txs: seq<Transaction>, known: set<OutPoint>) returns (unknown: seq<OutPoint>)
    ensures forall op :: op in unknown <==> IsInput(txs, |txs|, op) && op !in known
  {
    unknown := [];
    if |txs| == 0 { return; }
    for i := 1 to |txs|
      invariant forall op :: op in unknown <==> IsInput(txs, i, op) && op !in known
    {
      ghost var before := unknown;
      for k := 0 to |txs[i].inputs|
        invariant forall op :: op in unknown <==> op in before || (op in txs[i].inputs[..k] && op !in known)
      {
        if txs[i].inputs[k] !in known {
          unknown := unknown + [txs[i].inputs[k]];
        }
      }
      assert txs[i].inputs[..|txs[i].inputs|] == txs[i].inputs;
    }
  }

  /** Only the outpoints found; the missing ones are left out. */
  function BatchGet(provider: Coins, outpoints: seq<OutPoint>): Coins {
    map op | op in outpoints && op in provider :: provider[op]
  }

  ghost predicate IsPrepared(p: Prepared, provider: Coins) {
    && IsInBlock(p.txs, |p.txs|, p.inBlockOutputs)
    && IsLevelling(Dependencies(p.txs), p.levels) && Covers(p.levels, |p.txs|)
    && (forall op :: op in p.inputUtxos <==> IsInput(p.txs, |p.txs|, op) && op !in p.inBlockOutputs && op in provider)
    && (forall op :: op in p.inputUtxos ==> p.inputUtxos[op] == provider[op])
  }

  /** `None` is the panic of the level sort. */
  method Prepare(txs: seq<Transaction>, height: nat, provider: Coins) returns (r: Option<Prepared>)
    ensures r.None? <==> exists i :: 0 < i < |txs| && SpendsItself(txs[i])
    ensures r.Some? ==> r.value.txs == txs && r.value.height == height && IsPrepared(r.value, provider)
  {
    var outputs := map[];
    for i := 0 to |txs|
      invariant IsInBlock(txs, i, outputs)
    {
      outputs := RecordInBlock(txs, i, outputs);
    }
    var external := CollectUnknown(txs, outputs.Keys);
    var levels := Build(txs);
    if levels.None? { return None; }
    return Some(Prepared(txs, height, BatchGet(provider, external), outputs, levels.value));
  }

  /** In-block outputs first, then the prefetched coins. */
  function GetUtxo(p: Prepared, op: OutPoint): Option<Found> {
    if op in p.inBlockOutputs then
      Some(Found(p.inBlockOutputs[op].out, p.inBlockOutputs[op].isCoinbase, p.height))
    else if op in p.inputUtxos then
      var coin := p.inputUtxos[op];
      Some(Found(TxOut(coin.amount, coin.script), coin.isCoinbase, coin.height))
    else None
  }

  method MissingUtxos(p: Prepared) returns (missing: seq<OutPoint>)
    ensures forall op :: op in missing <==> IsInput(p.txs, |p.txs|, op) && GetUtxo(p, op).None?
  {
    missing := CollectUnknown(p.txs, p.inBlockOutputs.Keys + p.inputUtxos.Keys);
  }

  /** The outpoint is not made in this block; or it is, is new to the state, and its maker comes before `i`;
      or the state already holds exactly the coin the block makes. */
  ghost predicate Unambiguous(state: Coins, txs: seq<Transaction>, height: nat, i: nat, op: OutPoint) {
    match Creator(txs, |txs|, op)
    case None => true
    case Some(j) =>
      if op in state
      then state[op] == Coin(j == 0, txs[j].outputs[op.vout].value, height, txs[j].outputs[op.vout].script)
      else j < i
  }

  function CoinOutput(coin: Coin): Found {
    Found(TxOut(coin.amount, coin.script), coin.isCoinbase, coin.height)
  }

  /** The block is asked first. */
  lemma {:induction false} PreparedCoin(p: Prepared, state: Coins, i: nat, op: OutPoint)
    requires IsPrepared(p, state) && 1 <= i < |p.txs| && op in p.txs[i].inputs
    ensures GetUtxo(p, op) == match Creator(p.txs, |p.txs|, op)
                              case Some(j) => Some(Found(p.txs[j].outputs[op.vout], j == 0, p.height))
                              case None => if op in state then Some(CoinOutput(state[op])) else None
  {
    hide IsLevelling, Covers, Creator, Dependencies;
    assert IsInput(p.txs, |p.txs|, op);
  }

  lemma {:induction false} FirstIsCreator(txs: seq<Transaction>, i: nat, op: OutPoint)
    requires DistinctTxids(txs) && i <= |txs|
    ensures var first, maker := FirstWithTxid(txs, i, op.txid), Creator(txs, |txs|, op);
            && (first.Some? && Creates(txs[first.value], op) ==> maker == first)
            && (maker.Some? && maker.value < i ==> first == maker)
  {
    var first, maker := FirstWithTxid(txs, i, op.txid), Creator(txs, |txs|, op);
    hide FirstWithTxid, Creator;
    if first.Some? && maker.Some? {
      assert txs[first.value].txid == txs[maker.value].txid;
    }
  }

  /** The state is asked first. */
  lemma {:induction false} AccessedCoin(state: Coins, txs: seq<Transaction>, height: nat, i: nat, op: OutPoint)
    requires DistinctTxids(txs) && i <= |txs|
    ensures AccessCoin(state, txs, height, i, op) ==
              if op in state then Some(CoinOutput(state[op]))
              else match Creator(txs, |txs|, op)
                   case Some(j) => if j < i then Some(Found(txs[j].outputs[op.vout], j == 0, height)) else None
                   case None => None
  {
    FirstIsCreator(txs, i, op);
    hide FirstWithTxid, Creator, DistinctTxids;
  }

  /** With distinct txids, the prefetched view returns the verifier's output, coinbase flag and height for an
      input exactly when the outpoint is unambiguous. */
  lemma {:induction false} ViewAgrees(p: Prepared, state: Coins, i: nat, op: OutPoint)
    requires IsPrepared(p, state) && DistinctTxids(p.txs) && 1 <= i < |p.txs| && op in p.txs[i].inputs
    ensures GetUtxo(p, op) == AccessCoin(state, p.txs, p.height, i, op) <==> Unambiguous(state, p.txs, p.height, i, op)
  {
    hide IsPrepared, DistinctTxids, GetUtxo, AccessCoin, Creator, Creates;
    PreparedCoin(p, state, i, op);
    AccessedCoin(state, p.txs, p.height, i, op);
  }

  /** Inputs only name outputs that are new to the state and made earlier in the block, or not made in it. */
  ghost predicate SpendsBackwards(state: Coins, txs: seq<Transaction>) {
    forall i, op :: 1 <= i < |txs| && op in txs[i].inputs && Creator(txs, |txs|, op).Some? ==>
      op !in state && Creator(txs, |txs|, op).value < i
  }

  /** With fresh, distinct txids and inputs that refer to earlier transactions, nothing is reported missing
      exactly when every lookup of the verifier succeeds. */
  lemma {:induction false} NothingMissing(p: Prepared, state: Coins, missing: seq<OutPoint>)
    requires IsPrepared(p, state) && DistinctTxids(p.txs) && SpendsBackwards(state, p.txs)
    requires forall op :: op in missing <==> IsInput(p.txs, |p.txs|, op) && GetUtxo(p, op).None?
    ensures missing == [] <==>
              forall i, op :: 1 <= i < |p.txs| && op in p.txs[i].inputs ==>
                AccessCoin(state, p.txs, p.height, i, op).Some?
  {
    var txs := p.txs;
    forall i, op | 1 <= i < |txs| && op in txs[i].inputs
      ensures GetUtxo(p, op) == AccessCoin(state, txs, p.height, i, op) && (op in missing <==> GetUtxo(p, op).None?)
    {
      ViewAgrees(p, state, i, op);
      assert IsInput(txs, |txs|, op);
    }
    if missing != [] {
      var op := missing[0];
      assert op in missing;
      var i :| 1 <= i < |txs| && op in txs[i].inputs;
    }
  }
}
