/** Accepted blocks at the edge of what acceptance promises. */
module Instances {
  import opened Bitcoin
  import opened Subsidy
  import opened Pallet
  import opened Sanity
  import opened Verification
  import opened Application

  const PLAIN: Script := Script([0x51], None)
  const UNSPENDABLE: Script := Script([0x6a], None)

  /** Every check outside this model passes, as without script verification; each transaction costs `cost`. */
  function Lenient(cost: nat): Rules {
    Rules(1000, (tx, height) => true, (out, tx, j) => true, (tx, outs) => cost)
  }

  function NoLegacySigOps(tx: Transaction): nat { 0 }

  predicate AnyBlock(block: Block) { true }

  function NothingElse(): Foreign {
    Foreign(NoLegacySigOps, AnyBlock)
  }

  lemma {:induction false} NoSigOps(txs: seq<Transaction>)
    ensures SumSigOps(NothingElse(), txs) == 0
  {
    if txs != [] { NoSigOps(txs[..|txs| - 1]); }
  }

  lemma {:induction false} SizesOfHundred(txs: seq<Transaction>)
    requires forall i :: 0 <= i < |txs| ==> txs[i].baseSize == 100
    ensures SumBaseSizes(txs) == 100 * |txs|
  {
    if txs != [] { SizesOfHundred(txs[..|txs| - 1]); }
  }

  function OneCoin(): Coins {
    map[OutPoint(9, 0) := Coin(false, 50, 1, PLAIN)]
  }

  function Move(txid: Txid, from: OutPoint, script: Script): Transaction {
    Transaction(txid, txid, [from], [TxOut(0, script)], 0, 100, 400)
  }

  /** A coinbase, a transaction that spends the one coin, and one that spends the output of that. */
  function ChainOfTwo(script: Script): Block {
    Block(1, 0, None, [Payout(5, PLAIN), Move(6, OutPoint(9, 0), script), Move(7, OutPoint(6, 0), PLAIN)])
  }

  lemma {:induction false} FirstMove(script: Script, cost: nat)
    requires cost <= MAX_BLOCK_SIGOPS_COST
    ensures TxAccepted(Lenient(cost), OneCoin(), ChainOfTwo(script).txs, 2, 1)
  {
    var txs := ChainOfTwo(script).txs;
    assert SpentBefore(txs, 1) == {};
    assert SumOutputs(txs[1].outputs[..0]) == 0 && SumOutputs(txs[1].outputs) == 0;
  }

  lemma {:induction false} SecondMove(script: Script, cost: nat)
    requires cost <= MAX_BLOCK_SIGOPS_COST
    ensures TxAccepted(Lenient(cost), OneCoin(), ChainOfTwo(script).txs, 2, 2)
    ensures AccessCoin(OneCoin(), ChainOfTwo(script).txs, 2, 2, OutPoint(6, 0))
            == Some(Found(TxOut(0, script), false, 2))
  {
    var txs := ChainOfTwo(script).txs;
    assert SpentBefore(txs, 2) == {OutPoint(9, 0)};
    assert FirstWithTxid(txs, 2, 6) == Some(1);
    assert SumOutputs(txs[2].outputs[..0]) == 0 && SumOutputs(txs[2].outputs) == 0;
  }

  lemma {:induction false} ChainOfTwoIsAccepted(script: Script, cost: nat)
    requires cost <= MAX_BLOCK_SIGOPS_COST
    ensures Accepted(Lenient(cost), OneCoin(), ChainOfTwo(script), 2)
  {
    FirstMove(script, cost);
    SecondMove(script, cost);
    PayoutIsSmall(PLAIN);
    var state, txs := OneCoin(), ChainOfTwo(script).txs;
    hide InputsOk, TotalIn, SigOpsOk, SumOutputs, BitcoinBlockSubsidy;
    assert Fees(state, txs, 2, 1) == 0 && Fees(state, txs, 2, 2) >= 0 && Fees(state, txs, 2, 3) >= 0;
  }

  lemma {:induction false} PayoutIsSmall(script: Script)
    ensures SumOutputs(Payout(5, script).outputs) == 50 <= BitcoinBlockSubsidy(2)
  {
    assert SumOutputs(Payout(5, script).outputs[..0]) == 0;
    assert ShiftRight(INITIAL_SUBSIDY, 0) == INITIAL_SUBSIDY;
  }

  lemma {:induction false} MoveIsSane(txid: Txid, from: OutPoint, script: Script)
    requires from.txid != 0
    ensures TxSane(Move(txid, from, script)) && !IsCoinbase(Move(txid, from, script))
  {
    assert SumOutputs(Move(txid, from, script).outputs[..0]) == 0;
  }

  lemma {:induction false} PayoutIsSane(txid: Txid, script: Script)
    ensures TxSane(Payout(txid, script)) && IsCoinbase(Payout(txid, script))
  {
    assert SumOutputs(Payout(txid, script).outputs[..0]) == 0;
  }

  lemma {:induction false} ChainOfTwoIsSane(script: Script)
    ensures BlockSane(NothingElse(), ChainOfTwo(script))
  {
    var txs := ChainOfTwo(script).txs;
    SizesOfHundred(txs);
    NoSigOps(txs);
    PayoutIsSane(5, PLAIN);
    hide TxSane, SumSigOps;
    MoveIsSane(6, OutPoint(9, 0), script);
    MoveIsSane(7, OutPoint(6, 0), PLAIN);
  }

  /** Without script verification a block can be sane and accepted, and still make the runtime panic: it spends an
      OP_RETURN output of its own. */
  lemma {:induction false} AcceptedBlockPanics()
    ensures BlockSane(NothingElse(), ChainOfTwo(UNSPENDABLE))
    ensures Accepted(Lenient(0), OneCoin(), ChainOfTwo(UNSPENDABLE), 2)
    ensures ApplyTxs(OneCoin(), ChainOfTwo(UNSPENDABLE).txs, 2).None?
  {
    var block := ChainOfTwo(UNSPENDABLE);
    ChainOfTwoIsSane(UNSPENDABLE);
    ChainOfTwoIsAccepted(UNSPENDABLE, 0);
    SecondMove(UNSPENDABLE, 0);
    AcceptanceMakesApplicationSafe(NothingElse(), Lenient(0), OneCoin(), block, 2);
    hide Accepted, BlockSane, ApplyTxs, AccessCoin, TxAccepted;
    assert block.txs[2].inputs[0] == OutPoint(6, 0);
    assert SpendsOpReturn(OneCoin(), block.txs, 2, 2, OutPoint(6, 0));
  }

  /** An accepted block whose two transactions after the coinbase together cost twice the limit for a block: the bound
      is attained. */
  lemma {:induction false} AcceptedBlockExceedsSigOps()
    ensures BlockSane(NothingElse(), ChainOfTwo(PLAIN)) && Accepted(Lenient(80_000), OneCoin(), ChainOfTwo(PLAIN), 2)
    ensures SumSigOpCost(Lenient(80_000), OneCoin(), ChainOfTwo(PLAIN).txs, 2, 3) == 2 * MAX_BLOCK_SIGOPS_COST
  {
    ChainOfTwoIsSane(PLAIN);
    ChainOfTwoIsAccepted(PLAIN, 80_000);
    hide Accepted, BlockSane, SpentOutputs;
    assert SumSigOpCost(Lenient(80_000), OneCoin(), ChainOfTwo(PLAIN).txs, 2, 2) == 80_000;
  }

  /** An accepted block whose coinbase repeats a txid that is still unspent, which BIP 30 forbids. */
  lemma {:induction false} AcceptedBlockOverwrites(state: Coins, block: Block)
    requires state == map[OutPoint(5, 0) := Coin(true, 50, 1, PLAIN)] && block == Block(1, 0, None, [Payout(5, PLAIN)])
    ensures BlockSane(NothingElse(), block) && Accepted(Lenient(0), state, block, 2)
    ensures Overwritten(state, block.txs[0], 2) == 1
  {
    PayoutIsSmall(PLAIN);
    PayoutCreates(5, PLAIN, 2);
    assert block.txs[..0] == [];
    assert Created(block.txs[0], 2).Keys * (state.Keys - Spent(block.txs[0])) == {OutPoint(5, 0)};
    SizesOfHundred(block.txs);
    NoSigOps(block.txs);
    PayoutIsSane(5, PLAIN);
  }
}
