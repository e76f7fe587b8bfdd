/** The rules for blocks and transactions written out on their own, and where the coins of a chain come from. */
module Consensus {
  import opened Bitcoin
  import opened Subsidy
  import opened Pallet
  import opened Sanity
  import opened Verification
  import opened Conservation

  // ----- Acceptance, written out -----

  /** `coin` is what the outpoint stands for: a coin of the parent state, or else an output of the first transaction with
      its txid among those before `i`. */
  ghost predicate Resolves(state: Coins, txs: seq<Transaction>, height: nat, i: nat, op: OutPoint, coin: Found)
    requires i <= |txs|
  {
    if op in state
    then coin == Found(TxOut(state[op].amount, state[op].script), state[op].isCoinbase, state[op].height)
    else exists k :: 0 <= k < i && txs[k].txid == op.txid && (forall m :: 0 <= m < k ==> txs[m].txid != op.txid)
                     && op.vout < |txs[k].outputs| && coin == Found(txs[k].outputs[op.vout], k == 0, height)
  }

  function SumValues(coins: seq<Found>): nat {
    if coins == [] then 0 else SumValues(coins[..|coins| - 1]) + coins[|coins| - 1].out.value
  }

  /** The coins that the inputs of transaction `i` stand for. */
  ghost predicate StandFor(state: Coins, txs: seq<Transaction>, height: nat, i: nat, coins: seq<Found>)
    requires i < |txs|
  {
    |coins| == |txs[i].inputs| && forall j :: 0 <= j < |coins| ==> Resolves(state, txs, height, i, txs[i].inputs[j], coins[j])
  }

  /** What transaction `i` may do with them. */
  ghost predicate MaySpend(rules: Rules, tx: Transaction, height: nat, coins: seq<Found>) {
    && rules.isFinal(tx, height)
    && (forall j :: 0 <= j < |coins| ==>
          (coins[j].isCoinbase ==> height >= coins[j].height + 100) && rules.scriptOk(coins[j].out, tx, j))
    && rules.sigOpCost(tx, seq(|coins|, j requires 0 <= j < |coins| => Some(coins[j].out))) <= 80_000
    && SumOutputs(tx.outputs) <= SumValues(coins)
  }

  /** No outpoint is named twice by the transactions after the coinbase. */
  ghost predicate NamedOnce(txs: seq<Transaction>) {
    forall i, j, i', j' ::
      (&& 1 <= i < |txs| && 1 <= i' < |txs| && 0 <= j < |txs[i].inputs| && 0 <= j' < |txs[i'].inputs|
       && txs[i].inputs[j] == txs[i'].inputs[j']) ==> i == i' && j == j'
  }

  lemma {:induction false} AccessIffResolves(state: Coins, txs: seq<Transaction>, height: nat, i: nat, op: OutPoint,
                                             coin: Found)
    requires i <= |txs|
    ensures AccessCoin(state, txs, height, i, op) == Some(coin) <==> Resolves(state, txs, height, i, op, coin)
  {
    var first := FirstWithTxid(txs, i, op.txid);
    hide FirstWithTxid;
    if op !in state && Resolves(state, txs, height, i, op, coin) {
      var k :| 0 <= k < i && txs[k].txid == op.txid && (forall m :: 0 <= m < k ==> txs[m].txid != op.txid)
               && op.vout < |txs[k].outputs| && coin == Found(txs[k].outputs[op.vout], k == 0, height);
      assert first == Some(k);
    }
  }

  /** The coins as the verifier finds them, one input after the other. */
  ghost function FoundCoins(state: Coins, txs: seq<Transaction>, height: nat, i: nat, n: nat): seq<Found>
    requires i < |txs| && n <= |txs[i].inputs|
    requires forall j :: 0 <= j < n ==> AccessCoin(state, txs, height, i, txs[i].inputs[j]).Some?
  {
    seq(n, j requires 0 <= j < n => AccessCoin(state, txs, height, i, txs[i].inputs[j]).value)
  }

  lemma {:induction false} ValueOfCoins(state: Coins, txs: seq<Transaction>, height: nat, i: nat, coins: seq<Found>, n: nat)
    requires i < |txs| && StandFor(state, txs, height, i, coins) && n <= |coins|
    ensures ValueIn(state, txs, height, i, n) == SumValues(coins[..n])
  {
    if n > 0 {
      hide Resolves, AccessCoin;
      ValueOfCoins(state, txs, height, i, coins, n - 1);
      AccessIffResolves(state, txs, height, i, txs[i].inputs[n - 1], coins[n - 1]);
      assert coins[..n][..n - 1] == coins[..n - 1];
    }
  }

  lemma {:induction false} OutputsOfCoins(state: Coins, txs: seq<Transaction>, height: nat, i: nat, coins: seq<Found>)
    requires i < |txs| && StandFor(state, txs, height, i, coins)
    ensures SpentOutputs(state, txs, height, i) == seq(|coins|, j requires 0 <= j < |coins| => Some(coins[j].out))
  {
    hide Resolves, AccessCoin;
    forall j | 0 <= j < |coins| ensures SpentOutputs(state, txs, height, i)[j] == Some(coins[j].out) {
      AccessIffResolves(state, txs, height, i, txs[i].inputs[j], coins[j]);
    }
  }

  /** For the coins that its inputs stand for, a transaction passes exactly when it may spend them and names no outpoint
      that was named before. */
  lemma {:induction false} PassesIff(rules: Rules, state: Coins, txs: seq<Transaction>, height: nat, i: nat,
                                     coins: seq<Found>)
    requires 1 <= i < |txs| && StandFor(state, txs, height, i, coins)
    ensures TxAccepted(rules, state, txs, height, i) <==>
              && MaySpend(rules, txs[i], height, coins)
              && Distinct(txs[i].inputs) && Elements(txs[i].inputs) !! SpentBefore(txs, i)
  {
    hide Resolves, AccessCoin, SpentOutputs, ValueIn, SumOutputs, SpentBefore;
    ValueOfCoins(state, txs, height, i, coins, |coins|);
    assert coins[..|coins|] == coins;
    OutputsOfCoins(state, txs, height, i, coins);
    forall j | 0 <= j < |coins|
      ensures InputOk(rules, state, txs, height, i, j) <==>
                (coins[j].isCoinbase ==> height >= coins[j].height + 100) && rules.scriptOk(coins[j].out, txs[i], j)
    {
      AccessIffResolves(state, txs, height, i, txs[i].inputs[j], coins[j]);
    }
    hide InputOk;
  }

  lemma {:induction false} PassingStandsFor(rules: Rules, state: Coins, txs: seq<Transaction>, height: nat, i: nat)
    returns (coins: seq<Found>)
    requires 1 <= i < |txs| && TxAccepted(rules, state, txs, height, i)
    ensures StandFor(state, txs, height, i, coins)
  {
    hide Resolves, AccessCoin, SigOpsOk, TotalIn, SumOutputs, SpentBefore;
    var n := |txs[i].inputs|;
    forall j | 0 <= j < n ensures AccessCoin(state, txs, height, i, txs[i].inputs[j]).Some? {
      assert InputOk(rules, state, txs, height, i, j);
    }
    coins := FoundCoins(state, txs, height, i, n);
    forall j | 0 <= j < n ensures Resolves(state, txs, height, i, txs[i].inputs[j], coins[j]) {
      AccessIffResolves(state, txs, height, i, txs[i].inputs[j], coins[j]);
    }
  }

  lemma {:induction false} SpentBeforeHas(txs: seq<Transaction>, n: nat, op: OutPoint)
    requires n <= |txs|
    ensures op in SpentBefore(txs, n) <==> exists i :: 1 <= i < n && op in txs[i].inputs
  {
    if n > 1 {
      SpentBeforeHas(txs, n - 1, op);
      if op in txs[n - 1].inputs { assert 1 <= n - 1 < n && op in txs[n - 1].inputs; }
    }
  }

  ghost predicate Apart(txs: seq<Transaction>, i: nat)
    requires i < |txs|
  {
    Distinct(txs[i].inputs) && Elements(txs[i].inputs) !! SpentBefore(txs, i)
  }

  lemma {:induction false} NamedOnceIff(txs: seq<Transaction>)
    ensures NamedOnce(txs) <==> forall i :: 1 <= i < |txs| ==> Apart(txs, i)
  {
    hide SpentBefore;
    if NamedOnce(txs) {
      forall i | 1 <= i < |txs| ensures Apart(txs, i) {
        forall op | op in Elements(txs[i].inputs) ensures op !in SpentBefore(txs, i) {
          SpentBeforeHas(txs, i, op);
        }
      }
    }
    if forall i :: 1 <= i < |txs| ==> Apart(txs, i) {
      forall i, j, i', j' | 1 <= i < |txs| && 1 <= i' < |txs| && 0 <= j < |txs[i].inputs| && 0 <= j' < |txs[i'].inputs|
                            && txs[i].inputs[j] == txs[i'].inputs[j']
        ensures i == i' && j == j'
      {
        assert Apart(txs, i) && Apart(txs, i');
        if i < i' {
          assert txs[i'].inputs[j'] in Elements(txs[i'].inputs);
          SpentBeforeHas(txs, i', txs[i'].inputs[j']);
        } else if i' < i {
          assert txs[i].inputs[j] in Elements(txs[i].inputs);
          SpentBeforeHas(txs, i, txs[i].inputs[j]);
        }
      }
    }
  }

  ghost predicate MayPass(rules: Rules, state: Coins, txs: seq<Transaction>, height: nat, i: nat)
    requires i < |txs|
  {
    exists coins :: StandFor(state, txs, height, i, coins) && MaySpend(rules, txs[i], height, coins)
  }

  /** All transactions after the coinbase pass exactly when their inputs stand for coins that they may spend, and no
      outpoint is named twice. */
  lemma {:induction false} TransactionsPassIff(rules: Rules, state: Coins, txs: seq<Transaction>, height: nat)
    ensures AcceptedUpTo(rules, state, txs, height, |txs|) <==>
              NamedOnce(txs) && forall i :: 1 <= i < |txs| ==> MayPass(rules, state, txs, height, i)
  {
    hide StandFor, MaySpend, NamedOnce, SpentBefore, Distinct;
    NamedOnceIff(txs);
    if AcceptedUpTo(rules, state, txs, height, |txs|) {
      forall i | 1 <= i < |txs| ensures Apart(txs, i) && MayPass(rules, state, txs, height, i) {
        assert TxAccepted(rules, state, txs, height, i);
        hide TxAccepted;
        var coins := PassingStandsFor(rules, state, txs, height, i);
        PassesIff(rules, state, txs, height, i, coins);
      }
    }
    if NamedOnce(txs) && forall i :: 1 <= i < |txs| ==> MayPass(rules, state, txs, height, i) {
      forall i | 1 <= i < |txs| ensures TxAccepted(rules, state, txs, height, i) {
        assert Apart(txs, i) && MayPass(rules, state, txs, height, i);
        var coins :| StandFor(state, txs, height, i, coins) && MaySpend(rules, txs[i], height, coins);
        PassesIff(rules, state, txs, height, i, coins);
      }
    }
  }

  /** The verifier, rule by rule: heights in coinbases from BIP 34 on, coins that may be spent, each once, and no more paid
      out than the subsidy and the inputs allow. */
  lemma {:induction false} AcceptedMeans(outs: Outputs, rules: Rules, state: Coins, block: Block, height: nat)
    requires Commits(outs, block.txs) && CoinsMatch(outs, state)
    ensures Accepted(rules, state, block, height) <==>
              && block.txs != [] && (height >= rules.bip34Height ==> block.coinbaseHeight == Some(height))
              && NamedOnce(block.txs)
              && (forall i :: 1 <= i < |block.txs| ==> MayPass(rules, state, block.txs, height, i))
              && PaidOut(block.txs, |block.txs|)
                 <= BitcoinBlockSubsidy(height) + Worth(outs, SpentBefore(block.txs, |block.txs|))
  {
    hide NamedOnce, MayPass, PaidOut, BitcoinBlockSubsidy, Worth, SpentBefore, AcceptedUpTo, Commits, CoinsMatch, Fees,
         SumOutputs;
    TransactionsPassIff(rules, state, block.txs, height);
    if block.txs != [] && CoinbaseHeightOk(rules, block, height)
       && AcceptedUpTo(rules, state, block.txs, height, |block.txs|)
    {
      RewardIff(outs, rules, state, block, height);
    }
  }

  // ----- Sanity, written out -----

  /** The rules for a transaction on its own, with their numbers. */
  lemma {:induction false} TxSaneMeans(tx: Transaction)
    ensures TxSane(tx) <==>
              && tx.inputs != [] && tx.outputs != [] && tx.baseSize <= 1_000_000
              && (forall i :: 0 <= i < |tx.outputs| ==> tx.outputs[i].value <= 2_100_000_000_000_000)
              && SumOutputs(tx.outputs) <= 2_100_000_000_000_000
              && (forall i, j :: 0 <= i < j < |tx.inputs| ==> tx.inputs[i] != tx.inputs[j])
              && if |tx.inputs| == 1 && tx.inputs[0] == OutPoint(0, 4_294_967_295)
                 then 2 <= tx.scriptSigLen <= 100
                 else OutPoint(0, 4_294_967_295) !in tx.inputs
  {
    hide SumOutputs;
  }

  /** The size of the transactions without witnesses, and their signature operations, counted from the front. */
  function Sizes(txs: seq<Transaction>): nat {
    if txs == [] then 0 else txs[0].baseSize + Sizes(txs[1..])
  }

  function SigOps(f: Foreign, txs: seq<Transaction>): nat {
    if txs == [] then 0 else f.legacySigOps(txs[0]) + SigOps(f, txs[1..])
  }

  lemma {:induction false} CountedFromEitherEnd(f: Foreign, a: seq<Transaction>, b: seq<Transaction>)
    ensures SumBaseSizes(a + b) == SumBaseSizes(a) + Sizes(b) && SumSigOps(f, a + b) == SumSigOps(f, a) + SigOps(f, b)
    decreases |b|
  {
    if b == [] {
      assert a + b == a;
    } else {
      CountedFromEitherEnd(f, a + [b[0]], b[1..]);
      assert a + b == (a + [b[0]]) + b[1..];
      assert (a + [b[0]])[..|a|] == a;
    }
  }

  /** The rules for the structure of a block, with their numbers: at most a million bytes without witnesses, of which 80
      are the header and the rest a count and the transactions, and at most 20,000 legacy signature operations. */
  lemma {:induction false} BlockSaneMeans(f: Foreign, block: Block)
    ensures BlockSane(f, block) <==>
              var txs := block.txs;
              var count := if |txs| < 253 then 1 else if |txs| < 65_536 then 3 else 5;
              && 1 <= |txs| <= 1_000_000 && 80 + count + Sizes(txs) <= 1_000_000
              && (forall i :: 0 <= i < |txs| ==> TxSane(txs[i]) && (IsCoinbase(txs[i]) <==> i == 0))
              && (forall i, j :: 0 <= i < j < |txs| ==> txs[i].txid != txs[j].txid)
              && SigOps(f, txs) <= 20_000 && f.merkleRootMatches(block)
  {
    hide TxSane, IsCoinbase, SumBaseSizes, SumSigOps, Sizes, SigOps;
    CountedFromEitherEnd(f, [], block.txs);
    assert [] + block.txs == block.txs;
    NothingCounted(f);
  }

  lemma {:induction false} NothingCounted(f: Foreign)
    ensures SumBaseSizes([]) == 0 && SumSigOps(f, []) == 0
  {
  }

  // ----- Where coins come from -----

  /** The coin is output `op.vout` of transaction `i` of the block at its height, which is not one of the two whose
      coinbase is skipped. */
  ghost predicate Origin(blocks: seq<Block>, op: OutPoint, coin: Coin, i: nat) {
    && 1 <= coin.height <= |blocks|
    && var txs := blocks[coin.height - 1].txs;
       && i < |txs| && txs[i].txid == op.txid && op.vout < |txs[i].outputs|
       && coin.isCoinbase == (i == 0)
       && coin.amount == txs[i].outputs[op.vout].value && coin.script == txs[i].outputs[op.vout].script
       && (|coin.script.bytes| == 0 || coin.script.bytes[0] != 0x6a)
       && (i == 0 ==> coin.height != 91_722 && coin.height != 91_812)
  }

  ghost predicate HasOrigin(blocks: seq<Block>, op: OutPoint, coin: Coin) {
    exists i :: Origin(blocks, op, coin, i)
  }

  ghost predicate AllHaveOrigin(blocks: seq<Block>, coins: Coins) {
    forall op :: op in coins ==> HasOrigin(blocks, op, coins[op])
  }

  lemma {:induction false} CreatedHasOrigin(blocks: seq<Block>, i: nat, op: OutPoint)
    requires blocks != [] && CoinbaseFirstAndOnly(blocks[|blocks| - 1].txs) && i < |blocks[|blocks| - 1].txs|
    requires op in Created(blocks[|blocks| - 1].txs[i], |blocks|)
    ensures HasOrigin(blocks, op, Created(blocks[|blocks| - 1].txs[i], |blocks|)[op])
  {
    assert Origin(blocks, op, Created(blocks[|blocks| - 1].txs[i], |blocks|)[op], i);
  }

  lemma {:induction false} OriginStays(blocks: seq<Block>, n: nat, coins: Coins)
    requires n <= |blocks| && AllHaveOrigin(blocks[..n], coins)
    ensures AllHaveOrigin(blocks, coins)
  {
    forall op | op in coins ensures HasOrigin(blocks, op, coins[op]) {
      var i :| Origin(blocks[..n], op, coins[op], i);
      assert Origin(blocks, op, coins[op], i);
    }
  }

  lemma {:induction false} BlockKeepsOrigin(blocks: seq<Block>, coins: Coins, k: nat)
    requires blocks != [] && CoinbaseFirstAndOnly(blocks[|blocks| - 1].txs) && k <= |blocks[|blocks| - 1].txs|
    requires AllHaveOrigin(blocks, coins) && ApplyTxs(coins, blocks[|blocks| - 1].txs[k..], |blocks|).Some?
    ensures AllHaveOrigin(blocks, ApplyTxs(coins, blocks[|blocks| - 1].txs[k..], |blocks|).value)
    decreases |blocks[|blocks| - 1].txs| - k
  {
    var txs := blocks[|blocks| - 1].txs;
    if k < |txs| {
      hide HasOrigin, Created;
      var next := ApplyTx(coins, txs[k], |blocks|).value;
      forall op | op in next ensures HasOrigin(blocks, op, next[op]) {
        if op in Created(txs[k], |blocks|) { CreatedHasOrigin(blocks, k, op); }
      }
      assert txs[k..][1..] == txs[k + 1..];
      BlockKeepsOrigin(blocks, next, k + 1);
    }
  }

  /** Every coin stored after a verified chain is an output of the chain: the flag says whether its transaction was the
      coinbase, and height, amount and script are those of the block and the output. */
  lemma {:induction false} CoinsHaveOrigin(f: Foreign, rules: Rules, blocks: seq<Block>)
    requires ChainState(f, rules, blocks).Some?
    ensures AllHaveOrigin(blocks, ChainState(f, rules, blocks).value)
  {
    hide AllHaveOrigin, Accepted;
    if blocks == [] {
      NothingStored();
    } else {
      var n := |blocks| - 1;
      var state, txs := ChainState(f, rules, blocks[..n]).value, blocks[n].txs;
      CoinsHaveOrigin(f, rules, blocks[..n]);
      OriginStays(blocks, n, state);
      hide ApplyTxs;
      assert txs[0..] == txs;
      BlockKeepsOrigin(blocks, state, 0);
    }
  }

  lemma {:induction false} NothingStored()
    ensures AllHaveOrigin([], map[])
  {
  }

  // ----- Looked up in its own block, and after it -----

  lemma {:induction false} UntouchedStays(coins: Coins, txs: seq<Transaction>, height: nat, op: OutPoint)
    requires ApplyTxs(coins, txs, height).Some? && forall i :: 0 <= i < |txs| ==> txs[i].txid != op.txid
    ensures op in ApplyTxs(coins, txs, height).value ==>
              op in coins && ApplyTxs(coins, txs, height).value[op] == coins[op]
    decreases |txs|
  {
    if txs != [] { UntouchedStays(ApplyTx(coins, txs[0], height).value, txs[1..], height, op); }
  }

  lemma {:induction false} StoredAsMade(coins: Coins, txs: seq<Transaction>, height: nat, k: nat, op: OutPoint)
    requires DistinctTxids(txs) && k < |txs| && txs[k].txid == op.txid && op !in coins
    requires ApplyTxs(coins, txs, height).Some? && op in ApplyTxs(coins, txs, height).value
    ensures op.vout < |txs[k].outputs| && ApplyTxs(coins, txs, height).value[op] == CoinOf(txs[k], op.vout, height)
    decreases |txs|
  {
    var next := ApplyTx(coins, txs[0], height).value;
    if k == 0 {
      UntouchedStays(next, txs[1..], height, op);
    } else {
      assert txs[1..][k - 1] == txs[k] && txs[0].txid != op.txid;
      StoredAsMade(next, txs[1..], height, k - 1, op);
    }
  }

  /** An output that is still there after its block is found with the same value, script, flag and height by a transaction
      of that block and by one of a later block. */
  lemma {:induction false} LookupsAgree(coins: Coins, txs: seq<Transaction>, height: nat, n: nat, k: nat, op: OutPoint,
                                        later: seq<Transaction>, later': nat)
    requires CoinbaseFirstAndOnly(txs) && DistinctTxids(txs) && k < n <= |txs| && txs[k].txid == op.txid && op !in coins
    requires ApplyTxs(coins, txs, height).Some? && op in ApplyTxs(coins, txs, height).value
    ensures AccessCoin(coins, txs, height, n, op).Some?
    ensures AccessCoin(ApplyTxs(coins, txs, height).value, later, later', 0, op) == AccessCoin(coins, txs, height, n, op)
  {
    hide ApplyTxs;
    StoredAsMade(coins, txs, height, k, op);
    var first := FirstWithTxid(txs, n, op.txid);
    hide FirstWithTxid;
    assert first == Some(k);
  }

  // ----- Maturity over a chain -----

  /** Where an input of a block may come from: a transaction of an earlier block, at least a hundred blocks back if it was
      the coinbase, or an earlier transaction of the block that is not its coinbase. */
  ghost predicate TracesBack(blocks: seq<Block>, txs: seq<Transaction>, i: nat, op: OutPoint) {
    || (exists g: nat, k: nat :: MadeInBlock(blocks, g, k, op) && (k == 0 ==> |blocks| + 1 >= g + 100))
    || (exists k :: 1 <= k < i && k < |txs| && txs[k].txid == op.txid && op.vout < |txs[k].outputs|)
  }

  ghost predicate MadeInBlock(blocks: seq<Block>, g: nat, k: nat, op: OutPoint) {
    && 1 <= g <= |blocks| && k < |blocks[g - 1].txs|
    && blocks[g - 1].txs[k].txid == op.txid && op.vout < |blocks[g - 1].txs[k].outputs|
  }

  lemma {:induction false} InputsTraceBack(f: Foreign, rules: Rules, blocks: seq<Block>, block: Block, i: nat, j: nat)
    requires ChainState(f, rules, blocks).Some? && Accepted(rules, ChainState(f, rules, blocks).value, block, |blocks| + 1)
    requires 1 <= i < |block.txs| && j < |block.txs[i].inputs|
    ensures TracesBack(blocks, block.txs, i, block.txs[i].inputs[j])
  {
    hide ChainState, ApplyTxs, Fees, BitcoinBlockSubsidy, AllHaveOrigin;
    var state, txs, height, op := ChainState(f, rules, blocks).value, block.txs, |blocks| + 1, block.txs[i].inputs[j];
    CoinsHaveOrigin(f, rules, blocks);
    assert TxAccepted(rules, state, txs, height, i);
    hide Accepted, TxAccepted;
    var coins := PassingStandsFor(rules, state, txs, height, i);
    PassesIff(rules, state, txs, height, i, coins);
    assert Resolves(state, txs, height, i, op, coins[j]);
    if op in state {
      StoredTracesBack(blocks, state, txs, i, op);
    } else {
      var k :| 0 <= k < i && txs[k].txid == op.txid && op.vout < |txs[k].outputs|
               && coins[j] == Found(txs[k].outputs[op.vout], k == 0, height);
      assert k != 0;
    }
  }

  lemma {:induction false} StoredTracesBack(blocks: seq<Block>, state: Coins, txs: seq<Transaction>, i: nat, op: OutPoint)
    requires AllHaveOrigin(blocks, state) && op in state
    requires state[op].isCoinbase ==> |blocks| + 1 >= state[op].height + 100
    ensures TracesBack(blocks, txs, i, op)
  {
    assert HasOrigin(blocks, op, state[op]);
    var k :| Origin(blocks, op, state[op], k);
    assert MadeInBlock(blocks, state[op].height, k, op);
  }
}
