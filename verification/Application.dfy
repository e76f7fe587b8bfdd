/** Acceptance by the verifier makes application by the runtime safe. */
module Application {
  import opened Bitcoin
  import opened Pallet
  import opened Sanity
  import opened Verification

  /** Outpoints created by the first `n` transactions. */
  function MadeBefore(txs: seq<Transaction>, height: nat, n: nat): set<OutPoint>
    requires n <= |txs|
  {
    if n == 0 then {} else MadeBefore(txs, height, n - 1) + Created(txs[n - 1], height).Keys
  }

  lemma {:induction false} MadeAt(txs: seq<Transaction>, height: nat, n: nat, k: nat, op: OutPoint)
    requires k < n <= |txs| && op in Created(txs[k], height)
    ensures op in MadeBefore(txs, height, n)
    decreases n
  {
    if k < n - 1 { MadeAt(txs, height, n - 1, k, op); }
  }

  lemma {:induction false} MadeHasMaker(txs: seq<Transaction>, height: nat, n: nat, op: OutPoint) returns (k: nat)
    requires n <= |txs| && op in MadeBefore(txs, height, n)
    ensures k < n && op in Created(txs[k], height)
    decreases n
  {
    if op in Created(txs[n - 1], height) {
      k := n - 1;
    } else {
      k := MadeHasMaker(txs, height, n - 1, op);
    }
  }

  /** An input that the verifier resolves to an OP_RETURN output of the same block. */
  predicate SpendsOpReturn(state: Coins, txs: seq<Transaction>, height: nat, i: nat, op: OutPoint)
    requires i < |txs|
  {
    && op !in state && AccessCoin(state, txs, height, i, op).Some?
    && IsOpReturn(AccessCoin(state, txs, height, i, op).value.out.script)
  }

  predicate NoOpReturnSpent(state: Coins, txs: seq<Transaction>, height: nat, n: nat)
    requires n <= |txs|
  {
    forall i, op :: 1 <= i < n && op in txs[i].inputs ==> !SpendsOpReturn(state, txs, height, i, op)
  }

  ghost predicate WellFormedBlock(txs: seq<Transaction>) {
    CoinbaseFirstAndOnly(txs) && DistinctTxids(txs)
  }

  /** Between the parent state and the end of the block, every coin that may still be spent is stored,
      and everything stored was there before or was created by the block. */
  ghost predicate Tracks(state: Coins, txs: seq<Transaction>, height: nat, n: nat, coins: Coins)
    requires n <= |txs|
  {
    && (state.Keys + MadeBefore(txs, height, n)) - SpentBefore(txs, n) <= coins.Keys
    && coins.Keys <= state.Keys + MadeBefore(txs, height, n)
  }

  /** An outpoint made before transaction `i` was made by the first transaction with its txid. */
  lemma {:induction false} MadeByFirst(txs: seq<Transaction>, height: nat, i: nat, k: nat, op: OutPoint)
    requires DistinctTxids(txs) && k < i <= |txs| && txs[k].txid == op.txid
    ensures op in MadeBefore(txs, height, i) <==> op in Created(txs[k], height)
  {
    hide MadeBefore;
    if op in Created(txs[k], height) {
      MadeAt(txs, height, i, k, op);
    } else if op in MadeBefore(txs, height, i) {
      var m := MadeHasMaker(txs, height, i, op);
    }
  }

  lemma {:induction false} AcceptedInput(rules: Rules, state: Coins, txs: seq<Transaction>, height: nat, i: nat, j: nat)
    requires WellFormedBlock(txs) && 1 <= i < |txs| && j < |txs[i].inputs| && InputOk(rules, state, txs, height, i, j)
    ensures var op := txs[i].inputs[j];
            op in state.Keys + MadeBefore(txs, height, i) <==> !SpendsOpReturn(state, txs, height, i, op)
  {
    hide MadeBefore;
    var op := txs[i].inputs[j];
    if op !in state {
      var k := FirstWithTxid(txs, i, op.txid).value;
      assert k != 0;
      MadeByFirst(txs, height, i, k, op);
    }
  }

  /** One accepted transaction: applied without a missing coin exactly when it spends no OP_RETURN output. */
  lemma {:induction false} AcceptedStep(rules: Rules, state: Coins, txs: seq<Transaction>, height: nat, i: nat,
                                        coins: Coins)
    requires WellFormedBlock(txs) && 1 <= i < |txs| && InputsOk(rules, state, txs, height, i)
    requires Tracks(state, txs, height, i, coins)
    ensures ApplyTx(coins, txs[i], height).Some? <==>
              forall op :: op in txs[i].inputs ==> !SpendsOpReturn(state, txs, height, i, op)
    ensures ApplyTx(coins, txs[i], height).Some? ==>
              Tracks(state, txs, height, i + 1, ApplyTx(coins, txs[i], height).value)
  {
    forall op | op in txs[i].inputs ensures op in coins <==> !SpendsOpReturn(state, txs, height, i, op) {
      var j :| 0 <= j < |txs[i].inputs| && txs[i].inputs[j] == op;
      assert op in Elements(txs[i].inputs);
      AcceptedInput(rules, state, txs, height, i, j);
    }
    assert Spent(txs[i]) == Elements(txs[i].inputs);
  }

  /** The coinbase comes first and spends nothing. */
  lemma {:induction false} CoinbaseStep(state: Coins, txs: seq<Transaction>, height: nat)
    requires WellFormedBlock(txs)
    ensures ApplyTx(state, txs[0], height).Some? && Tracks(state, txs, height, 1, ApplyTx(state, txs[0], height).value)
  {
  }

  lemma {:induction false} NoOpReturnStep(state: Coins, txs: seq<Transaction>, height: nat, i: nat)
    requires i < |txs|
    ensures NoOpReturnSpent(state, txs, height, i + 1) <==>
              && NoOpReturnSpent(state, txs, height, i)
              && (i >= 1 ==> forall op :: op in txs[i].inputs ==> !SpendsOpReturn(state, txs, height, i, op))
  {
  }

  lemma {:induction false} SafeUpTo(rules: Rules, state: Coins, txs: seq<Transaction>, height: nat, n: nat)
    requires WellFormedBlock(txs) && 1 <= n <= |txs| && AcceptedUpTo(rules, state, txs, height, n)
    ensures ApplyTxs(state, txs[..n], height).Some? <==> NoOpReturnSpent(state, txs, height, n)
    ensures ApplyTxs(state, txs[..n], height).Some? ==>
              Tracks(state, txs, height, n, ApplyTxs(state, txs[..n], height).value)
    decreases n
  {
    if n == 1 {
      assert txs[..1] == [txs[0]];
      ApplyOne(state, txs[0], height);
      CoinbaseStep(state, txs, height);
    } else {
      var i := n - 1;
      SafeUpTo(rules, state, txs, height, i);
      assert txs[..n] == txs[..i] + [txs[i]];
      ApplyTxsPush(state, txs[..i], txs[i], height);
      NoOpReturnStep(state, txs, height, i);
      if before: Coins :| ApplyTxs(state, txs[..i], height) == Some(before) {
        assert TxAccepted(rules, state, txs, height, i);
        AcceptedStep(rules, state, txs, height, i, before);
      }
    }
  }

  /** A block accepted against the parent state is applied without a panic exactly when none of its inputs
      resolves to an OP_RETURN output of the block itself. */
  lemma {:induction false} AcceptanceMakesApplicationSafe(f: Foreign, rules: Rules, state: Coins, block: Block,
                                                          height: nat)
    requires BlockSane(f, block) && Accepted(rules, state, block, height)
    ensures ApplyTxs(state, block.txs, height).Some? <==> NoOpReturnSpent(state, block.txs, height, |block.txs|)
  {
    SafeUpTo(rules, state, block.txs, height, |block.txs|);
    assert block.txs[..|block.txs|] == block.txs;
  }

  /** A script check that refuses OP_RETURN outputs rules the panic out. Both script engines refuse them; the setting
      without script verification does not. */
  lemma {:induction false} ScriptCheckPreventsPanic(f: Foreign, rules: Rules, state: Coins, block: Block, height: nat)
    requires BlockSane(f, block) && Accepted(rules, state, block, height)
    requires forall out: TxOut, tx, j :: IsOpReturn(out.script) ==> !rules.scriptOk(out, tx, j)
    ensures ApplyTxs(state, block.txs, height).Some?
  {
    AcceptanceMakesApplicationSafe(f, rules, state, block, height);
    var txs := block.txs;
    forall i, op | 1 <= i < |txs| && op in txs[i].inputs ensures !SpendsOpReturn(state, txs, height, i, op) {
      var j :| 0 <= j < |txs[i].inputs| && txs[i].inputs[j] == op;
      assert TxAccepted(rules, state, txs, height, i) && InputOk(rules, state, txs, height, i, j);
    }
  }
}
