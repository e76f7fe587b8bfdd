/** Context-free checks on transactions and on the structure of a block. */
module Sanity {
  import opened Bitcoin

  datatype TxError =
    | EmptyInput | EmptyOutput | TransactionOversize | DuplicateTxInput(index: nat)
    | OutputValueTooLarge | TotalOutputValueTooLarge | BadCoinbaseLength | PreviousOutputNull

  /** What a transaction must satisfy on its own. */
  predicate TxSane(tx: Transaction) {
    && tx.inputs != [] && tx.outputs != []
    && tx.baseSize * WITNESS_SCALE_FACTOR <= MAX_BLOCK_WEIGHT
    && (forall i :: 0 <= i < |tx.outputs| ==> tx.outputs[i].value <= MAX_MONEY)
    && SumOutputs(tx.outputs) <= MAX_MONEY
    && Distinct(tx.inputs)
    && if IsCoinbase(tx) then 2 <= tx.scriptSigLen <= 100 else forall op :: op in tx.inputs ==> !IsNull(op)
  }

  lemma {:induction false} SumOutputsPrefix(outs: seq<TxOut>, i: nat)
    requires i <= |outs|
    ensures SumOutputs(outs[..i]) <= SumOutputs(outs)
    ensures i < |outs| ==> SumOutputs(outs[..i + 1]) == SumOutputs(outs[..i]) + outs[i].value
  {
    if i < |outs| {
      assert outs[..i + 1][..i] == outs[..i];
      var n := |outs| - 1;
      if i < n {
        SumOutputsPrefix(outs[..n], i);
        assert outs[..n][..i] == outs[..i];
      }
    } else {
      assert outs[..i] == outs;
    }
  }

  /** Some output is too large by itself, and the outputs before it are not too large together. */
  ghost predicate LargeOutputFirst(outs: seq<TxOut>) {
    exists i :: 0 <= i < |outs| && outs[i].value > MAX_MONEY && SumOutputs(outs[..i]) <= MAX_MONEY
  }

  predicate EachAffordable(outs: seq<TxOut>) {
    forall i :: 0 <= i < |outs| ==> outs[i].value <= MAX_MONEY
  }

  lemma {:induction false} TotalFirst(outs: seq<TxOut>, i: nat)
    requires i < |outs| && EachAffordable(outs[..i + 1]) && SumOutputs(outs[..i + 1]) > MAX_MONEY
    ensures SumOutputs(outs) > MAX_MONEY && !LargeOutputFirst(outs)
  {
    hide SumOutputs;
    SumOutputsPrefix(outs, i + 1);
    forall k | 0 <= k <= i ensures outs[k].value <= MAX_MONEY { assert outs[..i + 1][k] == outs[k]; }
    forall k | i < k < |outs| ensures SumOutputs(outs[..k]) > MAX_MONEY {
      SumOutputsPrefix(outs[..k], i + 1);
      assert outs[..k][..i + 1] == outs[..i + 1];
    }
  }

  method CheckOutputValues(outs: seq<TxOut>) returns (r: Result<nat, TxError>)
    ensures r.Ok? <==> EachAffordable(outs) && SumOutputs(outs) <= MAX_MONEY
    ensures r.Ok? ==> r.value == SumOutputs(outs)
    ensures r.Err? ==> r.error == if LargeOutputFirst(outs) then OutputValueTooLarge else TotalOutputValueTooLarge
  {
    hide SumOutputs;
    var valueOut := 0;
    assert valueOut == SumOutputs(outs[..0]) by { SumOfNone(outs); }
    for i := 0 to |outs|
      invariant EachAffordable(outs[..i])
      invariant valueOut == SumOutputs(outs[..i]) <= MAX_MONEY
    {
      SumOutputsPrefix(outs, i);
      if outs[i].value > MAX_MONEY {
        return Err(OutputValueTooLarge);
      }
      valueOut := valueOut + outs[i].value;
      if valueOut > MAX_MONEY {
        TotalFirst(outs, i);
        return Err(TotalOutputValueTooLarge);
      }
    }
    assert outs[..|outs|] == outs;
    return Ok(valueOut);
  }

  lemma {:induction false} SumOfNone(outs: seq<TxOut>)
    ensures SumOutputs(outs[..0]) == 0
  {
  }

  /** The index of the first input that repeats an earlier one. */
  method FindDuplicateInput(inputs: seq<OutPoint>) returns (r: Option<nat>)
    ensures r.None? <==> Distinct(inputs)
    ensures r.Some? ==> r.value < |inputs| && Distinct(inputs[..r.value]) && inputs[r.value] in inputs[..r.value]
  {
    var seen := {};
    for i := 0 to |inputs|
      invariant seen == Elements(inputs[..i]) && Distinct(inputs[..i])
    {
      if inputs[i] in seen {
        return Some(i);
      }
      seen := seen + {inputs[i]};
      assert inputs[..i + 1] == inputs[..i] + [inputs[i]];
    }
    assert inputs[..|inputs|] == inputs;
    return None;
  }

  /** The transaction has inputs and outputs and is not too large; the values of its outputs are in bounds. */
  ghost predicate WellFormed(tx: Transaction) {
    tx.inputs != [] && tx.outputs != [] && tx.baseSize <= 1_000_000
  }

  ghost predicate WellValued(tx: Transaction) {
    WellFormed(tx) && EachAffordable(tx.outputs) && SumOutputs(tx.outputs) <= MAX_MONEY
  }

  /** What an error says: the rule that is broken, and that those checked before it are not. */
  ghost predicate Refuses(tx: Transaction, error: TxError) {
    match error
    case EmptyInput => tx.inputs == []
    case EmptyOutput => tx.inputs != [] && tx.outputs == []
    case TransactionOversize => tx.inputs != [] && tx.outputs != [] && tx.baseSize > 1_000_000
    case OutputValueTooLarge => WellFormed(tx) && LargeOutputFirst(tx.outputs)
    case TotalOutputValueTooLarge => WellFormed(tx) && !LargeOutputFirst(tx.outputs) && SumOutputs(tx.outputs) > MAX_MONEY
    case DuplicateTxInput(k) =>
      && WellValued(tx) && k < |tx.inputs| && Distinct(tx.inputs[..k]) && tx.inputs[k] in tx.inputs[..k]
    case BadCoinbaseLength =>
      WellValued(tx) && Distinct(tx.inputs) && IsCoinbase(tx) && (tx.scriptSigLen < 2 || tx.scriptSigLen > 100)
    case PreviousOutputNull =>
      WellValued(tx) && Distinct(tx.inputs) && |tx.inputs| > 1 && OutPoint(0, 4_294_967_295) in tx.inputs
  }

  lemma {:induction false} NoLargeOutput(outs: seq<TxOut>)
    requires !LargeOutputFirst(outs) && !EachAffordable(outs)
    ensures SumOutputs(outs) > MAX_MONEY
  {
    hide SumOutputs;
    var i: nat :| i < |outs| && outs[i].value > MAX_MONEY;
    SumOutputsPrefix(outs, i);
  }

  method CheckTransactionSanity(tx: Transaction) returns (r: Result<(), TxError>)
    ensures r.Ok? <==> TxSane(tx)
    ensures r.Err? ==> Refuses(tx, r.error)
  {
    hide SumOutputs;
    if !LargeOutputFirst(tx.outputs) && !EachAffordable(tx.outputs) { NoLargeOutput(tx.outputs); }
    if tx.inputs == [] { return Err(EmptyInput); }
    if tx.outputs == [] { return Err(EmptyOutput); }
    if tx.baseSize * WITNESS_SCALE_FACTOR > MAX_BLOCK_WEIGHT { return Err(TransactionOversize); }
    var values := CheckOutputValues(tx.outputs);
    if values.Err? { return Err(values.error); }
    var duplicate := FindDuplicateInput(tx.inputs);
    if duplicate.Some? { return Err(DuplicateTxInput(duplicate.value)); }
    if IsCoinbase(tx) {
      if !(2 <= tx.scriptSigLen <= 100) { return Err(BadCoinbaseLength); }
    } else if exists op :: op in tx.inputs && IsNull(op) {
      return Err(PreviousOutputNull);
    }
    return Ok(());
  }

  datatype BlockError =
    | EmptyTransactionList | BlockTooLarge | FirstTransactionIsNotCoinbase | MultipleCoinbase
    | DuplicateTransaction(index: nat) | BadTransaction(error: TxError) | TooManySigOps | BadMerkleRoot

  /** Code outside this model: legacy signature-operation counting and the merkle root. */
  datatype Foreign = Foreign(legacySigOps: Transaction -> nat, merkleRootMatches: Block -> bool)

  /** The smallest of the four encodings that has room. */
  function VarIntSize(n: nat): (size: nat)
    ensures size in {1, 3, 5, 9}
    ensures (size == 1 <==> n < 253) && (size <= 3 <==> n < 65_536) && (size <= 5 <==> n < 4_294_967_296)
  {
    if n < 0xFD then 1 else if n <= 0xFFFF then 3 else if n <= 0xFFFF_FFFF then 5 else 9
  }

  function SumBaseSizes(txs: seq<Transaction>): nat {
    if txs == [] then 0 else SumBaseSizes(txs[..|txs| - 1]) + txs[|txs| - 1].baseSize
  }

  function BlockBaseSize(block: Block): nat {
    80 + VarIntSize(|block.txs|) + SumBaseSizes(block.txs)
  }

  function SumSigOps(f: Foreign, txs: seq<Transaction>): nat {
    if txs == [] then 0 else SumSigOps(f, txs[..|txs| - 1]) + f.legacySigOps(txs[|txs| - 1])
  }

  predicate CoinbaseFirstAndOnly(txs: seq<Transaction>) {
    txs != [] && forall i :: 0 <= i < |txs| ==> (IsCoinbase(txs[i]) <==> i == 0)
  }

  predicate FitsBlock(block: Block) {
    |block.txs| * WITNESS_SCALE_FACTOR <= MAX_BLOCK_WEIGHT && BlockBaseSize(block) * WITNESS_SCALE_FACTOR <= MAX_BLOCK_WEIGHT
  }

  predicate BlockSane(f: Foreign, block: Block) {
    && FitsBlock(block) && CoinbaseFirstAndOnly(block.txs) && DistinctTxids(block.txs)
    && (forall i :: 0 <= i < |block.txs| ==> TxSane(block.txs[i]))
    && SumSigOps(f, block.txs) * WITNESS_SCALE_FACTOR <= MAX_BLOCK_SIGOPS_COST
    && f.merkleRootMatches(block)
  }

  predicate SaneSoFar(txs: seq<Transaction>, n: nat)
    requires n <= |txs|
  {
    && DistinctTxids(txs[..n])
    && forall i :: 0 <= i < n ==> (IsCoinbase(txs[i]) <==> i == 0) && TxSane(txs[i])
  }

  /** What an error about transaction `i` says, all before it being in order. */
  ghost predicate RefusesAt(txs: seq<Transaction>, i: nat, error: BlockError)
    requires i < |txs|
  {
    && SaneSoFar(txs, i)
    && match error
       case MultipleCoinbase => i > 0 && IsCoinbase(txs[i])
       case DuplicateTransaction(k) =>
         k == i && (i > 0 ==> !IsCoinbase(txs[i])) && exists j :: 0 <= j < i && txs[j].txid == txs[i].txid
       case BadTransaction(e) =>
         && (i > 0 ==> !IsCoinbase(txs[i])) && (forall j :: 0 <= j < i ==> txs[j].txid != txs[i].txid)
         && Refuses(txs[i], e)
       case _ => false
  }

  lemma {:induction false} LoopErrors(txs: seq<Transaction>, i: nat, error: BlockError)
    requires i < |txs| && RefusesAt(txs, i, error)
    ensures error.MultipleCoinbase? || error.DuplicateTransaction? || error.BadTransaction?
  {
  }

  /** What an error about a block says. */
  ghost predicate RefusesBlock(f: Foreign, block: Block, error: BlockError) {
    var txs := block.txs;
    match error
    case EmptyTransactionList => txs == []
    case BlockTooLarge => txs != [] && (|txs| > 1_000_000 || BlockBaseSize(block) > 1_000_000)
    case FirstTransactionIsNotCoinbase => txs != [] && FitsBlock(block) && !IsCoinbase(txs[0])
    case TooManySigOps =>
      txs != [] && FitsBlock(block) && SaneSoFar(txs, |txs|) && SumSigOps(f, txs) > 20_000
    case BadMerkleRoot =>
      && txs != [] && FitsBlock(block) && SaneSoFar(txs, |txs|) && SumSigOps(f, txs) <= 20_000
      && !f.merkleRootMatches(block)
    case _ => txs != [] && FitsBlock(block) && IsCoinbase(txs[0]) && exists i :: 0 <= i < |txs| && RefusesAt(txs, i, error)
  }

  /** The loop over the transactions; `Ok` carries the summed legacy signature operations. */
  method CheckTransactions(f: Foreign, txs: seq<Transaction>) returns (r: Result<nat, BlockError>)
    requires txs != [] && IsCoinbase(txs[0])
    ensures r.Ok? <==> SaneSoFar(txs, |txs|)
    ensures r.Ok? ==> r.value == SumSigOps(f, txs)
    ensures r.Err? ==> exists i :: 0 <= i < |txs| && RefusesAt(txs, i, r.error)
  {
    hide Refuses;
    var seen: set<Txid> := {};
    var sigOps := 0;
    for i := 0 to |txs|
      invariant seen == set k | 0 <= k < i :: txs[k].txid
      invariant SaneSoFar(txs, i) && sigOps == SumSigOps(f, txs[..i])
    {
      assert txs[..i + 1][..i] == txs[..i];
      if i > 0 && IsCoinbase(txs[i]) {
        assert RefusesAt(txs, i, MultipleCoinbase);
        return Err(MultipleCoinbase);
      }
      if txs[i].txid in seen {
        assert RefusesAt(txs, i, DuplicateTransaction(i));
        return Err(DuplicateTransaction(i));
      }
      var sane := CheckTransactionSanity(txs[i]);
      if sane.Err? {
        assert RefusesAt(txs, i, BadTransaction(sane.error));
        return Err(BadTransaction(sane.error));
      }
      seen := seen + {txs[i].txid};
      sigOps := sigOps + f.legacySigOps(txs[i]);
    }
    assert txs[..|txs|] == txs;
    return Ok(sigOps);
  }

  method CheckBlockSanity(f: Foreign, block: Block) returns (r: Result<(), BlockError>)
    ensures r.Ok? <==> BlockSane(f, block)
    ensures r.Err? ==> RefusesBlock(f, block, r.error)
  {
    hide RefusesAt, TxSane;
    if block.txs == [] { return Err(EmptyTransactionList); }
    if !FitsBlock(block) { return Err(BlockTooLarge); }
    if !IsCoinbase(block.txs[0]) { return Err(FirstTransactionIsNotCoinbase); }
    var sigOps := CheckTransactions(f, block.txs);
    assert block.txs[..|block.txs|] == block.txs;
    if sigOps.Err? {
      ghost var i: nat :| i < |block.txs| && RefusesAt(block.txs, i, sigOps.error);
      LoopErrors(block.txs, i, sigOps.error);
      return Err(sigOps.error);
    }
    if sigOps.value * WITNESS_SCALE_FACTOR > MAX_BLOCK_SIGOPS_COST { return Err(TooManySigOps); }
    if !f.merkleRootMatches(block) { return Err(BadMerkleRoot); }
    return Ok(());
  }
}
