/** `verify_transactions`: a block checked against the parent's UTXO set plus its own earlier outputs. */
module Verification {
  import opened Bitcoin
  import opened Subsidy

  /** Code outside this model: finality, script and signature-operation checks, as functions. */
  datatype Rules = Rules(
    bip34Height: nat,
    isFinal: (Transaction, nat) -> bool,
    scriptOk: (TxOut, Transaction, nat) -> bool,
    sigOpCost: (Transaction, seq<Option<TxOut>>) -> nat)

  datatype VerifyError =
    | Bip34 | BadCoinbaseBlockHeight(got: nat) | TransactionNotFinal | AlreadySpentInCurrentBlock(tx: nat, op: OutPoint)
    | MissingUtxoInState(tx: nat, op: OutPoint) | PrematureSpendOfCoinbase | InvalidScript(tx: nat, input: nat)
    | TooManySigOps | InsufficientFunds(valueIn: nat, valueOut: nat) | InvalidBlockReward

  /** A coin found by the verifier: the output, whether it is a coinbase output, and its height. */
  datatype Found = Found(out: TxOut, isCoinbase: bool, height: nat)

  /** The first of the first `n` transactions with the given txid. */
  function FirstWithTxid(txs: seq<Transaction>, n: nat, txid: Txid): (r: Option<nat>)
    requires n <= |txs|
    ensures r.Some? ==> r.value < n && txs[r.value].txid == txid
    ensures forall k :: 0 <= k < (if r.Some? then r.value else n) ==> txs[k].txid != txid
  {
    if n == 0 then None else
      var r := FirstWithTxid(txs, n - 1, txid);
      if r.Some? then r else if txs[n - 1].txid == txid then Some(n - 1) else None
  }

  function FindUtxoInCurrentBlock(txs: seq<Transaction>, n: nat, op: OutPoint): Option<(TxOut, bool)>
    requires n <= |txs|
  {
    match FirstWithTxid(txs, n, op.txid)
    case None => None
    case Some(k) => if op.vout < |txs[k].outputs| then Some((txs[k].outputs[op.vout], k == 0)) else None
  }

  /** The lookup used for every input: parent state first, then earlier outputs of this block. */
  function AccessCoin(state: Coins, txs: seq<Transaction>, height: nat, i: nat, op: OutPoint): Option<Found>
    requires i <= |txs|
  {
    if op in state then Some(Found(TxOut(state[op].amount, state[op].script), state[op].isCoinbase, state[op].height))
    else match FindUtxoInCurrentBlock(txs, i, op)
      case None => None
      case Some((out, isCoinbase)) => Some(Found(out, isCoinbase, height))
  }

  predicate Mature(coin: Found, height: nat) {
    !coin.isCoinbase || height - coin.height >= COINBASE_MATURITY
  }

  function SpentOutputs(state: Coins, txs: seq<Transaction>, height: nat, i: nat): seq<Option<TxOut>>
    requires i < |txs|
  {
    seq(|txs[i].inputs|, j requires 0 <= j < |txs[i].inputs| =>
      match AccessCoin(state, txs, height, i, txs[i].inputs[j]) case None => None case Some(coin) => Some(coin.out))
  }

  // ----- What acceptance means -----

  predicate InputOk(rules: Rules, state: Coins, txs: seq<Transaction>, height: nat, i: nat, j: nat)
    requires i < |txs| && j < |txs[i].inputs|
  {
    var coin := AccessCoin(state, txs, height, i, txs[i].inputs[j]);
    coin.Some? && Mature(coin.value, height) && rules.scriptOk(coin.value.out, txs[i], j)
  }

  /** The value of the first `j` inputs. */
  function ValueIn(state: Coins, txs: seq<Transaction>, height: nat, i: nat, j: nat): nat
    requires i < |txs| && j <= |txs[i].inputs|
  {
    if j == 0 then 0 else
      var coin := AccessCoin(state, txs, height, i, txs[i].inputs[j - 1]);
      ValueIn(state, txs, height, i, j - 1) + if coin.Some? then coin.value.out.value else 0
  }

  function TotalIn(state: Coins, txs: seq<Transaction>, height: nat, i: nat): nat
    requires i < |txs|
  {
    ValueIn(state, txs, height, i, |txs[i].inputs|)
  }

  predicate SigOpsOk(rules: Rules, state: Coins, txs: seq<Transaction>, height: nat, i: nat)
    requires i < |txs|
  {
    rules.sigOpCost(txs[i], SpentOutputs(state, txs, height, i)) <= MAX_BLOCK_SIGOPS_COST
  }

  /** Outpoints spent by transactions 1 to `n - 1`. */
  function SpentBefore(txs: seq<Transaction>, n: nat): set<OutPoint>
    requires n <= |txs|
  {
    if n <= 1 then {} else SpentBefore(txs, n - 1) + Elements(txs[n - 1].inputs)
  }

  predicate TxAccepted(rules: Rules, state: Coins, txs: seq<Transaction>, height: nat, i: nat)
    requires i < |txs|
  {
    && rules.isFinal(txs[i], height)
    && InputsOk(rules, state, txs, height, i)
    && SigOpsOk(rules, state, txs, height, i)
    && SumOutputs(txs[i].outputs) <= TotalIn(state, txs, height, i)
  }

  /** Fees of transactions 1 to `n - 1`. */
  function Fees(state: Coins, txs: seq<Transaction>, height: nat, n: nat): int
    requires n <= |txs|
  {
    if n <= 1 then 0 else
      Fees(state, txs, height, n - 1) + TotalIn(state, txs, height, n - 1) - SumOutputs(txs[n - 1].outputs)
  }

  /** Signature-operation cost of transactions 1 to `n - 1` together. The source never forms this sum. */
  function SumSigOpCost(rules: Rules, state: Coins, txs: seq<Transaction>, height: nat, n: nat): nat
    requires n <= |txs|
  {
    if n <= 1 then 0 else
      SumSigOpCost(rules, state, txs, height, n - 1) + rules.sigOpCost(txs[n - 1], SpentOutputs(state, txs, height, n - 1))
  }

  /** All that acceptance says of the summed cost: the limit is applied to each transaction by itself. So the sum
      keeps the limit where at most one transaction follows the coinbase. */
  lemma {:induction false} SigOpsAreBoundedEach(rules: Rules, state: Coins, txs: seq<Transaction>, height: nat, n: nat)
    requires 1 <= n <= |txs| && AcceptedUpTo(rules, state, txs, height, n)
    ensures SumSigOpCost(rules, state, txs, height, n) <= (n - 1) * MAX_BLOCK_SIGOPS_COST
    ensures n <= 2 ==> SumSigOpCost(rules, state, txs, height, n) <= MAX_BLOCK_SIGOPS_COST
    decreases n
  {
    if n > 1 {
      hide InputsOk, TotalIn, SumOutputs, SpentOutputs;
      SigOpsAreBoundedEach(rules, state, txs, height, n - 1);
      assert TxAccepted(rules, state, txs, height, n - 1);
    }
  }

  predicate CoinbaseHeightOk(rules: Rules, block: Block, height: nat) {
    height >= rules.bip34Height ==> block.coinbaseHeight == Some(height)
  }

  predicate AcceptedUpTo(rules: Rules, state: Coins, txs: seq<Transaction>, height: nat, n: nat)
    requires n <= |txs|
  {
    forall i :: 1 <= i < n ==> TxAccepted(rules, state, txs, height, i)
  }

  /** A block the verifier accepts, stated without reference to the order of its checks. */
  predicate Accepted(rules: Rules, state: Coins, block: Block, height: nat) {
    && block.txs != [] && CoinbaseHeightOk(rules, block, height)
    && AcceptedUpTo(rules, state, block.txs, height, |block.txs|)
    && SumOutputs(block.txs[0].outputs) <= Fees(state, block.txs, height, |block.txs|) + BitcoinBlockSubsidy(height)
  }

  // ----- The checks in the order the source makes them -----

  /** Why input `j` is refused when the outpoints of `spent` are already used; `None` if it passes. */
  function InputFault(rules: Rules, state: Coins, txs: seq<Transaction>, height: nat, i: nat, j: nat,
                      spent: set<OutPoint>): Option<VerifyError>
    requires i < |txs| && j < |txs[i].inputs|
  {
    var op := txs[i].inputs[j];
    if op in spent then Some(AlreadySpentInCurrentBlock(i, op)) else
      match AccessCoin(state, txs, height, i, op)
      case None => Some(MissingUtxoInState(i, op))
      case Some(coin) =>
        if !Mature(coin, height) then Some(PrematureSpendOfCoinbase)
        else if !rules.scriptOk(coin.out, txs[i], j) then Some(InvalidScript(i, j))
        else None
  }

  predicate InputsOk(rules: Rules, state: Coins, txs: seq<Transaction>, height: nat, i: nat)
    requires i < |txs|
  {
    && Distinct(txs[i].inputs) && Elements(txs[i].inputs) !! SpentBefore(txs, i)
    && forall j :: 0 <= j < |txs[i].inputs| ==> InputOk(rules, state, txs, height, i, j)
  }

  /** Input `j` is refused, given everything spent before it. */
  ghost predicate FaultAt(rules: Rules, state: Coins, txs: seq<Transaction>, height: nat, i: nat, j: nat,
                          fault: VerifyError)
    requires i < |txs| && j < |txs[i].inputs|
  {
    InputFault(rules, state, txs, height, i, j, SpentBefore(txs, i) + Elements(txs[i].inputs[..j])) == Some(fault)
  }

  lemma {:induction false} FaultMeansNotOk(rules: Rules, state: Coins, txs: seq<Transaction>, height: nat, i: nat,
                                           j: nat, fault: VerifyError)
    requires i < |txs| && j < |txs[i].inputs| && FaultAt(rules, state, txs, height, i, j, fault)
    ensures !InputsOk(rules, state, txs, height, i)
  {
    var inputs := txs[i].inputs;
    var op := inputs[j];
    if op in SpentBefore(txs, i) {
      assert op in Elements(inputs);
    } else if op in Elements(inputs[..j]) {
      var k :| 0 <= k < j && inputs[..j][k] == op;
      assert inputs[k] == inputs[j];
    } else {
      assert !InputOk(rules, state, txs, height, i, j);
    }
  }

  ghost predicate InputsSoFar(rules: Rules, state: Coins, txs: seq<Transaction>, height: nat, i: nat, j: nat)
    requires i < |txs| && j <= |txs[i].inputs|
  {
    var inputs := txs[i].inputs[..j];
    && Distinct(inputs) && Elements(inputs) !! SpentBefore(txs, i)
    && forall k :: 0 <= k < j ==> InputOk(rules, state, txs, height, i, k)
  }

  lemma {:induction false} NextInput(rules: Rules, state: Coins, txs: seq<Transaction>, height: nat, i: nat, j: nat)
    requires i < |txs| && j < |txs[i].inputs| && InputsSoFar(rules, state, txs, height, i, j)
    requires InputFault(rules, state, txs, height, i, j, SpentBefore(txs, i) + Elements(txs[i].inputs[..j])).None?
    ensures InputsSoFar(rules, state, txs, height, i, j + 1)
    ensures Elements(txs[i].inputs[..j + 1]) == Elements(txs[i].inputs[..j]) + {txs[i].inputs[j]}
  {
  }

  /** What an error about input `j` of transaction `i` says, given everything named before it. */
  ghost predicate RefusesInput(rules: Rules, state: Coins, txs: seq<Transaction>, height: nat, i: nat, j: nat,
                               error: VerifyError)
    requires i < |txs| && j < |txs[i].inputs|
  {
    var op := txs[i].inputs[j];
    var coin := AccessCoin(state, txs, height, i, op);
    var named := op in SpentBefore(txs, i) || op in txs[i].inputs[..j];
    match error
    case AlreadySpentInCurrentBlock(k, o) => k == i && o == op && named
    case MissingUtxoInState(k, o) => k == i && o == op && !named && coin.None?
    case PrematureSpendOfCoinbase => !named && coin.Some? && coin.value.isCoinbase && height < coin.value.height + 100
    case InvalidScript(k, l) =>
      && k == i && l == j && !named && coin.Some? && (coin.value.isCoinbase ==> height >= coin.value.height + 100)
      && !rules.scriptOk(coin.value.out, txs[i], j)
    case _ => false
  }

  lemma {:induction false} FaultIff(rules: Rules, state: Coins, txs: seq<Transaction>, height: nat, i: nat, j: nat,
                                    error: VerifyError)
    requires i < |txs| && j < |txs[i].inputs|
    ensures FaultAt(rules, state, txs, height, i, j, error) <==> RefusesInput(rules, state, txs, height, i, j, error)
  {
    hide AccessCoin, SpentBefore;
  }

  /** What an error about transaction `i` says. */
  ghost predicate RefusesTx(rules: Rules, state: Coins, txs: seq<Transaction>, height: nat, i: nat, error: VerifyError)
    requires i < |txs|
  {
    if error == TransactionNotFinal then !rules.isFinal(txs[i], height)
    else if error == TooManySigOps then
      && rules.isFinal(txs[i], height) && InputsOk(rules, state, txs, height, i)
      && rules.sigOpCost(txs[i], SpentOutputs(state, txs, height, i)) > 80_000
    else if error.InsufficientFunds? then
      && rules.isFinal(txs[i], height) && InputsOk(rules, state, txs, height, i)
      && rules.sigOpCost(txs[i], SpentOutputs(state, txs, height, i)) <= 80_000
      && error.valueIn == TotalIn(state, txs, height, i) < error.valueOut == SumOutputs(txs[i].outputs)
    else
      && rules.isFinal(txs[i], height)
      && exists j :: 0 <= j < |txs[i].inputs| && InputsSoFar(rules, state, txs, height, i, j)
                     && RefusesInput(rules, state, txs, height, i, j, error)
  }

  /** What an error about a block says: the first rule that is broken, in the order of the checks. */
  ghost predicate RefusesBlock(rules: Rules, state: Coins, block: Block, height: nat, error: VerifyError)
    requires block.txs != []
  {
    if error == Bip34 then height >= rules.bip34Height && block.coinbaseHeight.None?
    else if error.BadCoinbaseBlockHeight? then
      height >= rules.bip34Height && block.coinbaseHeight == Some(error.got) && error.got != height
    else if error == InvalidBlockReward then
      && CoinbaseHeightOk(rules, block, height) && AcceptedUpTo(rules, state, block.txs, height, |block.txs|)
      && SumOutputs(block.txs[0].outputs) > Fees(state, block.txs, height, |block.txs|) + BitcoinBlockSubsidy(height)
    else
      && CoinbaseHeightOk(rules, block, height)
      && exists i :: 1 <= i < |block.txs| && AcceptedUpTo(rules, state, block.txs, height, i)
                     && RefusesTx(rules, state, block.txs, height, i, error)
  }

  /** The loop over the inputs of transaction `i`; a fault is the first input's that fails. */
  method CheckInputs(rules: Rules, state: Coins, txs: seq<Transaction>, height: nat, i: nat, before: set<OutPoint>)
      returns (fault: Option<VerifyError>, spent: set<OutPoint>, valueIn: nat)
    requires 1 <= i < |txs| && before == SpentBefore(txs, i)
    ensures fault.None? <==> InputsOk(rules, state, txs, height, i)
    ensures fault.None? ==> spent == SpentBefore(txs, i + 1) && valueIn == TotalIn(state, txs, height, i)
    ensures fault.Some? ==>
              exists j :: 0 <= j < |txs[i].inputs| && InputsSoFar(rules, state, txs, height, i, j)
                          && RefusesInput(rules, state, txs, height, i, j, fault.value)
  {
    hide RefusesInput;
    var inputs := txs[i].inputs;
    spent, valueIn := before, 0;
    for j := 0 to |inputs|
      invariant spent == before + Elements(inputs[..j]) && valueIn == ValueIn(state, txs, height, i, j)
      invariant InputsSoFar(rules, state, txs, height, i, j)
    {
      fault := InputFault(rules, state, txs, height, i, j, spent);
      if fault.Some? {
        FaultMeansNotOk(rules, state, txs, height, i, j, fault.value);
        FaultIff(rules, state, txs, height, i, j, fault.value);
        return fault, spent, valueIn;
      }
      NextInput(rules, state, txs, height, i, j);
      spent := spent + {inputs[j]};
      valueIn := valueIn + AccessCoin(state, txs, height, i, inputs[j]).value.out.value;
    }
    assert inputs[..|inputs|] == inputs;
    return None, spent, valueIn;
  }

  lemma {:induction false} TxErrors(rules: Rules, state: Coins, txs: seq<Transaction>, height: nat, i: nat,
                                    error: VerifyError)
    requires i < |txs| && RefusesTx(rules, state, txs, height, i, error)
    ensures error != Bip34 && !error.BadCoinbaseBlockHeight? && error != InvalidBlockReward
  {
  }

  method CheckTransaction(rules: Rules, state: Coins, txs: seq<Transaction>, height: nat, i: nat, before: set<OutPoint>)
      returns (r: Result<nat, VerifyError>, spent: set<OutPoint>)
    requires 1 <= i < |txs| && before == SpentBefore(txs, i)
    ensures r.Ok? <==> TxAccepted(rules, state, txs, height, i)
    ensures r.Ok? ==>
              spent == SpentBefore(txs, i + 1) && r.value == TotalIn(state, txs, height, i) - SumOutputs(txs[i].outputs)
    ensures r.Err? ==> RefusesTx(rules, state, txs, height, i, r.error)
  {
    hide InputsOk, InputsSoFar, SumOutputs, SpentOutputs, SpentBefore;
    if !rules.isFinal(txs[i], height) { return Err(TransactionNotFinal), before; }
    var fault, spentNow, valueIn := CheckInputs(rules, state, txs, height, i, before);
    if fault.Some? { return Err(fault.value), before; }
    if rules.sigOpCost(txs[i], SpentOutputs(state, txs, height, i)) > MAX_BLOCK_SIGOPS_COST {
      return Err(TooManySigOps), before;
    }
    var valueOut := SumOutputs(txs[i].outputs);
    if valueIn < valueOut { return Err(InsufficientFunds(valueIn, valueOut)), before; }
    return Ok(valueIn - valueOut), spentNow;
  }

  /** The whole check: `Ok` exactly on accepted blocks. */
  method VerifyTransactions(rules: Rules, state: Coins, block: Block, height: nat) returns (r: Result<(), VerifyError>)
    requires block.txs != [] && height >= 1
    ensures r.Ok? <==> Accepted(rules, state, block, height)
    ensures r.Err? ==> RefusesBlock(rules, state, block, height, r.error)
  {
    hide TxAccepted, RefusesTx, SumOutputs, BitcoinBlockSubsidy;
    if height >= rules.bip34Height {
      if block.coinbaseHeight.None? { return Err(Bip34); }
      if block.coinbaseHeight.value != height { return Err(BadCoinbaseBlockHeight(block.coinbaseHeight.value)); }
    }
    var txs := block.txs;
    var blockFee := 0;
    var spent: set<OutPoint> := {};
    for i := 1 to |txs|
      invariant AcceptedUpTo(rules, state, txs, height, i)
      invariant spent == SpentBefore(txs, i) && blockFee == Fees(state, txs, height, i)
    {
      var fee;
      fee, spent := CheckTransaction(rules, state, txs, height, i, spent);
      if fee.Err? {
        assert RefusesTx(rules, state, txs, height, i, fee.error);
        TxErrors(rules, state, txs, height, i, fee.error);
        return Err(fee.error);
      }
      blockFee := blockFee + fee.value;
    }
    if SumOutputs(txs[0].outputs) > blockFee + BitcoinBlockSubsidy(height) { return Err(InvalidBlockReward); }
    return Ok(());
  }
}
