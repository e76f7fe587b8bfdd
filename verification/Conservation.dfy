/** Value is conserved along every chain of verified and applied blocks, up to the subsidy. */
module Conservation {
  import opened Bitcoin
  import opened Sums
  import opened Subsidy
  import opened Pallet
  import opened Sanity
  import opened Verification

  /** What a txid commits to. Hashing without collisions means that one such function fits every transaction. */
  type Outputs = Txid -> seq<TxOut>

  ghost predicate Commits(outs: Outputs, txs: seq<Transaction>) {
    forall i :: 0 <= i < |txs| ==> txs[i].outputs == outs(txs[i].txid)
  }

  ghost predicate CoinsMatch(outs: Outputs, coins: Coins) {
    forall op :: op in coins ==> op.vout < |outs(op.txid)| && coins[op].amount == outs(op.txid)[op.vout].value
  }

  ghost function Value(outs: Outputs, op: OutPoint): nat {
    if op.vout < |outs(op.txid)| then outs(op.txid)[op.vout].value else 0
  }

  ghost function Values(outs: Outputs, s: set<OutPoint>): map<OutPoint, int> {
    map op | op in s :: Value(outs, op)
  }

  ghost function Worth(outs: Outputs, s: set<OutPoint>): int {
    MapSum(Values(outs, s))
  }

  /** The total amount in the UTXO set. */
  ghost function Total(coins: Coins): int {
    MapSum(map op | op in coins :: coins[op].amount)
  }

  lemma {:induction false} TotalIsWorth(outs: Outputs, coins: Coins)
    requires CoinsMatch(outs, coins)
    ensures Total(coins) == Worth(outs, coins.Keys)
  {
    assert (map op | op in coins :: coins[op].amount) == Values(outs, coins.Keys);
  }

  lemma {:induction false} WorthNothing(outs: Outputs)
    ensures Worth(outs, {}) == 0
  {
    assert Values(outs, {}) == map[];
  }

  lemma {:induction false} WorthAdd(outs: Outputs, s: set<OutPoint>, op: OutPoint)
    requires op !in s
    ensures Worth(outs, s + {op}) == Worth(outs, s) + Value(outs, op)
  {
    MapSumPut(Values(outs, s), op, Value(outs, op));
    assert Values(outs, s + {op}) == Values(outs, s)[op := Value(outs, op)];
    assert Values(outs, s) - {op} == Values(outs, s);
  }

  lemma {:induction false} WorthSplit(outs: Outputs, s: set<OutPoint>, t: set<OutPoint>)
    requires t <= s
    ensures Worth(outs, s) == Worth(outs, s - t) + Worth(outs, t)
  {
    var m := Values(outs, s);
    MapSumSplit(m, t);
    assert m - t == Values(outs, s - t);
    assert (map k | k in m && k in t :: m[k]) == Values(outs, t);
  }

  lemma {:induction false} WorthMonotone(outs: Outputs, s: set<OutPoint>, t: set<OutPoint>)
    requires t <= s
    ensures 0 <= Worth(outs, t) <= Worth(outs, s)
  {
    WorthSplit(outs, s, t);
    MapSumNonNegative(Values(outs, s - t));
    MapSumNonNegative(Values(outs, t));
  }

  lemma {:induction false} WorthOverlap(outs: Outputs, s: set<OutPoint>, t: set<OutPoint>)
    ensures Worth(outs, s + t) + Worth(outs, s * t) == Worth(outs, s) + Worth(outs, t)
  {
    hide Worth;
    WorthSplit(outs, s + t, t);
    WorthSplit(outs, s, s * t);
    assert s + t - t == s - s * t;
  }

  function OutPointsOf(tx: Transaction, n: nat): (r: set<OutPoint>)
    ensures forall op :: op in r <==> op.txid == tx.txid && op.vout < n
  {
    if n == 0 then {} else OutPointsOf(tx, n - 1) + {OutPoint(tx.txid, n - 1)}
  }

  lemma {:induction false} OutputsWorth(outs: Outputs, tx: Transaction, n: nat)
    requires tx.outputs == outs(tx.txid) && n <= |tx.outputs|
    ensures Worth(outs, OutPointsOf(tx, n)) == SumOutputs(tx.outputs[..n])
  {
    if n == 0 {
      assert Values(outs, {}) == map[];
    } else {
      OutputsWorth(outs, tx, n - 1);
      WorthAdd(outs, OutPointsOf(tx, n - 1), OutPoint(tx.txid, n - 1));
      assert tx.outputs[..n][..n - 1] == tx.outputs[..n - 1];
    }
  }

  /** What could be spent after the first `n` transactions, OP_RETURN outputs included. */
  function Available(state: Coins, txs: seq<Transaction>, n: nat): set<OutPoint>
    requires n <= |txs|
  {
    if n == 0 then state.Keys else
      (Available(state, txs, n - 1) - Spent(txs[n - 1])) + OutPointsOf(txs[n - 1], |txs[n - 1].outputs|)
  }

  lemma {:induction false} AvailableHas(state: Coins, txs: seq<Transaction>, n: nat, k: nat, op: OutPoint)
    requires CoinbaseFirstAndOnly(txs) && k <= n <= |txs| && op !in SpentBefore(txs, n)
    requires op in state || (k < n && op in OutPointsOf(txs[k], |txs[k].outputs|))
    ensures op in Available(state, txs, n)
    decreases n
  {
    if n > 0 && op !in OutPointsOf(txs[n - 1], |txs[n - 1].outputs|) {
      AvailableHas(state, txs, n - 1, if k < n then k else 0, op);
    }
  }

  /** The coins actually stored are among those available. */
  lemma {:induction false} StoredIsAvailable(state: Coins, txs: seq<Transaction>, height: nat, n: nat)
    requires n <= |txs| && ApplyTxs(state, txs[..n], height).Some?
    ensures ApplyTxs(state, txs[..n], height).value.Keys <= Available(state, txs, n)
    decreases n
  {
    if n > 0 {
      assert txs[..n] == txs[..n - 1] + [txs[n - 1]];
      ApplyTxsAppend(state, txs[..n - 1], [txs[n - 1]], height);
      StoredIsAvailable(state, txs, height, n - 1);
      ApplyOne(ApplyTxs(state, txs[..n - 1], height).value, txs[n - 1], height);
    }
  }

  /** The verifier reads the amount the txid commits to, whichever place it finds the coin in. */
  lemma {:induction false} AccessReadsValue(outs: Outputs, state: Coins, txs: seq<Transaction>, height: nat, i: nat,
                                            op: OutPoint)
    requires Commits(outs, txs) && CoinsMatch(outs, state) && i <= |txs| && AccessCoin(state, txs, height, i, op).Some?
    ensures AccessCoin(state, txs, height, i, op).value.out.value == Value(outs, op)
    ensures op in state || exists k :: 0 <= k < i && op in OutPointsOf(txs[k], |txs[k].outputs|)
  {
  }

  lemma {:induction false} InputsSoFarPrefix(rules: Rules, state: Coins, txs: seq<Transaction>, height: nat, i: nat,
                                             k: nat)
    requires i < |txs| && k < |txs[i].inputs| && InputsSoFar(rules, state, txs, height, i, k + 1)
    ensures InputsSoFar(rules, state, txs, height, i, k) && InputOk(rules, state, txs, height, i, k)
    ensures txs[i].inputs[k] !in Elements(txs[i].inputs[..k])
    ensures Elements(txs[i].inputs[..k + 1]) == Elements(txs[i].inputs[..k]) + {txs[i].inputs[k]}
  {
  }

  lemma {:induction false} ValueInIsWorth(outs: Outputs, rules: Rules, state: Coins, txs: seq<Transaction>, height: nat,
                                          i: nat, j: nat)
    requires Commits(outs, txs) && CoinsMatch(outs, state) && 1 <= i < |txs| && j <= |txs[i].inputs|
    requires InputsSoFar(rules, state, txs, height, i, j)
    ensures ValueIn(state, txs, height, i, j) == Worth(outs, Elements(txs[i].inputs[..j]))
    decreases j
  {
    hide Commits, CoinsMatch, InputsSoFar, Worth, AccessCoin, Elements;
    if j == 0 {
      assert Elements(txs[i].inputs[..0]) == {} by { ElementsOfNone(txs[i].inputs); }
      WorthNothing(outs);
    } else {
      InputsSoFarPrefix(rules, state, txs, height, i, j - 1);
      ValueInIsWorth(outs, rules, state, txs, height, i, j - 1);
      AccessReadsValue(outs, state, txs, height, i, txs[i].inputs[j - 1]);
      WorthAdd(outs, Elements(txs[i].inputs[..j - 1]), txs[i].inputs[j - 1]);
    }
  }

  lemma {:induction false} ElementsOfNone(ops: seq<OutPoint>)
    ensures Elements(ops[..0]) == {}
  {
  }

  /** Inputs that passed the checks so far are all available. */
  lemma {:induction false} InputsAreAvailable(outs: Outputs, rules: Rules, state: Coins, txs: seq<Transaction>,
                                              height: nat, i: nat, j: nat)
    requires Commits(outs, txs) && CoinsMatch(outs, state) && CoinbaseFirstAndOnly(txs) && 1 <= i < |txs|
    requires j <= |txs[i].inputs|
    requires InputsSoFar(rules, state, txs, height, i, j)
    ensures Elements(txs[i].inputs[..j]) <= Available(state, txs, i)
  {
    forall op | op in txs[i].inputs[..j] ensures op in Available(state, txs, i) {
      var k :| 0 <= k < j && txs[i].inputs[..j][k] == op;
      assert InputOk(rules, state, txs, height, i, k) && op in Elements(txs[i].inputs[..j]);
      AccessReadsValue(outs, state, txs, height, i, op);
      if op in state {
        AvailableHas(state, txs, i, 0, op);
      } else {
        var m :| 0 <= m < i && op in OutPointsOf(txs[m], |txs[m].outputs|);
        AvailableHas(state, txs, i, m, op);
      }
    }
  }

  /** A spending transaction takes exactly its input value out of what is available. */
  ghost predicate SpendBacked(outs: Outputs, state: Coins, txs: seq<Transaction>, height: nat, i: nat)
    requires i < |txs|
  {
    Worth(outs, Available(state, txs, i) - Spent(txs[i]))
      == Worth(outs, Available(state, txs, i)) - TotalIn(state, txs, height, i)
  }

  ghost predicate SpendsBacked(outs: Outputs, state: Coins, txs: seq<Transaction>, height: nat, n: nat)
    requires n <= |txs|
  {
    forall i {:trigger SpendBacked(outs, state, txs, height, i)} :: 1 <= i < n ==>
      SpendBacked(outs, state, txs, height, i)
  }

  /** What outputs of the first `n` transactions that land on an outpoint still available are worth. */
  ghost function Clobbered(outs: Outputs, state: Coins, txs: seq<Transaction>, n: nat): int
    requires n <= |txs|
  {
    if n == 0 then 0 else
      Clobbered(outs, state, txs, n - 1)
      + Worth(outs, (Available(state, txs, n - 1) - Spent(txs[n - 1])) * OutPointsOf(txs[n - 1], |txs[n - 1].outputs|))
  }

  lemma {:induction false} ClobberedIsWorth(outs: Outputs, state: Coins, txs: seq<Transaction>, n: nat)
    requires n <= |txs|
    ensures Clobbered(outs, state, txs, n) >= 0
    ensures (forall i :: 0 <= i < n ==>
               (Available(state, txs, i) - Spent(txs[i])) !! OutPointsOf(txs[i], |txs[i].outputs|)) ==>
              Clobbered(outs, state, txs, n) == 0
  {
    hide Available, Worth;
    if n > 0 {
      var lost := (Available(state, txs, n - 1) - Spent(txs[n - 1])) * OutPointsOf(txs[n - 1], |txs[n - 1].outputs|);
      ClobberedIsWorth(outs, state, txs, n - 1);
      WorthMonotone(outs, lost, lost);
      WorthNothing(outs);
      if (Available(state, txs, n - 1) - Spent(txs[n - 1])) !! OutPointsOf(txs[n - 1], |txs[n - 1].outputs|) {
        assert lost == {};
      }
    }
  }

  lemma {:induction false} OutputsAddWorth(outs: Outputs, state: Coins, txs: seq<Transaction>, i: nat)
    requires Commits(outs, txs) && i < |txs|
    ensures Worth(outs, Available(state, txs, i + 1)) + Clobbered(outs, state, txs, i + 1)
         == Worth(outs, Available(state, txs, i) - Spent(txs[i])) + SumOutputs(txs[i].outputs) + Clobbered(outs, state, txs, i)
  {
    var made := OutPointsOf(txs[i], |txs[i].outputs|);
    OutputsWorth(outs, txs[i], |txs[i].outputs|);
    assert txs[i].outputs[..|txs[i].outputs|] == txs[i].outputs;
    WorthOverlap(outs, Available(state, txs, i) - Spent(txs[i]), made);
  }

  /** Where the value is: what is left, what went in fees and what was overwritten add up to `sum`. */
  ghost predicate Balance(outs: Outputs, state: Coins, txs: seq<Transaction>, height: nat, n: nat, sum: int)
    requires n <= |txs|
  {
    Worth(outs, Available(state, txs, n)) + Fees(state, txs, height, n) + Clobbered(outs, state, txs, n) == sum
  }

  lemma {:induction false} FeeStep(outs: Outputs, state: Coins, txs: seq<Transaction>, height: nat, n: nat, sum: int)
    requires Commits(outs, txs) && 1 < n <= |txs| && SpendBacked(outs, state, txs, height, n - 1)
    requires Balance(outs, state, txs, height, n - 1, sum)
    ensures Balance(outs, state, txs, height, n, sum)
  {
    hide Available, Spent, Commits, TotalIn, SumOutputs, Worth, Clobbered;
    OutputsAddWorth(outs, state, txs, n - 1);
  }

  lemma {:induction false} CoinbaseWorth(outs: Outputs, state: Coins, txs: seq<Transaction>, height: nat)
    requires Commits(outs, txs) && CoinbaseFirstAndOnly(txs)
    ensures Balance(outs, state, txs, height, 1, Worth(outs, state.Keys) + SumOutputs(txs[0].outputs))
  {
    OutputsAddWorth(outs, state, txs, 0);
    assert Available(state, txs, 0) - Spent(txs[0]) == state.Keys;
  }

  lemma {:induction false} BalanceIsKept(outs: Outputs, state: Coins, txs: seq<Transaction>, height: nat, n: nat, sum: int)
    requires Commits(outs, txs) && 1 <= n <= |txs| && SpendsBacked(outs, state, txs, height, n)
    requires Balance(outs, state, txs, height, 1, sum)
    ensures Balance(outs, state, txs, height, n, sum)
    decreases n
  {
    hide Balance, SpendBacked, Commits;
    if n > 1 {
      BalanceIsKept(outs, state, txs, height, n - 1, sum);
      assert SpendBacked(outs, state, txs, height, n - 1);
      FeeStep(outs, state, txs, height, n, sum);
    }
  }

  /** Value is conserved exactly: what is still available, the fees and what was overwritten add up to the parent's total
      plus the coinbase outputs. */
  lemma {:induction false} FeesAreExact(outs: Outputs, rules: Rules, state: Coins, txs: seq<Transaction>, height: nat,
                                        n: nat)
    requires Commits(outs, txs) && CoinsMatch(outs, state) && CoinbaseFirstAndOnly(txs) && 1 <= n <= |txs|
    requires AcceptedUpTo(rules, state, txs, height, n)
    ensures Worth(outs, Available(state, txs, n)) + Fees(state, txs, height, n) + Clobbered(outs, state, txs, n)
         == Total(state) + SumOutputs(txs[0].outputs)
  {
    forall i | 1 <= i < n ensures SpendBacked(outs, state, txs, height, i) {
      SpendingIsBacked(outs, rules, state, txs, height, i);
    }
    TotalIsWorth(outs, state);
    CoinbaseWorth(outs, state, txs, height);
    BalanceIsKept(outs, state, txs, height, n, Total(state) + SumOutputs(txs[0].outputs));
  }

  /** So fees come out of what is available. */
  lemma {:induction false} FeesAreBacked(outs: Outputs, rules: Rules, state: Coins, txs: seq<Transaction>, height: nat,
                                         n: nat)
    requires Commits(outs, txs) && CoinsMatch(outs, state) && CoinbaseFirstAndOnly(txs) && 1 <= n <= |txs|
    requires AcceptedUpTo(rules, state, txs, height, n)
    ensures Worth(outs, Available(state, txs, n)) + Fees(state, txs, height, n)
         <= Total(state) + SumOutputs(txs[0].outputs)
  {
    hide *;
    FeesAreExact(outs, rules, state, txs, height, n);
    ClobberedIsWorth(outs, state, txs, n);
  }

  // ----- The reward -----

  /** What the first `n` transactions pay out, the coinbase included. */
  function PaidOut(txs: seq<Transaction>, n: nat): nat
    requires n <= |txs|
  {
    if n == 0 then 0 else PaidOut(txs, n - 1) + SumOutputs(txs[n - 1].outputs)
  }

  lemma {:induction false} SpentApart(rules: Rules, state: Coins, txs: seq<Transaction>, height: nat, i: nat)
    requires 1 <= i < |txs| && TxAccepted(rules, state, txs, height, i)
    ensures SpentBefore(txs, i) !! Elements(txs[i].inputs)
  {
    var n := |txs[i].inputs|;
    assert txs[i].inputs[..n] == txs[i].inputs;
    assert InputsSoFar(rules, state, txs, height, i, n);
  }

  /** The fees are what all inputs of the block are worth, less what its transactions after the coinbase pay out. */
  lemma {:induction false} FeesAreInputsLessOutputs(outs: Outputs, rules: Rules, state: Coins, txs: seq<Transaction>,
                                                    height: nat, n: nat)
    requires Commits(outs, txs) && CoinsMatch(outs, state) && 1 <= n <= |txs| && AcceptedUpTo(rules, state, txs, height, n)
    ensures Fees(state, txs, height, n)
         == Worth(outs, SpentBefore(txs, n)) - (PaidOut(txs, n) - SumOutputs(txs[0].outputs))
    decreases n
  {
    hide Worth, Commits, CoinsMatch, TxAccepted, SumOutputs, Elements, ValueIn, AccessCoin;
    if n == 1 {
      WorthNothing(outs);
      assert PaidOut(txs, 0) == 0;
    } else {
      var i := n - 1;
      FeesAreInputsLessOutputs(outs, rules, state, txs, height, i);
      assert TxAccepted(rules, state, txs, height, i);
      InputsAddWorth(outs, rules, state, txs, height, i);
    }
  }

  lemma {:induction false} InputsAddWorth(outs: Outputs, rules: Rules, state: Coins, txs: seq<Transaction>, height: nat,
                                          i: nat)
    requires Commits(outs, txs) && CoinsMatch(outs, state) && 1 <= i < |txs| && TxAccepted(rules, state, txs, height, i)
    ensures Worth(outs, SpentBefore(txs, i + 1)) == Worth(outs, SpentBefore(txs, i)) + TotalIn(state, txs, height, i)
  {
    var k := |txs[i].inputs|;
    assert txs[i].inputs[..k] == txs[i].inputs;
    ValueInIsWorth(outs, rules, state, txs, height, i, k);
    SpentApart(rules, state, txs, height, i);
    hide Worth, Commits, CoinsMatch, TxAccepted, Elements, ValueIn, AccessCoin;
    WorthOverlap(outs, SpentBefore(txs, i), Elements(txs[i].inputs));
    assert SpentBefore(txs, i) * Elements(txs[i].inputs) == {};
    WorthNothing(outs);
  }

  /** A block whose transactions pass is accepted exactly when everything it pays out is at most the subsidy plus what its
      inputs are worth. */
  lemma {:induction false} RewardIff(outs: Outputs, rules: Rules, state: Coins, block: Block, height: nat)
    requires Commits(outs, block.txs) && CoinsMatch(outs, state)
    requires block.txs != [] && CoinbaseHeightOk(rules, block, height)
    requires AcceptedUpTo(rules, state, block.txs, height, |block.txs|)
    ensures Accepted(rules, state, block, height) <==>
              PaidOut(block.txs, |block.txs|) <= BitcoinBlockSubsidy(height) + Worth(outs, SpentBefore(block.txs, |block.txs|))
  {
    hide Worth, Commits, CoinsMatch, AcceptedUpTo, SumOutputs, Fees, PaidOut, SpentBefore, BitcoinBlockSubsidy;
    FeesAreInputsLessOutputs(outs, rules, state, block.txs, height, |block.txs|);
  }

  lemma {:induction false} SpendingIsBacked(outs: Outputs, rules: Rules, state: Coins, txs: seq<Transaction>,
                                            height: nat, i: nat)
    requires Commits(outs, txs) && CoinsMatch(outs, state) && CoinbaseFirstAndOnly(txs) && 1 <= i < |txs|
    requires TxAccepted(rules, state, txs, height, i)
    ensures Worth(outs, Available(state, txs, i) - Spent(txs[i]))
         == Worth(outs, Available(state, txs, i)) - TotalIn(state, txs, height, i)
  {
    var n := |txs[i].inputs|;
    assert txs[i].inputs[..n] == txs[i].inputs;
    assert InputsSoFar(rules, state, txs, height, i, n);
    ValueInIsWorth(outs, rules, state, txs, height, i, n);
    InputsAreAvailable(outs, rules, state, txs, height, i, n);
    assert Spent(txs[i]) == Elements(txs[i].inputs);
    WorthSplit(outs, Available(state, txs, i), Spent(txs[i]));
  }

  /** Fees only grow as transactions are accepted. */
  lemma {:induction false} FeesNonNegative(rules: Rules, state: Coins, txs: seq<Transaction>, height: nat, n: nat)
    requires n <= |txs| && AcceptedUpTo(rules, state, txs, height, n)
    ensures Fees(state, txs, height, n) >= 0
    decreases n
  {
    if n > 1 {
      FeesNonNegative(rules, state, txs, height, n - 1);
      assert TxAccepted(rules, state, txs, height, n - 1);
    }
  }

  /** Whatever point the verification of a sane block has reached (transactions 1 to `i - 1` accepted and `j`
      inputs of the next one passed), none of its running u64 sums can have overflowed. */
  lemma {:induction false} SumsNeverOverflow(outs: Outputs, rules: Rules, state: Coins, txs: seq<Transaction>,
                                             height: nat, i: nat, j: nat)
    requires Commits(outs, txs) && CoinsMatch(outs, state) && Total(state) <= MAX_MONEY
    requires CoinbaseFirstAndOnly(txs) && TxSane(txs[0]) && 1 <= i <= |txs|
    requires AcceptedUpTo(rules, state, txs, height, i)
    requires if i < |txs| then j <= |txs[i].inputs| && InputsSoFar(rules, state, txs, height, i, j) else j == 0
    ensures i < |txs| ==> ValueIn(state, txs, height, i, j) <= 2 * MAX_MONEY
    ensures 0 <= Fees(state, txs, height, i) <= 2 * MAX_MONEY
    ensures Fees(state, txs, height, i) + BitcoinBlockSubsidy(height) < U64_SIZE
  {
    FeesAreBacked(outs, rules, state, txs, height, i);
    FeesNonNegative(rules, state, txs, height, i);
    WorthMonotone(outs, Available(state, txs, i), {});
    if i < |txs| {
      ValueInIsWorth(outs, rules, state, txs, height, i, j);
      InputsAreAvailable(outs, rules, state, txs, height, i, j);
      WorthMonotone(outs, Available(state, txs, i), Elements(txs[i].inputs[..j]));
    }
    SubsidyIsSmall(height);
  }

  lemma {:induction false} SubsidyIsSmall(height: nat)
    ensures BitcoinBlockSubsidy(height) <= INITIAL_SUBSIDY
  {
    ShiftShrinks(INITIAL_SUBSIDY, height / HALVING_INTERVAL);
  }

  lemma {:induction false} ShiftShrinks(x: nat, k: nat)
    ensures ShiftRight(x, k) <= x
  {
    if k > 0 { ShiftShrinks(x, k - 1); }
  }

  // ----- Whole chains -----

  /** The UTXO set after blocks 1 to n, each fully verified against its parent state and then applied;
      `None` as soon as one is refused or cannot be applied. The genesis block leaves the set empty. */
  function ChainState(f: Foreign, rules: Rules, blocks: seq<Block>): Option<Coins> {
    if blocks == [] then Some(map[]) else
      var height := |blocks|;
      var block := blocks[height - 1];
      match ChainState(f, rules, blocks[..height - 1])
      case None => None
      case Some(state) =>
        if BlockSane(f, block) && Accepted(rules, state, block, height) then ApplyTxs(state, block.txs, height) else None
  }

  /** A prefix of such a chain is one, of sane blocks. */
  lemma {:induction false} ChainPrefix(f: Foreign, rules: Rules, blocks: seq<Block>, n: nat)
    requires n <= |blocks| && ChainState(f, rules, blocks).Some?
    ensures ChainState(f, rules, blocks[..n]).Some?
    ensures forall h :: 0 <= h < n ==> BlockSane(f, blocks[h])
    decreases |blocks|
  {
    hide BlockSane, Accepted, ApplyTxs;
    if n == |blocks| {
      assert blocks[..n] == blocks;
      if n > 0 { ChainPrefix(f, rules, blocks[..n - 1], n - 1); }
    } else {
      assert blocks[..|blocks| - 1][..n] == blocks[..n];
      ChainPrefix(f, rules, blocks[..|blocks| - 1], n);
    }
  }

  lemma {:induction false} ApplyKeepsCommitments(outs: Outputs, state: Coins, txs: seq<Transaction>, height: nat)
    requires Commits(outs, txs) && CoinsMatch(outs, state) && ApplyTxs(state, txs, height).Some?
    ensures CoinsMatch(outs, ApplyTxs(state, txs, height).value)
    decreases |txs|
  {
    if txs != [] {
      var next := ApplyTx(state, txs[0], height).value;
      assert CoinsMatch(outs, next) by {
        forall op | op in Created(txs[0], height)
          ensures op.vout < |outs(op.txid)| && Created(txs[0], height)[op].amount == outs(op.txid)[op.vout].value
        {
          assert txs[0].outputs == outs(txs[0].txid);
        }
      }
      ApplyKeepsCommitments(outs, next, txs[1..], height);
    }
  }

  /** One verified and applied block adds at most its subsidy. */
  lemma {:induction false} BlockAddsAtMostSubsidy(outs: Outputs, f: Foreign, rules: Rules, state: Coins, block: Block,
                                                  height: nat)
    requires Commits(outs, block.txs) && CoinsMatch(outs, state)
    requires BlockSane(f, block) && Accepted(rules, state, block, height) && ApplyTxs(state, block.txs, height).Some?
    ensures CoinsMatch(outs, ApplyTxs(state, block.txs, height).value)
    ensures Total(ApplyTxs(state, block.txs, height).value) <= Total(state) + BitcoinBlockSubsidy(height)
  {
    var txs := block.txs;
    var after := ApplyTxs(state, txs, height).value;
    assert txs[..|txs|] == txs;
    ApplyKeepsCommitments(outs, state, txs, height);
    TotalIsWorth(outs, after);
    StoredIsAvailable(state, txs, height, |txs|);
    WorthMonotone(outs, Available(state, txs, |txs|), after.Keys);
    FeesAreBacked(outs, rules, state, txs, height, |txs|);
  }

  ghost predicate ChainCommits(outs: Outputs, blocks: seq<Block>) {
    forall h :: 0 <= h < |blocks| ==> Commits(outs, blocks[h].txs)
  }

  /** Along every chain of verified and applied blocks the amount in the UTXO set is at most the sum of the
      subsidies so far, and that sum stays below 21 million coins. */
  lemma {:induction false} SupplyIsBounded(outs: Outputs, f: Foreign, rules: Rules, blocks: seq<Block>)
    requires ChainCommits(outs, blocks) && ChainState(f, rules, blocks).Some?
    ensures CoinsMatch(outs, ChainState(f, rules, blocks).value)
    ensures Total(ChainState(f, rules, blocks).value) <= Issued(|blocks|) < MAX_MONEY
  {
    SupplyCap(|blocks|);
    if blocks != [] {
      var n := |blocks| - 1;
      SupplyIsBounded(outs, f, rules, blocks[..n]);
      BlockAddsAtMostSubsidy(outs, f, rules, ChainState(f, rules, blocks[..n]).value, blocks[n], |blocks|);
    }
  }

  /** On top of any such chain, the check of any further sane block never overflows a u64, accepted or not. */
  lemma {:induction false} NextBlockNeverOverflows(outs: Outputs, f: Foreign, rules: Rules, blocks: seq<Block>,
                                                   block: Block, i: nat, j: nat)
    requires ChainCommits(outs, blocks) && Commits(outs, block.txs) && ChainState(f, rules, blocks).Some?
    requires BlockSane(f, block)
    requires 1 <= i <= |block.txs|
    requires AcceptedUpTo(rules, ChainState(f, rules, blocks).value, block.txs, |blocks| + 1, i)
    requires if i < |block.txs|
             then j <= |block.txs[i].inputs|
                  && InputsSoFar(rules, ChainState(f, rules, blocks).value, block.txs, |blocks| + 1, i, j)
             else j == 0
    ensures var state := ChainState(f, rules, blocks).value;
            && (i < |block.txs| ==> ValueIn(state, block.txs, |blocks| + 1, i, j) < U64_SIZE)
            && 0 <= Fees(state, block.txs, |blocks| + 1, i) < U64_SIZE
            && Fees(state, block.txs, |blocks| + 1, i) + BitcoinBlockSubsidy(|blocks| + 1) < U64_SIZE
  {
    SupplyIsBounded(outs, f, rules, blocks);
    SumsNeverOverflow(outs, rules, ChainState(f, rules, blocks).value, block.txs, |blocks| + 1, i, j);
  }
}
