/** What the indexer's theorems ask of a chain, derived from the chain having been verified and applied. */
module IndexerVerified {
  import opened Bitcoin
  import opened Pallet
  import opened IndexerTables
  import opened IndexerBatch
  import opened IndexerChain
  import opened IndexerResume
  import opened IndexerBalance
  import Conservation
  import Sanity
  import Verification

  // ----- The UTXO set, entry by entry -----

  function ApplyEntries(coins: Coins, es: seq<Entry>): Option<Coins> {
    if es == [] then Some(coins) else
      var n := |es| - 1;
      match ApplyEntries(coins, es[..n])
      case None => None
      case Some(before) => ApplyTx(before, es[n].tx, es[n].height)
  }

  lemma {:induction false} ApplyEntriesAppend(coins: Coins, a: seq<Entry>, b: seq<Entry>)
    ensures ApplyEntries(coins, a + b) == match ApplyEntries(coins, a)
                                          case None => None
                                          case Some(mid) => ApplyEntries(mid, b)
  {
    hide ApplyTx;
    if b == [] {
      assert a + b == a;
    } else {
      var n := |b| - 1;
      ApplyEntriesAppend(coins, a, b[..n]);
      assert (a + b)[..|a + b| - 1] == a + b[..n];
    }
  }

  lemma {:induction false} ApplyBlockPrefix(coins: Coins, height: nat, block: Block, n: nat)
    requires n <= |block.txs|
    ensures ApplyEntries(coins, EntriesOf(height, block)[..n]) == ApplyTxs(coins, block.txs[..n], height)
  {
    hide ApplyTx;
    if n > 0 {
      hide ApplyTxs;
      var es := EntriesOf(height, block);
      ApplyBlockPrefix(coins, height, block, n - 1);
      assert es[..n][..n - 1] == es[..n - 1];
      assert block.txs[..n] == block.txs[..n - 1] + [block.txs[n - 1]];
      ApplyTxsPush(coins, block.txs[..n - 1], block.txs[n - 1], height);
    }
  }

  lemma {:induction false} ApplyBlock(coins: Coins, height: nat, block: Block)
    ensures ApplyEntries(coins, EntriesOf(height, block)) == ApplyTxs(coins, block.txs, height)
  {
    hide ApplyEntries, ApplyTxs;
    ApplyBlockPrefix(coins, height, block, |block.txs|);
    assert EntriesOf(height, block)[..|block.txs|] == EntriesOf(height, block);
    assert block.txs[..|block.txs|] == block.txs;
  }

  /** Block 0 is the genesis block, which pays but spends nothing. The others were verified and applied in turn. */
  ghost predicate Verified(f: Sanity.Foreign, rules: Verification.Rules, chain: seq<Block>) {
    && 1 <= |chain| && DistinctTxids(chain[0].txs) && (forall tx :: tx in chain[0].txs ==> IsCoinbase(tx))
    && Conservation.ChainState(f, rules, chain[1..]).Some?
  }

  /** The UTXO set after a verified chain is what its transactions leave one after the other. */
  lemma {:induction false} VerifiedApplies(f: Sanity.Foreign, rules: Verification.Rules, chain: seq<Block>, n: nat)
    requires 1 <= n <= |chain| && Conservation.ChainState(f, rules, chain[1..n]).Some?
    ensures ApplyEntries(map[], Flatten(Numbered(chain, 1, n))) == Conservation.ChainState(f, rules, chain[1..n])
    decreases n
  {
    hide Sanity.BlockSane, Verification.Accepted, ApplyTxs;
    if n > 1 {
      var k := n - 1;
      assert chain[1..n][..|chain[1..n]| - 1] == chain[1..k];
      VerifiedApplies(f, rules, chain, k);
      assert Numbered(chain, 1, n) == Numbered(chain, 1, k) + [(k, chain[k])];
      FlattenPush(Numbered(chain, 1, k), (k, chain[k]));
      hide ApplyEntries, Flatten;
      ApplyEntriesAppend(map[], Flatten(Numbered(chain, 1, k)), EntriesOf(k, chain[k]));
      ApplyBlock(Conservation.ChainState(f, rules, chain[1..k]).value, k, chain[k]);
    }
  }

  // ----- Inputs are unspent rows -----

  /** Every coin has its row, and the row is unspent. */
  ghost predicate CoinsUnspent(coins: Coins, outputs: OutputTable) {
    forall op :: op in coins ==> op in outputs && outputs[op].spent.None?
  }

  lemma {:induction false} InputsUnspent(t: Tables, coins: Coins, e: Entry)
    requires CoinsUnspent(coins, t.outputs) && Spendable(coins, e.tx)
    ensures SpendsUnspent(t.outputs, e)
  {
  }

  lemma {:induction false} CoinStaysUnspent(t: Tables, coins: Coins, e: Entry, op: OutPoint)
    requires CoinsUnspent(coins, t.outputs) && ApplyTx(coins, e.tx, e.height).Some?
    requires op in ApplyTx(coins, e.tx, e.height).value
    ensures op in IndexTx(t, e).outputs && IndexTx(t, e).outputs[op].spent.None?
  {
    hide IndexTx, Addressed;
    OutputAfter(t, e, op);
    if !Makes(e, op) {
      assert op in coins && op !in Spent(e.tx);
      UnnamedIsUnmarked(t, e, op);
    }
  }

  lemma {:induction false} UnnamedIsUnmarked(t: Tables, e: Entry, op: OutPoint)
    requires op !in Spent(e.tx)
    ensures op !in SpendsOf(Addressed(t.outputs), e)
  {
  }

  lemma {:induction false} CoinsStayUnspent(t: Tables, coins: Coins, e: Entry)
    requires CoinsUnspent(coins, t.outputs) && ApplyTx(coins, e.tx, e.height).Some?
    ensures CoinsUnspent(ApplyTx(coins, e.tx, e.height).value, IndexTx(t, e).outputs)
  {
    hide IndexTx, ApplyTx;
    var after := ApplyTx(coins, e.tx, e.height).value;
    forall op | op in after ensures op in IndexTx(t, e).outputs && IndexTx(t, e).outputs[op].spent.None? {
      CoinStaysUnspent(t, coins, e, op);
    }
  }

  lemma {:induction false} AppliedSpendsUnspent(t: Tables, coins: Coins, es: seq<Entry>)
    requires CoinsUnspent(coins, t.outputs) && ApplyEntries(coins, es).Some?
    ensures RunSpendsUnspent(t, es) && CoinsUnspent(ApplyEntries(coins, es).value, IndexEntries(t, es).outputs)
  {
    hide CoinsUnspent, IndexTx, SpendsUnspent;
    if es != [] {
      var n := |es| - 1;
      AppliedSpendsUnspent(t, coins, es[..n]);
      var before := ApplyEntries(coins, es[..n]).value;
      InputsUnspent(IndexEntries(t, es[..n]), before, es[n]);
      CoinsStayUnspent(IndexEntries(t, es[..n]), before, es[n]);
      RunPush(t, es);
    }
  }

  lemma {:induction false} RunPush(t: Tables, es: seq<Entry>)
    requires es != [] && RunSpendsUnspent(t, es[..|es| - 1])
    requires SpendsUnspent(IndexEntries(t, es[..|es| - 1]).outputs, es[|es| - 1])
    ensures RunSpendsUnspent(t, es)
  {
    hide SpendsUnspent, IndexEntries;
    var n := |es| - 1;
    forall i | 0 <= i < n ensures SpendsUnspent(IndexEntries(t, es[..i]).outputs, es[i]) {
      assert es[..n][..i] == es[..i] && es[..n][i] == es[i];
    }
  }

  lemma {:induction false} RunAppend(t: Tables, a: seq<Entry>, b: seq<Entry>)
    requires RunSpendsUnspent(t, a) && RunSpendsUnspent(IndexEntries(t, a), b)
    ensures RunSpendsUnspent(t, a + b)
  {
    hide SpendsUnspent, IndexEntries;
    var es := a + b;
    forall i | 0 <= i < |es| ensures SpendsUnspent(IndexEntries(t, es[..i]).outputs, es[i]) {
      if i < |a| {
        assert es[..i] == a[..i];
      } else {
        assert es[..i] == a + b[..i - |a|];
        IndexEntriesAppend(t, a, b[..i - |a|]);
      }
    }
  }

  lemma {:induction false} CoinbasesSpendNothing(t: Tables, es: seq<Entry>)
    requires forall i :: 0 <= i < |es| ==> IsCoinbase(es[i].tx)
    ensures RunSpendsUnspent(t, es)
  {
    hide IndexEntries;
  }

  lemma {:induction false} GenesisFirst(chain: seq<Block>, n: nat)
    requires 1 <= n <= |chain|
    ensures Flatten(Numbered(chain, 0, n)) == EntriesOf(0, chain[0]) + Flatten(Numbered(chain, 1, n))
  {
    assert Numbered(chain, 0, n) == Numbered(chain, 0, 1) + Numbered(chain, 1, n);
    FlattenAppend(Numbered(chain, 0, 1), Numbered(chain, 1, n));
    assert Numbered(chain, 0, 1) == [] + [(0, chain[0])] && Flatten([]) == [];
    FlattenPush([], (0, chain[0]));
  }

  lemma {:induction false} VerifiedSpendsUnspent(f: Sanity.Foreign, rules: Verification.Rules, chain: seq<Block>,
                                                 base: nat, n: nat)
    requires Verified(f, rules, chain) && base <= 1 <= n <= |chain|
    ensures RunSpendsUnspent(EMPTY, Flatten(Numbered(chain, base, n)))
  {
    hide RunSpendsUnspent, IndexEntries, ApplyEntries, Flatten, Numbered, Conservation.ChainState;
    assert chain[1..][..n - 1] == chain[1..n];
    Conservation.ChainPrefix(f, rules, chain[1..], n - 1);
    VerifiedApplies(f, rules, chain, n);
    var genesis, es := EntriesOf(0, chain[0]), Flatten(Numbered(chain, 1, n));
    if base == 0 {
      GenesisFirst(chain, n);
      CoinbasesSpendNothing(EMPTY, genesis);
      AppliedSpendsUnspent(IndexEntries(EMPTY, genesis), map[], es);
      RunAppend(EMPTY, genesis, es);
    } else {
      AppliedSpendsUnspent(EMPTY, map[], es);
    }
  }

  // ----- No txid twice in a block -----

  lemma {:induction false} OncePush(es: seq<Entry>, height: nat, block: Block)
    requires OncePerHeight(es) && DistinctTxids(block.txs) && forall i :: 0 <= i < |es| ==> es[i].height < height
    ensures OncePerHeight(es + EntriesOf(height, block))
    ensures forall i :: 0 <= i < |es + EntriesOf(height, block)| ==>
              (es + EntriesOf(height, block))[i].height < height + 1
  {
  }

  lemma {:induction false} DistinctBlocksOnce(chain: seq<Block>, base: nat, n: nat)
    requires base <= n <= |chain| && forall h :: base <= h < n ==> DistinctTxids(chain[h].txs)
    ensures OncePerHeight(Flatten(Numbered(chain, base, n)))
    ensures forall i :: 0 <= i < |Flatten(Numbered(chain, base, n))| ==> Flatten(Numbered(chain, base, n))[i].height < n
    decreases n
  {
    hide OncePerHeight, DistinctTxids;
    if base == n {
      assert OncePerHeight([]) by { NoneTwice(); }
    } else {
      var k := n - 1;
      DistinctBlocksOnce(chain, base, k);
      assert Numbered(chain, base, n) == Numbered(chain, base, k) + [(k, chain[k])];
      FlattenPush(Numbered(chain, base, k), (k, chain[k]));
      OncePush(Flatten(Numbered(chain, base, k)), k, chain[k]);
    }
  }

  lemma {:induction false} NoneTwice()
    ensures OncePerHeight([])
  {
  }

  lemma {:induction false} VerifiedOnce(f: Sanity.Foreign, rules: Verification.Rules, chain: seq<Block>, base: nat,
                                        n: nat)
    requires Verified(f, rules, chain) && base <= 1 <= n <= |chain|
    ensures OncePerHeight(Flatten(Numbered(chain, base, n)))
  {
    hide OncePerHeight, Flatten, Numbered, DistinctTxids, Conservation.ChainState;
    Conservation.ChainPrefix(f, rules, chain[1..], |chain| - 1);
    forall h | base <= h < n ensures DistinctTxids(chain[h].txs) {
      if h > 0 { assert Sanity.BlockSane(f, chain[1..][h - 1]); }
    }
    DistinctBlocksOnce(chain, base, n);
  }

  // ----- Balances of verified chains -----

  /** On every verified chain, repeated txids included, the history deltas of an address sum to its unspent outputs plus
      what replaced rows were worth to it; the two agree exactly when no replaced row was worth anything. */
  lemma {:induction false} VerifiedBalances(f: Sanity.Foreign, rules: Verification.Rules, chain: seq<Block>, base: nat,
                                            n: nat, a: string)
    requires Verified(f, rules, chain) && base <= 1 <= n <= |chain|
    ensures var t, es := Complete(chain, base, n), Flatten(Numbered(chain, base, n));
            && HistoryTotal(t.history, a) == Confirmed(t.outputs, a) + TotalLost(EMPTY, es, a)
            && (Balanced(t, a) <==> RunReplacesNothing(EMPTY, es, a))
  {
    hide Confirmed, HistoryTotal, IndexEntries, Flatten, InsertBlocks, Numbered, RunSpendsUnspent, RunReplacesNothing,
         TotalLost, OncePerHeight;
    var es := Flatten(Numbered(chain, base, n));
    VerifiedSpendsUnspent(f, rules, chain, base, n);
    VerifiedOnce(f, rules, chain, base, n);
    EmptyIsNew(es);
    EmptyBalance(a);
    RunMovesBalance(EMPTY, es, a);
    BalancedIff(EMPTY, es, a);
  }

  lemma {:induction false} EmptyIsNew(es: seq<Entry>)
    requires OncePerHeight(es)
    ensures RunIsNew(EMPTY, es)
  {
  }

  /** The same of committed batches, however the blocks are divided among them, as long as no batch spends an output
      before making it again. */
  lemma {:induction false} VerifiedBatches(f: Sanity.Foreign, rules: Verification.Rules, chain: seq<Block>, base: nat,
                                           n: nat,
                                           bss: seq<seq<(nat, Block)>>, a: string)
    requires Verified(f, rules, chain) && base <= 1 <= n <= |chain|
    requires AllBlocks(bss) == Numbered(chain, base, n) && BatchesCompatible(EMPTY, bss)
    ensures var t, es := Batches(EMPTY, bss), Flatten(Numbered(chain, base, n));
            && HistoryTotal(t.history, a) == Confirmed(t.outputs, a) + TotalLost(EMPTY, es, a)
            && (Balanced(t, a) <==> RunReplacesNothing(EMPTY, es, a))
  {
    hide *;
    VerifiedSpendsUnspent(f, rules, chain, base, n);
    VerifiedOnce(f, rules, chain, base, n);
    BatchedBalances(bss, a);
  }

  // ----- When a verified chain is valid for the indexer -----

  /** Inputs name earlier outputs, none twice, and the coins are made and unspent. */
  ghost predicate Ordered(es: seq<Entry>, coins: Coins) {
    && (forall i, op :: 0 <= i < |es| && op in es[i].tx.inputs ==> IsNull(op) || MadeBefore(es, i, op))
    && (forall i, j, op :: 0 <= i < j < |es| && op in es[i].tx.inputs && op in es[j].tx.inputs ==> IsNull(op))
    && forall op :: op in coins ==> MadeBefore(es, |es|, op) && forall i :: 0 <= i < |es| ==> op !in es[i].tx.inputs
  }

  ghost predicate NonZero(es: seq<Entry>) {
    forall i :: 0 <= i < |es| ==> es[i].tx.txid != 0
  }

  lemma {:induction false} MadeStays(es: seq<Entry>, e: Entry, i: nat, op: OutPoint)
    requires i <= |es|
    ensures MadeBefore(es + [e], i, op) <==> MadeBefore(es, i, op)
  {
    if k :| 0 <= k < i && Makes(es[k], op) { assert Makes((es + [e])[k], op); }
    if k :| 0 <= k < i && Makes((es + [e])[k], op) { assert Makes(es[k], op); }
  }

  /** With distinct txids, what an earlier transaction made is not made again. */
  lemma {:induction false} MadeOnce(es: seq<Entry>, e: Entry, op: OutPoint)
    requires DistinctEntries(es + [e]) && NonZero(es + [e]) && (IsNull(op) || MadeBefore(es, |es|, op))
    ensures !Makes(e, op)
  {
    var es' := es + [e];
    assert es'[|es|] == e;
    if !IsNull(op) {
      var k :| 0 <= k < |es| && Makes(es[k], op);
      assert es'[k].tx.txid != es'[|es|].tx.txid;
    }
  }

  lemma {:induction false} MadeLater(es: seq<Entry>, i: nat, j: nat, op: OutPoint)
    requires i <= j <= |es| && MadeBefore(es, i, op)
    ensures MadeBefore(es, j, op)
  {
    var k :| 0 <= k < i && Makes(es[k], op);
    assert 0 <= k < j && Makes(es[k], op);
  }

  lemma {:induction false} InputsOrdered(es: seq<Entry>, coins: Coins, e: Entry, op: OutPoint)
    requires Ordered(es, coins) && Spendable(coins, e.tx) && op in e.tx.inputs && !IsNull(op)
    ensures MadeBefore(es, |es|, op) && forall i :: 0 <= i < |es| ==> op !in es[i].tx.inputs
  {
    assert op in Elements(e.tx.inputs);
  }

  lemma {:induction false} OrderedStep(es: seq<Entry>, coins: Coins, e: Entry)
    requires Ordered(es, coins) && DistinctEntries(es + [e]) && NonZero(es + [e])
    requires ApplyTx(coins, e.tx, e.height).Some?
    ensures Ordered(es + [e], ApplyTx(coins, e.tx, e.height).value)
  {
    var es', n, after := es + [e], |es|, ApplyTx(coins, e.tx, e.height).value;
    forall i, op | 0 <= i < |es'| && op in es'[i].tx.inputs ensures IsNull(op) || MadeBefore(es', i, op) {
      MadeStays(es, e, i, op);
      if i == n && !IsNull(op) { InputsOrdered(es, coins, e, op); }
    }
    forall i, j, op | 0 <= i < j < |es'| && op in es'[i].tx.inputs && op in es'[j].tx.inputs ensures IsNull(op) {
      if j == n && !IsNull(op) { InputsOrdered(es, coins, e, op); }
    }
    forall op | op in after
      ensures MadeBefore(es', |es'|, op) && forall i :: 0 <= i < |es'| ==> op !in es'[i].tx.inputs
    {
      CoinOrdered(es, coins, e, op);
    }
  }

  lemma {:induction false} NewCoin(es: seq<Entry>, coins: Coins, e: Entry, op: OutPoint)
    requires Ordered(es, coins) && DistinctEntries(es + [e]) && NonZero(es + [e]) && Spendable(coins, e.tx)
    requires Makes(e, op)
    ensures MadeBefore(es + [e], |es| + 1, op) && forall i :: 0 <= i <= |es| ==> op !in (es + [e])[i].tx.inputs
  {
    var es', n := es + [e], |es|;
    assert Makes(es'[n], op);
    forall i, x | 0 <= i <= n && x in es'[i].tx.inputs ensures !Makes(e, x) {
      if i < n {
        if !IsNull(x) { MadeLater(es, i, n, x); }
      } else {
        if !IsNull(x) { InputsOrdered(es, coins, e, x); }
      }
      MadeOnce(es, e, x);
    }
  }

  lemma {:induction false} OldCoin(es: seq<Entry>, coins: Coins, e: Entry, op: OutPoint)
    requires Ordered(es, coins) && NonZero(es) && op in coins && op !in Spent(e.tx)
    ensures MadeBefore(es + [e], |es| + 1, op) && forall i :: 0 <= i <= |es| ==> op !in (es + [e])[i].tx.inputs
  {
    MadeStays(es, e, |es|, op);
    MadeLater(es + [e], |es|, |es| + 1, op);
    var k :| 0 <= k < |es| && Makes(es[k], op);
    assert es[k].tx.txid != 0;
  }

  lemma {:induction false} CoinOrdered(es: seq<Entry>, coins: Coins, e: Entry, op: OutPoint)
    requires Ordered(es, coins) && DistinctEntries(es + [e]) && NonZero(es + [e])
    requires ApplyTx(coins, e.tx, e.height).Some?
    requires op in ApplyTx(coins, e.tx, e.height).value
    ensures MadeBefore(es + [e], |es| + 1, op) && forall i :: 0 <= i <= |es| ==> op !in (es + [e])[i].tx.inputs
  {
    hide Ordered, DistinctEntries, MadeBefore;
    if Makes(e, op) {
      NewCoin(es, coins, e, op);
    } else {
      assert forall i :: 0 <= i < |es| ==> es[i] == (es + [e])[i];
      OldCoin(es, coins, e, op);
    }
  }

  lemma {:induction false} AppliedIsOrdered(genesis: seq<Entry>, es: seq<Entry>)
    requires ApplyEntries(map[], es).Some? && DistinctEntries(genesis + es) && NonZero(genesis + es)
    requires forall i :: 0 <= i < |genesis| ==> IsCoinbase(genesis[i].tx)
    ensures Ordered(genesis + es, ApplyEntries(map[], es).value)
  {
    if es == [] {
      assert genesis + es == genesis;
    } else {
      hide Ordered, ApplyTx;
      var n := |es| - 1;
      var front := genesis + es[..n];
      assert genesis + es == front + [es[n]];
      assert forall i :: 0 <= i < |front| ==> front[i] == (genesis + es)[i];
      AppliedIsOrdered(genesis, es[..n]);
      OrderedStep(front, ApplyEntries(map[], es[..n]).value, es[n]);
    }
  }

  lemma {:induction false} OrderedIsValid(es: seq<Entry>, coins: Coins)
    requires Ordered(es, coins) && DistinctEntries(es) && NonZero(es)
    ensures ValidEntries(es)
  {
    forall i, j, op | 0 <= i <= j < |es| && op in es[i].tx.inputs ensures !Makes(es[j], op) {
      if !IsNull(op) {
        assert MadeBefore(es, i, op);
        var k :| 0 <= k < i && Makes(es[k], op);
        assert es[k].tx.txid != es[j].tx.txid;
      }
    }
  }

  lemma {:induction false} SuffixIsClean(genesis: seq<Entry>, es: seq<Entry>)
    requires DistinctEntries(genesis + es) && NonZero(genesis + es)
    ensures DistinctEntries(es) && NonZero(es)
  {
    assert forall i :: 0 <= i < |es| ==> es[i] == (genesis + es)[|genesis| + i];
  }

  lemma {:induction false} VerifiedEntries(f: Sanity.Foreign, rules: Verification.Rules, chain: seq<Block>, base: nat)
    requires Verified(f, rules, chain) && base <= 1
    requires DistinctEntries(ChainEntries(chain, 0)) && NonZero(ChainEntries(chain, 0))
    ensures ValidEntries(ChainEntries(chain, base))
  {
    hide ValidEntries, ApplyEntries, Flatten, Numbered, Conservation.ChainState, DistinctEntries, NonZero, Ordered,
         DistinctTxids;
    assert chain[1..|chain|] == chain[1..];
    VerifiedApplies(f, rules, chain, |chain|);
    var genesis, es := EntriesOf(0, chain[0]), Flatten(Numbered(chain, 1, |chain|));
    GenesisFirst(chain, |chain|);
    if base == 0 {
      AppliedIsOrdered(genesis, es);
      OrderedIsValid(genesis + es, ApplyEntries(map[], es).value);
    } else {
      SuffixIsClean(genesis, es);
      assert [] + es == es;
      AppliedIsOrdered([], es);
      OrderedIsValid(es, ApplyEntries(map[], es).value);
    }
  }

  /** A verified and applied chain whose txids are distinct and not zero is valid for the indexer. */
  lemma {:induction false} VerifiedIsValid(f: Sanity.Foreign, rules: Verification.Rules, chain: seq<Block>)
    requires Verified(f, rules, chain) && |chain| < U32_SIZE
    requires forall i, j :: 0 <= i < j < |chain| ==> chain[i].hash != chain[j].hash
    requires DistinctEntries(ChainEntries(chain, 0)) && NonZero(ChainEntries(chain, 0))
    ensures ValidChain(chain)
  {
    hide ValidEntries, ChainEntries, Verified;
    forall base: nat | base <= 1 && base <= |chain| ensures ValidEntries(ChainEntries(chain, base)) {
      VerifiedEntries(f, rules, chain, base);
    }
  }

  // ----- The tables that a run of starts ends in -----

  lemma {:induction false} CompleteBalances(f: Sanity.Foreign, rules: Verification.Rules, chain: seq<Block>, base: nat,
                                            n: nat, a: string)
    requires ValidChain(chain) && Verified(f, rules, chain) && base <= 1 <= n <= |chain|
    ensures Balanced(Complete(chain, base, n), a)
  {
    hide ValidEntries, Confirmed, HistoryTotal, IndexEntries, Flatten, InsertBlocks, Numbered, Verified;
    var es := Flatten(Numbered(chain, base, n));
    RangeIsSlice(chain, base, n, n);
    ValidPrefix(ChainEntries(chain, base), Offset(chain, base, n));
    VerifiedSpendsUnspent(f, rules, chain, base, n);
    ValidRun(es, a);
    VerifiedBalances(f, rules, chain, base, n, a);
  }

  /** Whenever a run of starts completes, every address balances three ways. */
  lemma {:induction false} RestartsBalance(indexer: Indexer, f: Sanity.Foreign, rules: Verification.Rules,
                                           chain: seq<Block>,
                                           bests: seq<nat>, a: string)
    requires ValidChain(chain) && Verified(f, rules, chain) && indexer.FinishedAtSeen(chain, bests, |bests|)
    ensures var db := indexer.db;
            && HistoryTotal(db.addressHistory, a) == Confirmed(db.outputs, a)
            && Confirmed(db.outputs, a) == TotalReceived(db.outputs, a) - TotalSent(db.outputs, a)
  {
    hide ValidChain, Verified, Complete, Confirmed, HistoryTotal, TotalReceived, TotalSent;
    var base := indexer.base;
    var j :| 0 <= j < |bests| && base <= 1 && base <= bests[j] + 1 <= |chain|
          && indexer.db.Contents() == Complete(chain, base, bests[j] + 1);
    CompleteBalances(f, rules, chain, base, bests[j] + 1, a);
    ReceivedIsSentPlusConfirmed(indexer.db.outputs, a);
  }

  // ----- An instance -----

  function Reward(height: nat, script: Script): Entry {
    Entry(height, 0, Transaction(5, 5, [OutPoint(0, 0xFFFF_FFFF)], [TxOut(50, script)], 2, 100, 400))
  }

  lemma {:induction false} RewardMarksNothing(t: Tables, height: nat, script: Script)
    ensures Mark(t.outputs, SpendsOf(Addressed(t.outputs), Reward(height, script))) == t.outputs
  {
  }

  lemma {:induction false} RewardRows(t: Tables, height: nat, script: Script)
    ensures IndexTx(t, Reward(height, script)).outputs == t.outputs[OutPoint(5, 0) := NewRow(Reward(height, script), 0)]
  {
    var e := Reward(height, script);
    RewardMarksNothing(t, height, script);
    assert AllNewRows(e) == map[OutPoint(5, 0) := NewRow(e, 0)];
  }

  lemma {:induction false} RewardLost(t: Tables, height: nat, script: Script, a: string)
    ensures Lost(t, Reward(height, script), a) == Replaced(t.outputs, OutPoint(5, 0), a)
  {
    hide Replaced, Mark, SpendsOf;
    RewardMarksNothing(t, height, script);
    assert LostUpTo(t.outputs, Reward(height, script), 0, a) == 0;
  }

  lemma {:induction false} RowWorth(row: OutputRow, op: OutPoint, a: string)
    ensures Confirmed(map[op := row], a) == PaysUnspent(row, a)
  {
    hide PaysUnspent;
    EmptyBalance(a);
    assert Confirmed(map[], a) == 0;
    ConfirmedPut(map[], a, op, row);
    hide Confirmed;
    assert (map[])[op := row] == map[op := row];
  }

  lemma {:induction false} TwoRewards(script: Script, a: string, es: seq<Entry>)
    requires script.address == Some(a) && es == [Reward(1, script), Reward(2, script)]
    ensures Confirmed(IndexEntries(EMPTY, es).outputs, a) == 50 && TotalLost(EMPTY, es, a) == 50
  {
    var op, one := OutPoint(5, 0), IndexTx(EMPTY, es[0]);
    assert es[..1] == [es[0]] && es[..1][..0] == [] && IndexEntries(EMPTY, es[..1]) == one;
    assert TotalLost(EMPTY, es[..1][..0], a) == 0;
    hide IndexTx, Confirmed, Lost;
    RewardRows(EMPTY, 1, script);
    RewardLost(EMPTY, 1, script, a);
    RewardRows(one, 2, script);
    RewardLost(one, 2, script, a);
    assert one.outputs[op := NewRow(es[1], 0)] == map[op := NewRow(es[1], 0)];
    RowWorth(NewRow(es[1], 0), op, a);
  }

  /** For instance: one coinbase that pays an address 50 at heights 1 and 2. The history says 100, the outputs 50. */
  lemma {:induction false} RepeatedRewardUnbalances(script: Script, a: string, es: seq<Entry>)
    requires script.address == Some(a) && es == [Reward(1, script), Reward(2, script)]
    ensures HistoryTotal(IndexEntries(EMPTY, es).history, a) == 100
    ensures Confirmed(IndexEntries(EMPTY, es).outputs, a) == 50
  {
    hide IndexEntries, Confirmed, HistoryTotal, TotalLost, RunSpendsUnspent;
    TwoRewards(script, a, es);
    CoinbasesSpendNothing(EMPTY, es);
    EmptyIsNew(es);
    EmptyBalance(a);
    RunMovesBalance(EMPTY, es, a);
  }

  const SPENDER: Entry := Entry(2, 0, Transaction(8, 8, [OutPoint(5, 0)], [], 0, 100, 400))

  lemma {:induction false} SpenderMarks(b: Buffers)
    requires OutPoint(5, 0) in b.rows && b.rows[OutPoint(5, 0)].address.Some?
    ensures OutPoint(5, 0) in Collect(map[], b, SPENDER).spends
  {
    assert SPENDER.tx.inputs[0] == OutPoint(5, 0);
  }

  /** Why a batch must not spend an output before making it again: it marks the new row as spent, which one transaction at a
      time would not. */
  lemma {:induction false} BatchMarksRemade(script: Script, a: string, es: seq<Entry>)
    requires script.address == Some(a) && es == [Reward(1, script), SPENDER, Reward(3, script)]
    ensures var op := OutPoint(5, 0);
            && op in BatchEntries(EMPTY, es).outputs && BatchEntries(EMPTY, es).outputs[op].spent.Some?
            && op in IndexEntries(EMPTY, es).outputs && IndexEntries(EMPTY, es).outputs[op].spent.None?
  {
    var op := OutPoint(5, 0);
    assert es[..2][..1] == es[..1] && es[..1][..0] == [];
    var one := CollectAll(map[], es[..1]);
    assert CollectAll(map[], es[..1][..0]) == NOTHING && es[..1][0] == es[0];
    assert one == Collect(map[], CollectAll(map[], es[..1][..0]), es[0]);
    assert op in AllNewRows(es[0]) && op in AllNewRows(es[2]);
    SpenderMarks(one);
    assert CollectAll(map[], es[..2]) == Collect(map[], one, SPENDER);
    OutputAfter(IndexEntries(EMPTY, es[..2]), es[2], op);
    hide IndexTx, TxHistory, SpendsOf;
    assert CollectAll(map[], es) == Collect(map[], CollectAll(map[], es[..2]), es[2]);
  }
}
