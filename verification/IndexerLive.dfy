/** The tables of a chain when it is cut back to a fork, and when one of its blocks is indexed twice. */
module IndexerLive {
  import opened Bitcoin
  import opened IndexerTables
  import opened IndexerBatch
  import opened IndexerRevert
  import opened IndexerChain
  import opened IndexerResume

  // ----- Heights -----

  lemma {:induction false} TxKeepsHeights(t: Tables, e: Entry, height: nat)
    requires HeightsAtMost(t, height) && e.height <= height
    ensures HeightsAtMost(IndexTx(t, e), height)
  {
    var after := IndexTx(t, e);
    HistoryHeights(Addressed(t.outputs), e);
    hide TxHistory, IndexTx;
    forall op | op in after.outputs
      ensures after.outputs[op].height <= height
      ensures (after.outputs[op].spent.Some? ==> after.outputs[op].spent.value.height <= height)
    {
      OutputAfter(t, e, op);
    }
    TxAndHistoryRows(t, e);
  }

  lemma {:induction false} TxAndHistoryRows(t: Tables, e: Entry)
    ensures IndexTx(t, e).blocks == t.blocks && IndexTx(t, e).txs == t.txs[e.tx.txid := TxRow(e.height, e.index)]
    ensures IndexTx(t, e).history == t.history + TxHistory(map[], Addressed(t.outputs), e)
  {
  }

  ghost predicate NoneAbove(es: seq<Entry>, height: nat) {
    forall i :: 0 <= i < |es| ==> es[i].height <= height
  }

  lemma {:induction false} EntriesKeepHeights(t: Tables, es: seq<Entry>, height: nat)
    requires HeightsAtMost(t, height) && NoneAbove(es, height)
    ensures HeightsAtMost(IndexEntries(t, es), height)
  {
    if es != [] {
      hide HeightsAtMost, IndexTx;
      var n := |es| - 1;
      EntriesKeepHeights(t, es[..n], height);
      TxKeepsHeights(IndexEntries(t, es[..n]), es[n], height);
    }
  }

  /** The entries are transactions of blocks `from` to `end - 1`. */
  ghost predicate EntriesWithin(es: seq<Entry>, chain: seq<Block>, from: nat, end: nat) {
    forall i :: 0 <= i < |es| ==>
      && from <= es[i].height < end <= |chain| && es[i].index < |chain[es[i].height].txs|
      && es[i].tx == chain[es[i].height].txs[es[i].index]
  }

  lemma {:induction false} FlattenedEntries(chain: seq<Block>, from: nat, end: nat)
    requires from <= end <= |chain|
    ensures EntriesWithin(Flatten(Numbered(chain, from, end)), chain, from, end)
    decreases end
  {
    if from < end {
      var n := end - 1;
      FlattenedEntries(chain, from, n);
      assert Numbered(chain, from, end) == Numbered(chain, from, n) + [(n, chain[n])];
      FlattenPush(Numbered(chain, from, n), (n, chain[n]));
    }
  }

  lemma {:induction false} CompleteBlocks(chain: seq<Block>, base: nat, n: nat)
    requires ValidChain(chain) && base <= n <= |chain|
    ensures Complete(chain, base, n).blocks == BlockTable(chain, base, n)
  {
    ReinsertBlocks(chain, base, base, n, base);
    assert BlockTable(chain, base, base) == map[];
    assert Max(base, n) == n;
  }

  lemma {:induction false} NoHeights(height: nat)
    ensures HeightsAtMost(EMPTY, height)
  {
  }

  lemma {:induction false} BlocksWithin(t: Tables, blocks: map<nat, BlockRow>, height: nat)
    requires HeightsAtMost(t, height) && forall h :: h in blocks ==> h <= height
    ensures HeightsAtMost(t.(blocks := blocks), height)
  {
  }

  lemma {:induction false} CompleteHeights(chain: seq<Block>, base: nat, n: nat)
    requires ValidChain(chain) && base <= n <= |chain| && 1 <= n
    ensures HeightsAtMost(Complete(chain, base, n), n - 1)
  {
    hide IndexEntries, ValidChain, Flatten, Numbered, InsertBlocks, HeightsAtMost;
    var es, t := Flatten(Numbered(chain, base, n)), Complete(chain, base, n);
    FlattenedEntries(chain, base, n);
    NoHeights(n - 1);
    EntriesKeepHeights(EMPTY, es, n - 1);
    CompleteBlocks(chain, base, n);
    BlocksWithin(IndexEntries(EMPTY, es), t.blocks, n - 1);
  }

  // ----- Reverting to a fork -----

  lemma {:induction false} SuffixIsFresh(es: seq<Entry>, p: nat)
    requires ValidEntries(es) && p <= |es|
    ensures ValidExtension(Canon(es, p), es[p..])
  {
    var t, more := Canon(es, p), es[p..];
    assert forall j :: 0 <= j < |more| ==> more[j] == es[p + j];
    forall j, op | 0 <= j < |more| && op in t.outputs ensures op.txid != more[j].tx.txid {
      IndexedTxids(EMPTY, es[..p], op);
    }
    forall j | 0 <= j < |more| ensures more[j].tx.txid !in t.txs {
      IndexedTxRows(EMPTY, es[..p], more[j].tx.txid);
    }
    CanonSettled(es, p);
    forall j, op | 0 <= j < |more| && op in more[j].tx.inputs && op in Addressed(t.outputs)
      ensures t.outputs[op].spent.None?
    {
      assert op in es[p + j].tx.inputs;
    }
  }

  lemma {:induction false} SuffixBlocks(chain: seq<Block>, base: nat, fork: nat)
    requires ValidChain(chain) && fork < |chain|
    ensures NewBlocks(BlockTable(chain, base, fork + 1), Numbered(chain, fork + 1, |chain|), fork)
  {
  }

  lemma {:induction false} ExtensionIgnoresBlocks(t: Tables, blocks: map<nat, BlockRow>, es: seq<Entry>)
    requires ValidExtension(t, es)
    ensures ValidExtension(t.(blocks := blocks), es)
  {
  }

  /** The tables of the first `n` blocks are the canonical ones of their transactions. */
  lemma {:induction false} CompleteIsCanon(chain: seq<Block>, base: nat, n: nat)
    requires base <= n <= |chain|
    ensures Offset(chain, base, n) <= |ChainEntries(chain, base)|
    ensures var t := Complete(chain, base, n);
            t == Canon(ChainEntries(chain, base), Offset(chain, base, n)).(blocks := t.blocks)
    ensures Flatten(Numbered(chain, n, |chain|)) == ChainEntries(chain, base)[Offset(chain, base, n)..]
  {
    hide IndexEntries, InsertBlocks;
    RangeIsSlice(chain, base, n, n);
    RangeIsSlice(chain, base, n, |chain|);
  }

  lemma {:induction false} ChainIsValid(chain: seq<Block>, base: nat)
    requires ValidChain(chain) && base <= 1 && base <= |chain|
    ensures ValidEntries(ChainEntries(chain, base))
  {
  }

  lemma {:induction false} SuffixExtends(chain: seq<Block>, base: nat, fork: nat)
    requires ValidChain(chain) && base <= 1 && fork < |chain|
    ensures ValidExtension(Complete(chain, base, fork + 1), Flatten(Numbered(chain, fork + 1, |chain|)))
  {
    hide *;
    var es, p, t := ChainEntries(chain, base), Offset(chain, base, fork + 1), Complete(chain, base, fork + 1);
    CompleteIsCanon(chain, base, fork + 1);
    ChainIsValid(chain, base);
    SuffixIsFresh(es, p);
    ExtensionIgnoresBlocks(Canon(es, p), t.blocks, es[p..]);
  }

  lemma {:induction false} SuffixIsAbove(chain: seq<Block>, fork: nat)
    requires fork < |chain|
    ensures AllAbove(Flatten(Numbered(chain, fork + 1, |chain|)), fork)
  {
    hide Flatten, Numbered;
    FlattenedEntries(chain, fork + 1, |chain|);
  }

  lemma {:induction false} SuffixIsValid(chain: seq<Block>, base: nat, fork: nat)
    requires ValidChain(chain) && base <= 1 && fork < |chain|
    ensures ValidAbove(Complete(chain, base, fork + 1), Numbered(chain, fork + 1, |chain|), fork)
  {
    hide ValidExtension, AllAbove, NewBlocks, Complete, Flatten, Numbered, ValidChain;
    SuffixExtends(chain, base, fork);
    SuffixIsAbove(chain, fork);
    SuffixBlocks(chain, base, fork);
    CompleteBlocks(chain, base, fork + 1);
  }

  lemma {:induction false} CompleteSplits(chain: seq<Block>, base: nat, k: nat, n: nat)
    requires base <= k <= n <= |chain|
    ensures Complete(chain, base, n) == IndexBlocks(Complete(chain, base, k), Numbered(chain, k, n))
  {
    assert Numbered(chain, base, n) == Numbered(chain, base, k) + Numbered(chain, k, n);
    IndexBlocksAppend(EMPTY, Numbered(chain, base, k), Numbered(chain, k, n));
  }

  /** Reverting the tables of a chain to a fork leaves the tables of its part up to the fork. */
  lemma {:induction false} RevertToFork(chain: seq<Block>, base: nat, fork: nat)
    requires ValidChain(chain) && base <= 1 && fork < |chain|
    ensures Revert(Complete(chain, base, |chain|), fork) == Complete(chain, base, fork + 1)
  {
    hide *;
    CompleteSplits(chain, base, fork + 1, |chain|);
    CompleteHeights(chain, base, fork + 1);
    SuffixIsValid(chain, base, fork);
    RevertUndoesIndexing(Complete(chain, base, fork + 1), Numbered(chain, fork + 1, |chain|), fork);
  }

  lemma {:induction false} CompleteIsState(chain: seq<Block>, base: nat, n: nat)
    requires ValidChain(chain) && base <= n <= |chain|
    ensures TablesState(Complete(chain, base, n), chain, base, n, n)
  {
    var es, p, t := ChainEntries(chain, base), Offset(chain, base, n), Complete(chain, base, n);
    RangeIsSlice(chain, base, n, n);
    CompleteBlocks(chain, base, n);
    assert t == Canon(es, p).(blocks := t.blocks);
    hide Canon;
    assert Agrees(t, Canon(es, p), es, p);
  }

  lemma {:induction false} SamePrefix(a: seq<Block>, b: seq<Block>, base: nat, n: nat)
    requires base <= n <= |a| && n <= |b| && a[..n] == b[..n]
    ensures Complete(a, base, n) == Complete(b, base, n)
  {
    forall h | base <= h < n ensures a[h] == b[h] { assert a[..n][h] == b[..n][h]; }
    assert Numbered(a, base, n) == Numbered(b, base, n);
  }

  // ----- A notification without a route, below the tip -----
  //
  // The handler indexes the canonical block at the notified height, whether or not that block is new.

  ghost predicate MadeWithin(es: seq<Entry>, q: nat, k: nat, op: OutPoint)
    requires q <= k <= |es|
  {
    exists i :: q <= i < k && Makes(es[i], op)
  }

  lemma {:induction false} MarkSurvives(t: Tables, e: Entry, op: OutPoint)
    requires op in t.outputs && t.outputs[op].spent.Some? && !Makes(e, op)
    ensures op in IndexTx(t, e).outputs && IndexTx(t, e).outputs[op].spent.Some?
  {
  }

  /** A row that the stretch does not make keeps its mark. */
  lemma {:induction false} MarkStays(t: Tables, es: seq<Entry>, q: nat, k: nat, op: OutPoint)
    requires q <= k <= |es| && op in t.outputs && t.outputs[op].spent.Some? && !MadeWithin(es, q, k, op)
    ensures op in IndexEntries(t, es[q..k]).outputs && IndexEntries(t, es[q..k]).outputs[op].spent.Some?
    decreases k
  {
    hide IndexTx, IndexEntries, Makes;
    if q == k {
      IndexNothing(t, es, q);
    } else {
      assert !MadeWithin(es, q, k - 1, op) && !Makes(es[k - 1], op);
      MarkStays(t, es, q, k - 1, op);
      IndexSlices(t, es, q, k - 1);
      MarkSurvives(IndexEntries(t, es[q..k - 1]), es[k - 1], op);
    }
  }

  /** A row that the stretch makes and does not spend ends without a mark. */
  lemma {:induction false} MarkIsLost(t: Tables, es: seq<Entry>, q: nat, k: nat, i: nat, op: OutPoint)
    requires q <= i < k <= |es| && Makes(es[i], op) && UnspentBefore(es, k, op)
    ensures op in IndexEntries(t, es[q..k]).outputs && IndexEntries(t, es[q..k]).outputs[op].spent.None?
    decreases k
  {
    hide IndexTx, IndexEntries;
    IndexSlices(t, es, q, k - 1);
    OutputAfter(IndexEntries(t, es[q..k - 1]), es[k - 1], op);
    if i < k - 1 {
      MarkIsLost(t, es, q, k - 1, i, op);
    }
  }

  /** Every output of the stretch that is marked as spent is spent by the end of the stretch. */
  ghost predicate SpentInside(t: Tables, es: seq<Entry>, q: nat, k: nat)
    requires q <= k <= |es|
  {
    forall i, op :: q <= i < k && Makes(es[i], op) && op in t.outputs && t.outputs[op].spent.Some? ==>
      !UnspentBefore(es, k, op)
  }

  lemma {:induction false} CanonIsHalfDone(es: seq<Entry>, q: nat)
    requires q <= |es|
    ensures HalfDone(Canon(es, |es|), es, q, |es|)
  {
  }

  lemma {:induction false} RowAfterStretch(es: seq<Entry>, q: nat, k: nat, op: OutPoint)
    requires ValidEntries(es) && q <= k <= |es| && op in Canon(es, |es|).outputs
    requires SpentInside(Canon(es, |es|), es, q, k) && HalfDone(IndexEntries(Canon(es, |es|), es[q..k]), es, k, |es|)
    ensures op in IndexEntries(Canon(es, |es|), es[q..k]).outputs
    ensures IndexEntries(Canon(es, |es|), es[q..k]).outputs[op] == Canon(es, |es|).outputs[op]
  {
    hide Canon, IndexEntries, ValidEntries;
    var t := Canon(es, |es|);
    var after := IndexEntries(t, es[q..k]);
    assert RowOk(after.outputs[op], t.outputs[op], es, k, op);
    if t.outputs[op].spent.Some? && !MadeWithin(es, q, k, op) {
      MarkStays(t, es, q, k, op);
    }
  }

  /** Indexing a stretch of a fully indexed chain again changes nothing exactly when no output of the stretch is spent
      after it: otherwise its spend mark is gone. */
  lemma {:induction false} RepeatedStretch(es: seq<Entry>, q: nat, k: nat)
    requires ValidEntries(es) && q <= k <= |es|
    ensures IndexEntries(Canon(es, |es|), es[q..k]) == Canon(es, |es|) <==> SpentInside(Canon(es, |es|), es, q, k)
  {
    hide Canon, IndexEntries, ValidEntries, UnspentBefore, RowOk;
    var t := Canon(es, |es|);
    var after := IndexEntries(t, es[q..k]);
    CanonIsHalfDone(es, q);
    ReindexRange(t, es, q, k, |es|);
    assert Max(|es|, k) == |es|;
    if SpentInside(t, es, q, k) {
      forall op | op in t.outputs ensures op in after.outputs && after.outputs[op] == t.outputs[op] {
        RowAfterStretch(es, q, k, op);
      }
      BlocksIndependent(t, t.blocks, es[q..k]);
      assert after.outputs == t.outputs;
    } else {
      var i, op :| q <= i < k && Makes(es[i], op) && op in t.outputs && t.outputs[op].spent.Some?
          && UnspentBefore(es, k, op);
      MarkIsLost(t, es, q, k, i, op);
    }
  }

  lemma {:induction false} RepeatedBlockTables(chain: seq<Block>, base: nat, n: nat)
    requires ValidChain(chain) && base <= n < |chain|
    ensures var t := Complete(chain, base, |chain|);
            IndexBlocks(t, Numbered(chain, n, n + 1)) == IndexEntries(t, Flatten(Numbered(chain, n, n + 1)))
  {
    hide ValidChain, IndexEntries, Numbered, Flatten, BlockTable;
    CompleteBlocks(chain, base, |chain|);
    ReinsertBlocks(chain, base, n, n + 1, |chain|);
    assert Max(|chain|, n + 1) == |chain|;
    BlocksIndependent(Complete(chain, base, |chain|), map[], Flatten(Numbered(chain, n, n + 1)));
  }

  lemma {:induction false} SameApartFromBlocks(c: Tables, blocks: map<nat, BlockRow>, es: seq<Entry>)
    ensures IndexEntries(c.(blocks := blocks), es) == c.(blocks := blocks) <==> IndexEntries(c, es) == c
  {
    hide IndexEntries;
    BlocksIndependent(c, blocks, es);
  }

  lemma {:induction false} BlockIsStretch(chain: seq<Block>, base: nat, n: nat)
    requires base <= n < |chain|
    ensures Offset(chain, base, n) <= Offset(chain, base, n + 1) <= |ChainEntries(chain, base)|
            == Offset(chain, base, |chain|)
    ensures Flatten(Numbered(chain, n, n + 1))
            == ChainEntries(chain, base)[Offset(chain, base, n)..Offset(chain, base, n + 1)]
  {
    hide Flatten;
    RangeIsSlice(chain, base, n, n + 1);
    RangeIsSlice(chain, base, n + 1, |chain|);
  }

  /** At the level of blocks: a notification for height `n` of a fully indexed chain is harmless exactly when no
      later block spends an output of block `n`. */
  lemma {:induction false} RepeatedBlock(chain: seq<Block>, base: nat, n: nat, es: seq<Entry>)
    requires ValidChain(chain) && base <= 1 && base <= n < |chain| && es == ChainEntries(chain, base)
    ensures Offset(chain, base, n) <= Offset(chain, base, n + 1) <= |es|
    ensures Batch(Complete(chain, base, |chain|), Numbered(chain, n, n + 1)) == Complete(chain, base, |chain|)
            <==> SpentInside(Canon(es, |es|), es, Offset(chain, base, n), Offset(chain, base, n + 1))
  {
    hide *;
    BlockIsStretch(chain, base, n);
    CompleteIsCanon(chain, base, |chain|);
    CompleteIsState(chain, base, |chain|);
    RestartState(Complete(chain, base, |chain|), chain, base, |chain|, n, |chain|);
    BatchOnState(Complete(chain, base, |chain|), chain, base, n, n + 1, |chain|);
    RepeatedBlockTables(chain, base, n);
    SameApartFromBlocks(Canon(es, |es|), Complete(chain, base, |chain|).blocks, Flatten(Numbered(chain, n, n + 1)));
    ChainIsValid(chain, base);
    RepeatedStretch(es, Offset(chain, base, n), Offset(chain, base, n + 1));
  }

  function Payment(script: Script): Entry {
    Entry(0, 0, Transaction(7, 7, [OutPoint(0, 0xFFFF_FFFF)], [TxOut(50, script)], 2, 100, 400))
  }

  const SPENDING: Entry := Entry(1, 0, Transaction(8, 8, [OutPoint(7, 0)], [], 0, 100, 400))

  lemma {:induction false} PaymentIsSpent(t: Tables, op: OutPoint)
    requires op == OutPoint(7, 0) && op in t.outputs && t.outputs[op].address.Some?
    ensures op in IndexTx(t, SPENDING).outputs && IndexTx(t, SPENDING).outputs[op].spent == Some(Spend(8, 0, 1))
  {
    OutputAfter(t, SPENDING, op);
    hide IndexTx;
    assert SPENDING.tx.inputs[0] == op && op in Addressed(t.outputs);
    assert SpendsUpTo(Addressed(t.outputs), SPENDING, 1)[op] == Spend(8, 0, 1);
  }

  /** For instance: a coin made at height 0 and spent at height 1 loses its mark when height 0 is indexed again. */
  lemma {:induction false} RepeatLosesMark(script: Script)
    requires script.address.Some?
    ensures var t := IndexTx(IndexTx(EMPTY, Payment(script)), SPENDING);
            && OutPoint(7, 0) in t.outputs && t.outputs[OutPoint(7, 0)].spent == Some(Spend(8, 0, 1))
            && OutPoint(7, 0) in IndexTx(t, Payment(script)).outputs
            && IndexTx(t, Payment(script)).outputs[OutPoint(7, 0)].spent == None
  {
    hide IndexTx;
    var op, first := OutPoint(7, 0), Payment(script);
    OutputAfter(EMPTY, first, op);
    PaymentIsSpent(IndexTx(EMPTY, first), op);
    OutputAfter(IndexTx(IndexTx(EMPTY, first), SPENDING), first, op);
  }
}
