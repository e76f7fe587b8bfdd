/** `revert_to_height` and the sense in which it undoes indexing. */
module IndexerRevert {
  import opened Bitcoin
  import opened IndexerTables
  import opened IndexerBatch

  function Unspend(row: OutputRow, height: nat): OutputRow {
    if row.spent.Some? && row.spent.value.height > height then row.(spent := None) else row
  }

  function KeepOutputs(outputs: OutputTable, height: nat): OutputTable {
    map op | op in outputs && outputs[op].height <= height :: Unspend(outputs[op], height)
  }

  function KeepTxs(txs: map<Txid, TxRow>, height: nat): map<Txid, TxRow> {
    map txid | txid in txs && txs[txid].height <= height :: txs[txid]
  }

  function KeepHistory(history: History, height: nat): History {
    map k | k in history && k.height <= height :: history[k]
  }

  function KeepBlocks(blocks: map<nat, BlockRow>, height: nat): map<nat, BlockRow> {
    map h | h in blocks && h <= height :: blocks[h]
  }

  /** The tables after reverting everything above `height`. */
  function Revert(t: Tables, height: nat): Tables {
    Tables(KeepBlocks(t.blocks, height), KeepTxs(t.txs, height), KeepOutputs(t.outputs, height), KeepHistory(t.history, height))
  }

  /** A row at or below `height` with a spend mark at or below `height`. */
  predicate MarkedBy(t: Tables, op: OutPoint, height: nat) {
    && op in t.outputs && t.outputs[op].height <= height
    && t.outputs[op].spent.Some? && t.outputs[op].spent.value.height <= height
  }

  /** Indexing `e` overwrites nothing that belongs at or below `height`: neither its transaction row, nor an output
      row, nor the spend mark of an output. */
  ghost predicate Reversible(t: Tables, e: Entry, height: nat) {
    && (e.tx.txid in t.txs ==> t.txs[e.tx.txid].height > height)
    && (forall op :: Makes(e, op) && op in t.outputs ==> t.outputs[op].height > height)
    && (forall op :: op in e.tx.inputs && op in Addressed(t.outputs) ==> !MarkedBy(t, op, height))
  }

  lemma {:induction false} RevertOutputsOfTx(t: Tables, e: Entry, height: nat)
    requires e.height > height && Reversible(t, e, height)
    ensures KeepOutputs(IndexTx(t, e).outputs, height) == KeepOutputs(t.outputs, height)
  {
    var x, y := KeepOutputs(IndexTx(t, e).outputs, height), KeepOutputs(t.outputs, height);
    forall op ensures (op in x <==> op in y) && (op in x ==> x[op] == y[op]) {
      RevertOutputOfTx(t, e, height, op);
    }
  }

  lemma {:induction false} RevertOutputOfTx(t: Tables, e: Entry, height: nat, op: OutPoint)
    requires e.height > height && Reversible(t, e, height)
    ensures var x, y := KeepOutputs(IndexTx(t, e).outputs, height), KeepOutputs(t.outputs, height);
            (op in x <==> op in y) && (op in x ==> x[op] == y[op])
  {
  }

  lemma {:induction false} RevertHistoryOfTx(t: Tables, e: Entry, height: nat)
    requires e.height > height
    ensures KeepHistory(IndexTx(t, e).history, height) == KeepHistory(t.history, height)
  {
    var known := Addressed(t.outputs);
    HistoryHeights(known, e);
  }

  lemma {:induction false} DebitHeights(known: Known, e: Entry, n: nat)
    requires n <= |e.tx.inputs|
    ensures forall k :: k in Debit(map[], known, e, n) ==> k.height == e.height
  {
    if n > 0 { DebitHeights(known, e, n - 1); }
  }

  lemma {:induction false} CreditHeights(h: History, e: Entry, n: nat)
    requires n <= |e.tx.outputs| && forall k :: k in h ==> k.height == e.height
    ensures forall k :: k in Credit(h, e, n) ==> k.height == e.height
  {
    if n > 0 { CreditHeights(h, e, n - 1); }
  }

  lemma {:induction false} HistoryHeights(known: Known, e: Entry)
    ensures forall k :: k in TxHistory(map[], known, e) ==> k.height == e.height
  {
    DebitHeights(known, e, |e.tx.inputs|);
    CreditHeights(Debit(map[], known, e, |e.tx.inputs|), e, |e.tx.outputs|);
  }

  /** Reverting cancels the indexing of a transaction above the height exactly when the indexing was reversible. */
  lemma {:induction false} RevertCancelsTx(t: Tables, e: Entry, height: nat)
    requires e.height > height
    ensures Revert(IndexTx(t, e), height) == Revert(t, height) <==> Reversible(t, e, height)
  {
    if Reversible(t, e, height) {
      RevertOutputsOfTx(t, e, height);
      RevertHistoryOfTx(t, e, height);
      assert KeepTxs(IndexTx(t, e).txs, height) == KeepTxs(t.txs, height);
    } else {
      NotReversible(t, e, height);
    }
  }

  lemma {:induction false} NotReversible(t: Tables, e: Entry, height: nat)
    requires e.height > height && !Reversible(t, e, height)
    ensures Revert(IndexTx(t, e), height) != Revert(t, height)
  {
    if e.tx.txid in t.txs && t.txs[e.tx.txid].height <= height {
      assert e.tx.txid in Revert(t, height).txs && e.tx.txid !in Revert(IndexTx(t, e), height).txs;
    } else if op :| Makes(e, op) && op in t.outputs && t.outputs[op].height <= height {
      LostRow(t, e, height, op);
    } else {
      var op :| op in e.tx.inputs && op in Addressed(t.outputs) && MarkedBy(t, op, height);
      LostMark(t, e, height, op);
    }
  }

  lemma {:induction false} LostRow(t: Tables, e: Entry, height: nat, op: OutPoint)
    requires e.height > height && Makes(e, op) && op in t.outputs && t.outputs[op].height <= height
    ensures op in KeepOutputs(t.outputs, height) && op !in KeepOutputs(IndexTx(t, e).outputs, height)
  {
  }

  lemma {:induction false} LostMark(t: Tables, e: Entry, height: nat, op: OutPoint)
    requires e.height > height && op in e.tx.inputs && op in Addressed(t.outputs) && MarkedBy(t, op, height)
    ensures op in KeepOutputs(t.outputs, height) && KeepOutputs(t.outputs, height)[op].spent.Some?
    ensures var x := KeepOutputs(IndexTx(t, e).outputs, height);
            op in x ==> x[op].spent.None?
  {
  }

  // ----- Many transactions -----

  ghost predicate AllAbove(es: seq<Entry>, height: nat) {
    forall j :: 0 <= j < |es| ==> es[j].height > height
  }

  /** New transactions: fresh txids, and no input names an output that the tables already show as spent. */
  ghost predicate ValidExtension(t: Tables, es: seq<Entry>) {
    && FreshEntries(t, es)
    && (forall j :: 0 <= j < |es| ==> es[j].tx.txid !in t.txs)
    && forall j, op :: 0 <= j < |es| && op in es[j].tx.inputs && op in Addressed(t.outputs) ==>
      t.outputs[op].spent.None?
  }

  lemma {:induction false} IndexedTxRows(t: Tables, es: seq<Entry>, txid: Txid)
    ensures txid in IndexEntries(t, es).txs ==> txid in t.txs || exists j :: 0 <= j < |es| && txid == es[j].tx.txid
  {
    if es != [] {
      var n := |es| - 1;
      IndexedTxRows(t, es[..n], txid);
      if txid in IndexEntries(t, es).txs && txid !in t.txs {
        if txid == es[n].tx.txid {
        } else {
          var j :| 0 <= j < n && txid == es[..n][j].tx.txid;
          assert es[j] == es[..n][j];
        }
      }
    }
  }

  /** A row at or below the height is an old one, and its mark is old or made above the height. */
  lemma {:induction false} OldRows(t: Tables, es: seq<Entry>, height: nat, op: OutPoint)
    requires AllAbove(es, height) && op in IndexEntries(t, es).outputs
    requires IndexEntries(t, es).outputs[op].height <= height
    ensures var row := IndexEntries(t, es).outputs[op];
            && op in t.outputs && row.address == t.outputs[op].address
            && (row.spent == t.outputs[op].spent || (row.spent.Some? && row.spent.value.height > height))
  {
    if es != [] {
      var n := |es| - 1;
      var before := IndexEntries(t, es[..n]);
      OutputAfter(before, es[n], op);
      OldRows(t, es[..n], height, op);
    }
  }

  lemma {:induction false} ExtensionIsReversible(t: Tables, es: seq<Entry>, height: nat)
    requires es != [] && AllAbove(es, height) && ValidExtension(t, es)
    ensures Reversible(IndexEntries(t, es[..|es| - 1]), es[|es| - 1], height)
  {
    var n := |es| - 1;
    var front, e := es[..n], es[n];
    var before := IndexEntries(t, front);
    assert forall j :: 0 <= j < n ==> front[j] == es[j];
    IndexedTxRows(t, front, e.tx.txid);
    forall op | Makes(e, op) ensures op !in before.outputs {
      IndexedTxids(t, front, op);
    }
    forall op | op in e.tx.inputs && op in Addressed(before.outputs) ensures !MarkedBy(before, op, height) {
      if before.outputs[op].height <= height { OldRows(t, front, height, op); }
    }
  }

  lemma {:induction false} RevertCancelsEntries(t: Tables, es: seq<Entry>, height: nat)
    requires AllAbove(es, height) && ValidExtension(t, es)
    ensures Revert(IndexEntries(t, es), height) == Revert(t, height)
  {
    if es != [] {
      var front := es[..|es| - 1];
      assert forall j :: 0 <= j < |front| ==> front[j] == es[j];
      RevertCancelsEntries(t, front, height);
      ExtensionIsReversible(t, es, height);
      RevertCancelsTx(IndexEntries(t, front), es[|es| - 1], height);
    }
  }

  // ----- Whole blocks -----

  ghost predicate NewBlocks(blocks: map<nat, BlockRow>, bs: seq<(nat, Block)>, height: nat) {
    forall j :: 0 <= j < |bs| ==> bs[j].0 > height && forall h :: h in blocks && h <= height ==>
      blocks[h].hash != bs[j].1.hash
  }

  lemma {:induction false} RevertCancelsBlocks(blocks: map<nat, BlockRow>, bs: seq<(nat, Block)>, height: nat)
    requires NewBlocks(blocks, bs, height)
    ensures KeepBlocks(InsertBlocks(blocks, bs), height) == KeepBlocks(blocks, height)
  {
    if bs != [] {
      var n := |bs| - 1;
      RevertCancelsBlocks(blocks, bs[..n], height);
      var before, last := InsertBlocks(blocks, bs[..n]), bs[n];
      forall h | h in before && h <= height ensures before[h].hash != RowOf(last.1).hash {
        assert h in KeepBlocks(before, height);
      }
    }
  }

  /** Nothing in the tables, marks included, belongs above `height`. */
  ghost predicate HeightsAtMost(t: Tables, height: nat) {
    && (forall h :: h in t.blocks ==> h <= height)
    && (forall txid :: txid in t.txs ==> t.txs[txid].height <= height)
    && (forall op :: op in t.outputs ==>
          t.outputs[op].height <= height && (t.outputs[op].spent.Some? ==> t.outputs[op].spent.value.height <= height))
    && (forall k :: k in t.history ==> k.height <= height)
  }

  lemma {:induction false} RevertKeeps(t: Tables, height: nat)
    requires HeightsAtMost(t, height)
    ensures Revert(t, height) == t
  {
  }

  ghost predicate ValidAbove(t: Tables, bs: seq<(nat, Block)>, height: nat) {
    NewBlocks(t.blocks, bs, height) && AllAbove(Flatten(bs), height) && ValidExtension(t, Flatten(bs))
  }

  /** From tables that stop at `height`, indexing a batch of valid blocks above it and reverting restores the
      tables exactly. */
  lemma {:induction false} RevertUndoesIndexing(t: Tables, bs: seq<(nat, Block)>, height: nat)
    requires HeightsAtMost(t, height) && ValidAbove(t, bs, height)
    ensures Revert(IndexBlocks(t, bs), height) == t
    ensures Batch(t, bs) == IndexBlocks(t, bs)
  {
    FreshIsCompatible(t, bs);
    RevertCancelsEntries(t, Flatten(bs), height);
    RevertCancelsBlocks(t.blocks, bs, height);
    RevertKeeps(t, height);
  }

  /** Hence a reorganisation (index one branch, revert, index the other) leaves what indexing the other branch
      alone would have left. */
  lemma {:induction false} ReorgForgetsBranch(t: Tables, retracted: seq<(nat, Block)>, enacted: seq<(nat, Block)>,
                                              height: nat)
    requires HeightsAtMost(t, height) && ValidAbove(t, retracted, height)
    ensures Batch(Revert(Batch(t, retracted), height), enacted) == Batch(t, enacted)
  {
    RevertUndoesIndexing(t, retracted, height);
  }
}
