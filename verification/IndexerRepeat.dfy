/** A block indexed a second time below the tip: how long the spend marks it drops can still be restored. */
module IndexerRepeat {
  import opened Bitcoin
  import opened IndexerTables
  import opened IndexerBatch
  import opened IndexerChain
  import opened IndexerCursor
  import opened IndexerResume
  import opened IndexerLive
  import opened IndexerNotify

  // ----- Until the next import -----

  /** The import of an old block moves the cursor back to it. The next start then finds sound tables, and makes up for
      every mark that was dropped. */
  lemma {:induction false} RepeatIsDurable(chain: seq<Block>, base: nat, n: nat, cell: Option<string>)
    requires ValidChain(chain) && base <= 1 && base <= n < |chain| && Cursor(cell) == Some(Active(n))
    ensures Durable(Batch(Complete(chain, base, |chain|), Numbered(chain, n, n + 1)), cell, chain, base, |chain|, |chain| - 1)
  {
    hide Batch, Complete, Numbered, TablesState, ValidChain, Cursor;
    var t := Complete(chain, base, |chain|);
    CompleteIsState(chain, base, |chain|);
    RestartState(t, chain, base, |chain|, n, |chain|);
    BatchKeepsState(t, chain, base, n, n + 1, |chain|);
    assert Max(|chain|, n + 1) == |chain|;
  }

  // ----- After the next import -----

  lemma {:induction false} NoMark(t: Tables, e: Entry, op: OutPoint)
    requires op in t.outputs && t.outputs[op].spent.None? && op !in e.tx.inputs
    ensures op in IndexTx(t, e).outputs && IndexTx(t, e).outputs[op].spent.None?
  {
    OutputAfter(t, e, op);
  }

  /** A row without a mark gets none from transactions that do not name it. */
  lemma {:induction false} NoMarks(t: Tables, es: seq<Entry>, op: OutPoint)
    requires op in t.outputs && t.outputs[op].spent.None? && forall i :: 0 <= i < |es| ==> op !in es[i].tx.inputs
    ensures op in IndexEntries(t, es).outputs && IndexEntries(t, es).outputs[op].spent.None?
  {
    hide IndexTx;
    if es != [] {
      var n := |es| - 1;
      NoMarks(t, es[..n], op);
      NoMark(IndexEntries(t, es[..n]), es[n], op);
    }
  }

  lemma {:induction false} SlicesOfPrefix(es: seq<Entry>, p: nat, m: nat)
    requires p <= m <= |es|
    ensures es[..p] + es[p..m] == es[..m] && es[..p][..p] == es[..p]
  {
  }

  /** An output of the stretch whose mark is gone and that was spent before `p`. */
  lemma {:induction false} LostStaysLost(es: seq<Entry>, p: nat, m: nat, q: nat, k: nat, i: nat, op: OutPoint)
    requires ValidEntries(es) && q <= i < k <= p <= m <= |es| && Makes(es[i], op) && UnspentBefore(es[..p], k, op)
    requires op in Canon(es[..p], p).outputs && Canon(es[..p], p).outputs[op].spent.Some?
    ensures IndexEntries(IndexEntries(Canon(es[..p], p), es[..p][q..k]), es[p..m]) != Canon(es, m)
  {
    hide IndexEntries, ValidEntries, Makes;
    var old', t := es[..p], Canon(es[..p], p);
    SlicesOfPrefix(es, p, m);
    ValidPrefix(es, p);
    CanonSettled(old', p);
    MarkIsLost(t, old', q, k, i, op);
    SpentOnce(es, p, op);
    NoMarks(IndexEntries(t, old'[q..k]), es[p..m], op);
    MarkKept(es, p, m, i, op);
  }

  lemma {:induction false} SpentOnce(es: seq<Entry>, p: nat, op: OutPoint)
    requires ValidEntries(es) && p <= |es| && MarksExplained(Canon(es[..p], p), es[..p], p)
    requires op in Canon(es[..p], p).outputs && Canon(es[..p], p).outputs[op].spent.Some?
    ensures forall j :: p <= j < |es| ==> op !in es[j].tx.inputs
  {
    hide Canon;
    var x :| 0 <= x < p && op in es[..p][x].tx.inputs;
    assert es[..p][x] == es[x] && !IsNull(op);
  }

  lemma {:induction false} MarkKept(es: seq<Entry>, p: nat, m: nat, i: nat, op: OutPoint)
    requires ValidEntries(es) && i < p <= m <= |es| && Makes(es[i], op)
    requires op in Canon(es[..p], p).outputs && Canon(es[..p], p).outputs[op].spent.Some?
    ensures op in Canon(es, m).outputs && Canon(es, m).outputs[op].spent.Some?
  {
    SlicesOfPrefix(es, p, m);
    IndexEntriesAppend(EMPTY, es[..p], es[p..m]);
    hide IndexEntries;
    forall j | p <= j < m ensures !Makes(es[j], op) { assert es[i].tx.txid != es[j].tx.txid; }
    MarkStays(Canon(es[..p], p), es, p, m, op);
  }

  /** Once a later stretch has been indexed on top, the tables are again those of the chain exactly when no mark had
      been dropped; otherwise they differ for good. */
  lemma {:induction false} LostForGood(es: seq<Entry>, p: nat, m: nat, q: nat, k: nat)
    requires ValidEntries(es) && q <= k <= p <= m <= |es|
    ensures IndexEntries(IndexEntries(Canon(es[..p], p), es[..p][q..k]), es[p..m]) == Canon(es, m)
            <==> SpentInside(Canon(es[..p], p), es[..p], q, k)
  {
    hide IndexEntries, ValidEntries, Makes, UnspentBefore;
    var old', t := es[..p], Canon(es[..p], p);
    ValidPrefix(es, p);
    RepeatedStretch(old', q, k);
    SlicesOfPrefix(es, p, m);
    IndexEntriesAppend(EMPTY, es[..p], es[p..m]);
    if !SpentInside(t, old', q, k) {
      var i, op :| q <= i < k && Makes(old'[i], op) && op in t.outputs && t.outputs[op].spent.Some?
          && UnspentBefore(old', k, op);
      assert old'[i] == es[i];
      LostStaysLost(es, p, m, q, k, i, op);
    }
  }

  // ----- The same of blocks -----

  function Bare(t: Tables): Tables {
    t.(blocks := map[])
  }

  lemma {:induction false} BareIndexing(t: Tables, bs: seq<(nat, Block)>)
    ensures Bare(IndexBlocks(t, bs)) == IndexEntries(Bare(t), Flatten(bs))
  {
    hide IndexEntries, Flatten, InsertBlocks;
    BlocksIndependent(t, map[], Flatten(bs));
  }

  /** Every output row belongs to one of the first `m` transactions. */
  ghost predicate RowsBelow(t: Tables, es: seq<Entry>, m: nat)
    requires m <= |es|
  {
    forall op :: op in t.outputs ==> exists j :: 0 <= j < m && op.txid == es[j].tx.txid
  }

  lemma {:induction false} RowsStayBelow(t: Tables, es: seq<Entry>, m: nat, a: nat, b: nat)
    requires a <= b <= m <= |es| && RowsBelow(t, es, m)
    ensures RowsBelow(IndexEntries(t, es[a..b]), es, m)
  {
    hide IndexEntries;
    forall op | op in IndexEntries(t, es[a..b]).outputs ensures exists j :: 0 <= j < m && op.txid == es[j].tx.txid {
      IndexedTxids(t, es[a..b], op);
      if op !in t.outputs {
        var j :| 0 <= j < |es[a..b]| && op.txid == es[a..b][j].tx.txid;
        assert es[a..b][j] == es[a + j];
      }
    }
  }

  lemma {:induction false} RowsReach(t: Tables, es: seq<Entry>, m: nat, m': nat)
    requires m <= m' <= |es| && RowsBelow(t, es, m)
    ensures RowsBelow(t, es, m')
  {
    forall op | op in t.outputs ensures exists j :: 0 <= j < m' && op.txid == es[j].tx.txid {
      var j :| 0 <= j < m && op.txid == es[j].tx.txid;
    }
  }

  lemma {:induction false} NextIsFresh(t: Tables, es: seq<Entry>, m: nat, m': nat)
    requires ValidEntries(es) && m <= m' <= |es| && RowsBelow(t, es, m)
    ensures FreshEntries(t, es[m..m'])
  {
    forall j, op | 0 <= j < |es[m..m']| && op in t.outputs ensures op.txid != es[m..m'][j].tx.txid {
      var i :| 0 <= i < m && op.txid == es[i].tx.txid;
      assert es[m..m'][j] == es[m + j];
    }
  }

  /** The tables know only transactions of blocks below `k`. */
  ghost predicate KnowsBelow(t: Tables, chain: seq<Block>, base: nat, k: nat) {
    && base <= k <= |chain| && Offset(chain, base, k) <= |ChainEntries(chain, base)|
    && RowsBelow(t, ChainEntries(chain, base), Offset(chain, base, k))
  }

  lemma {:induction false} NoBlocksAt(t: Tables, chain: seq<Block>, start: nat)
    requires start <= |chain|
    ensures IndexBlocks(t, Numbered(chain, start, start)) == t
  {
    assert Numbered(chain, start, start) == [];
  }

  lemma {:induction false} BlocksKeepRows(t: Tables, bs: seq<(nat, Block)>, es: seq<Entry>, m: nat)
    requires m <= |es| && RowsBelow(IndexEntries(t, Flatten(bs)), es, m)
    ensures RowsBelow(IndexBlocks(t, bs), es, m)
  {
    hide IndexEntries, Flatten, InsertBlocks;
  }

  lemma {:induction false} FreshBlock(t: Tables, chain: seq<Block>, base: nat, k: nat)
    requires ValidChain(chain) && base <= 1 && k < |chain| && KnowsBelow(t, chain, base, k)
    ensures Batch(t, Numbered(chain, k, k + 1)) == IndexBlocks(t, Numbered(chain, k, k + 1))
    ensures KnowsBelow(IndexBlocks(t, Numbered(chain, k, k + 1)), chain, base, k + 1)
  {
    hide Batch, IndexEntries, InsertBlocks, RowsBelow, ValidEntries, FreshEntries, Numbered, ValidChain, IndexBlocks,
         Flatten;
    ChainIsValid(chain, base);
    var es, p, m := ChainEntries(chain, base), Offset(chain, base, k), Offset(chain, base, k + 1);
    BlockIsStretch(chain, base, k);
    NextIsFresh(t, es, p, m);
    FreshIsCompatible(t, Numbered(chain, k, k + 1));
    RowsReach(t, es, p, m);
    RowsStayBelow(t, es, m, p, m);
    BlocksKeepRows(t, Numbered(chain, k, k + 1), es, m);
  }

  lemma {:induction false} OneMoreBlock(t: Tables, chain: seq<Block>, start: nat, k: nat)
    requires start <= k < |chain|
    ensures IndexBlocks(t, Numbered(chain, start, k + 1))
            == IndexBlocks(IndexBlocks(t, Numbered(chain, start, k)), Numbered(chain, k, k + 1))
  {
    assert Numbered(chain, start, k + 1) == Numbered(chain, start, k) + Numbered(chain, k, k + 1);
    hide IndexBlocks;
    IndexBlocksAppend(t, Numbered(chain, start, k), Numbered(chain, k, k + 1));
  }

  /** Later blocks on top of tables that know only earlier transactions. */
  lemma {:induction false} EnactFresh(t: Tables, chain: seq<Block>, base: nat, start: nat, heights: seq<nat>)
    requires ValidChain(chain) && base <= 1 && Consecutive(heights, start) && start + |heights| <= |chain|
    requires KnowsBelow(t, chain, base, start)
    ensures Enacted(t, chain, heights) == IndexBlocks(t, Numbered(chain, start, start + |heights|))
    ensures KnowsBelow(Enacted(t, chain, heights), chain, base, start + |heights|)
  {
    hide Batch, KnowsBelow, Numbered, IndexBlocks, ValidChain;
    if heights == [] {
      NoBlocksAt(t, chain, start);
    } else {
      var n := |heights| - 1;
      EnactFresh(t, chain, base, start, heights[..n]);
      FreshBlock(Enacted(t, chain, heights[..n]), chain, base, start + n);
      OneMoreBlock(t, chain, start, start + n);
    }
  }

  lemma {:induction false} CompleteKnows(chain: seq<Block>, base: nat, k: nat)
    requires base <= k <= |chain|
    ensures KnowsBelow(Complete(chain, base, k), chain, base, k)
  {
    hide IndexEntries, Flatten, InsertBlocks;
    var es, p := ChainEntries(chain, base), Offset(chain, base, k);
    RangeIsSlice(chain, base, k, k);
    assert es[0..p] == es[..p];
    RowsStayBelow(EMPTY, es, p, 0, p);
    BlocksKeepRows(EMPTY, Numbered(chain, base, k), es, p);
  }

  lemma {:induction false} RepeatKnows(t: Tables, chain: seq<Block>, base: nat, n: nat, k: nat)
    requires base <= n < k <= |chain| && KnowsBelow(t, chain, base, k)
    ensures KnowsBelow(IndexBlocks(t, Numbered(chain, n, n + 1)), chain, base, k)
  {
    hide IndexEntries, Flatten, InsertBlocks, RowsBelow, Numbered;
    var es, p := ChainEntries(chain, base), Offset(chain, base, k);
    BlockIsStretch(chain, base, n);
    RangeIsSlice(chain, base, n + 1, k);
    RowsStayBelow(t, es, p, Offset(chain, base, n), Offset(chain, base, n + 1));
    BlocksKeepRows(t, Numbered(chain, n, n + 1), es, p);
  }

  /** The block table after a repeat below `k` and the blocks from `k` on. */
  lemma {:induction false} RepeatedBlocks(chain: seq<Block>, base: nat, n: nat, k: nat, end: nat)
    requires ValidChain(chain) && base <= n < k <= end <= |chain|
    ensures IndexBlocks(IndexBlocks(Complete(chain, base, k), Numbered(chain, n, n + 1)), Numbered(chain, k, end)).blocks
         == Complete(chain, base, end).blocks
  {
    hide IndexEntries, Flatten, BlockTable, ValidChain;
    CompleteBlocks(chain, base, k);
    CompleteBlocks(chain, base, end);
    ReinsertBlocks(chain, base, n, n + 1, k);
    assert Max(k, n + 1) == k;
    ReinsertBlocks(chain, base, k, end, k);
    assert Max(k, end) == end;
  }

  lemma {:induction false} SameTables(a: Tables, b: Tables)
    requires a.blocks == b.blocks
    ensures a == b <==> Bare(a) == Bare(b)
  {
  }

  /** Without blocks: the tables after the repeat and the later blocks. */
  lemma {:induction false} BareRepeat(chain: seq<Block>, base: nat, n: nat, k: nat, end: nat, es: seq<Entry>)
    requires base <= n < k <= end <= |chain| && es == ChainEntries(chain, base)
    ensures var q, q' := Offset(chain, base, n), Offset(chain, base, n + 1);
            var p, m := Offset(chain, base, k), Offset(chain, base, end);
            && q <= q' <= p <= m <= |es|
            && Bare(IndexBlocks(IndexBlocks(Complete(chain, base, k), Numbered(chain, n, n + 1)), Numbered(chain, k, end)))
               == IndexEntries(IndexEntries(Canon(es[..p], p), es[..p][q..q']), es[p..m])
            && Bare(Complete(chain, base, end)) == Canon(es, m)
  {
    hide IndexBlocks, IndexEntries, Flatten, Numbered, Bare;
    RangeIsSlice(chain, base, n, n + 1);
    RangeIsSlice(chain, base, n + 1, k);
    RangeIsSlice(chain, base, k, end);
    var q, q', p, m := Offset(chain, base, n), Offset(chain, base, n + 1), Offset(chain, base, k), Offset(chain, base,
                              end);
    var once := IndexBlocks(Complete(chain, base, k), Numbered(chain, n, n + 1));
    assert es[..p][..p] == es[..p] && es[..p][q..q'] == es[q..q'];
    assert Bare(EMPTY) == EMPTY by { BareEmpty(); }
    BareIndexing(EMPTY, Numbered(chain, base, k));
    BareIndexing(Complete(chain, base, k), Numbered(chain, n, n + 1));
    BareIndexing(once, Numbered(chain, k, end));
    BareIndexing(EMPTY, Numbered(chain, base, end));
  }

  lemma {:induction false} BareEmpty()
    ensures Bare(EMPTY) == EMPTY
  {
  }

  /** A plain import of block `n` below the tip `k - 1`, then imports of the blocks from `k` on: the tables are again
      those of the chain exactly when the repeat dropped no mark. One import on top is enough to make the loss
      permanent, for the cursor then passes the blocks that would have restored it. */
  lemma {:induction false} RepeatThenImport(chain: seq<Block>, base: nat, n: nat, k: nat, heights: seq<nat>,
                                            es: seq<Entry>)
    requires ValidChain(chain) && base <= 1 && base <= n < k <= |chain| && es == ChainEntries(chain, base)
    requires Consecutive(heights, k) && k + |heights| <= |chain|
    ensures Offset(chain, base, n) <= Offset(chain, base, n + 1) <= Offset(chain, base, k) <= |es|
    ensures Enacted(Batch(Complete(chain, base, k), Numbered(chain, n, n + 1)), chain, heights)
            == Complete(chain, base, k + |heights|)
            <==> var old' := es[..Offset(chain, base, k)];
                 SpentInside(Canon(old', |old'|), old', Offset(chain, base, n), Offset(chain, base, n + 1))
  {
    hide *;
    var end, t := k + |heights|, Complete(chain, base, k);
    CompleteIsState(chain, base, k);
    RestartState(t, chain, base, k, n, k);
    BatchOnState(t, chain, base, n, n + 1, k);
    CompleteKnows(chain, base, k);
    RepeatKnows(t, chain, base, n, k);
    EnactFresh(IndexBlocks(t, Numbered(chain, n, n + 1)), chain, base, k, heights);
    RepeatedBlocks(chain, base, n, k, end);
    BareRepeat(chain, base, n, k, end, es);
    SameTables(IndexBlocks(IndexBlocks(t, Numbered(chain, n, n + 1)), Numbered(chain, k, end)),
               Complete(chain, base, end));
    ChainIsValid(chain, base);
    LostForGood(es, Offset(chain, base, k), Offset(chain, base, end), Offset(chain, base, n),
                Offset(chain, base, n + 1));
  }
}
