/** `index_blocks_batch`: many blocks in one database transaction, and why batching is invisible. */
module IndexerBatch {
  import opened Bitcoin
  import opened IndexerTables

  /** What the in-memory pass over a batch collects. A later insert of the same key replaces the earlier
      one, so each list of rows is kept as the map it amounts to. */
  datatype Buffers = Buffers(txs: map<Txid, TxRow>, rows: OutputTable, spends: map<OutPoint, Spend>, history: History)

  const NOTHING: Buffers := Buffers(map[], map[], map[], map[])

  /** Outputs prefetched from the database win over outputs created earlier in the batch. */
  function Resolve(base: OutputTable, rows: OutputTable): Known {
    Addressed(rows) + Addressed(base)
  }

  /** What an input of a batch is taken to spend: the stored row if it pays an address, even where the batch has replaced
      it, and otherwise the row that the batch made. */
  lemma {:induction false} StoredRowWins(base: OutputTable, rows: OutputTable, op: OutPoint)
    requires !IsNull(op)
    ensures op in base && base[op].address.Some? ==>
              op in Resolve(base, rows) && Resolve(base, rows)[op] == (base[op].address.value, base[op].value)
    ensures (op in base ==> base[op].address.None?) ==>
              && (op in Resolve(base, rows) <==> op in rows && rows[op].address.Some?)
              && (op in Resolve(base, rows) ==> Resolve(base, rows)[op] == (rows[op].address.value, rows[op].value))
  {
  }

  function Collect(base: OutputTable, b: Buffers, e: Entry): Buffers {
    var known := Resolve(base, b.rows);
    Buffers(
      b.txs[e.tx.txid := TxRow(e.height, e.index)],
      b.rows + AllNewRows(e),
      b.spends + SpendsOf(known, e),
      TxHistory(b.history, known, e))
  }

  function CollectAll(base: OutputTable, es: seq<Entry>): Buffers {
    if es == [] then NOTHING else Collect(base, CollectAll(base, es[..|es| - 1]), es[|es| - 1])
  }

  /** The writes: all inserts first, then all spend marks, then the aggregated history. */
  function Write(t: Tables, b: Buffers): Tables {
    Tables(t.blocks, t.txs + b.txs, Mark(t.outputs + b.rows, b.spends), t.history + b.history)
  }

  function BatchEntries(t: Tables, es: seq<Entry>): Tables {
    Write(t, CollectAll(t.outputs, es))
  }

  /** The tables after one batch. */
  function Batch(t: Tables, bs: seq<(nat, Block)>): Tables {
    BatchEntries(t, Flatten(bs)).(blocks := InsertBlocks(t.blocks, bs))
  }

  // ----- When a batch is the same as one transaction at a time -----

  ghost predicate DistinctEntries(es: seq<Entry>) {
    forall i, j :: 0 <= i < j < |es| ==> es[i].tx.txid != es[j].tx.txid
  }

  /** No txid occurs twice at one height. */
  ghost predicate OncePerHeight(es: seq<Entry>) {
    forall i, j :: 0 <= i < j < |es| ==> es[i].tx.txid != es[j].tx.txid || es[i].height != es[j].height
  }

  ghost predicate MadeBefore(es: seq<Entry>, j: nat, op: OutPoint)
    requires j <= |es|
  {
    exists i :: 0 <= i < j && Makes(es[i], op)
  }

  /** An output of the batch that is already in the database is there with the same address and value. An output that
      is there already, or was made earlier in the batch, is not spent in the batch before (or by) the transaction
      that makes it again. Fresh outputs satisfy this trivially. */
  ghost predicate Compatible(t: Tables, es: seq<Entry>) {
    && OncePerHeight(es)
    && (forall j, op :: 0 <= j < |es| && op in t.outputs && Makes(es[j], op) ==>
          t.outputs[op].address == NewRow(es[j], op.vout).address && t.outputs[op].value == NewRow(es[j], op.vout).value)
    && forall i, j, op :: 0 <= i <= j < |es| && Makes(es[j], op) && (op in t.outputs || MadeBefore(es, j, op)) ==>
         op !in es[i].tx.inputs
  }

  /** Where txids are distinct only the database matters. */
  lemma {:induction false} DistinctIsCompatible(t: Tables, es: seq<Entry>)
    requires DistinctEntries(es)
    requires forall j, op :: 0 <= j < |es| && op in t.outputs && Makes(es[j], op) ==>
               && t.outputs[op].address == NewRow(es[j], op.vout).address
               && t.outputs[op].value == NewRow(es[j], op.vout).value
               && forall i :: 0 <= i <= j ==> op !in es[i].tx.inputs
    ensures Compatible(t, es)
  {
    forall i, j, op | 0 <= i <= j < |es| && Makes(es[j], op) && (op in t.outputs || MadeBefore(es, j, op))
      ensures op !in es[i].tx.inputs
    {
      assert !MadeBefore(es, j, op);
    }
  }

  /** The history key belongs to the transaction. */
  predicate Own(k: HistoryKey, e: Entry) {
    k.txid == e.tx.txid && k.height == e.height
  }

  /** Every buffered row, spend and delta belongs to one of the entries. */
  ghost predicate FromEntries(base: OutputTable, es: seq<Entry>, b: Buffers) {
    && (forall op :: op in b.rows ==> exists j :: 0 <= j < |es| && Makes(es[j], op) && b.rows[op] == NewRow(es[j], op.vout))
    && (forall op :: op in b.spends ==> (op in base || op in b.rows) && exists j :: 0 <= j < |es| && op in es[j].tx.inputs)
    && (forall k :: k in b.history ==> exists j :: 0 <= j < |es| && Own(k, es[j]))
  }

  lemma {:induction false} DebitKeys(h: History, known: Known, e: Entry, n: nat)
    requires n <= |e.tx.inputs|
    ensures forall k :: k in Debit(h, known, e, n) ==> k in h || Own(k, e)
    ensures (forall k :: k in h ==> !Own(k, e)) ==> Debit(h, known, e, n) == h + Debit(map[], known, e, n)
  {
    if n > 0 { DebitKeys(h, known, e, n - 1); DebitKeys(map[], known, e, n - 1); }
  }

  lemma {:induction false} CreditKeys(h: History, d: History, e: Entry, n: nat)
    requires n <= |e.tx.outputs|
    requires forall k :: k in d ==> Own(k, e)
    ensures forall k :: k in Credit(h + d, e, n) ==> k in h || Own(k, e)
    ensures (forall k :: k in h ==> !Own(k, e)) ==> Credit(h + d, e, n) == h + Credit(d, e, n)
    ensures forall k :: k in Credit(d, e, n) ==> Own(k, e)
  {
    if n > 0 { CreditKeys(h, d, e, n - 1); }
  }

  /** A transaction touches only its own history keys, so aggregation over a batch loses nothing. */
  lemma {:induction false} HistoryFrame(h: History, known: Known, e: Entry)
    ensures forall k :: k in TxHistory(map[], known, e) ==> Own(k, e)
    ensures (forall k :: k in h ==> !Own(k, e)) ==> TxHistory(h, known, e) == h + TxHistory(map[], known, e)
  {
    var d := Debit(map[], known, e, |e.tx.inputs|);
    DebitKeys(map[], known, e, |e.tx.inputs|);
    DebitKeys(h, known, e, |e.tx.inputs|);
    CreditKeys(h, d, e, |e.tx.outputs|);
  }

  lemma {:induction false} CollectedFromEntries(base: OutputTable, es: seq<Entry>)
    ensures FromEntries(base, es, CollectAll(base, es))
  {
    if es != [] {
      var n := |es| - 1;
      var front, e := es[..n], es[n];
      CollectedFromEntries(base, front);
      assert forall j :: 0 <= j < n ==> front[j] == es[j];
      var b := CollectAll(base, front);
      RowsFromEntries(base, es, b, e);
      SpendsFromEntries(base, es, b, e);
      HistoryFromEntries(base, es, b, e);
    }
  }

  lemma {:induction false} RowsFromEntries(base: OutputTable, es: seq<Entry>, b: Buffers, e: Entry)
    requires es != [] && e == es[|es| - 1] && FromEntries(base, es[..|es| - 1], b)
    ensures forall op :: op in Collect(base, b, e).rows ==>
              exists j :: 0 <= j < |es| && Makes(es[j], op) && Collect(base, b, e).rows[op] == NewRow(es[j], op.vout)
  {
  }

  lemma {:induction false} SpendsFromEntries(base: OutputTable, es: seq<Entry>, b: Buffers, e: Entry)
    requires es != [] && e == es[|es| - 1] && FromEntries(base, es[..|es| - 1], b)
    ensures var b' := Collect(base, b, e);
            forall op :: op in b'.spends ==>
              (op in base || op in b'.rows) && exists j :: 0 <= j < |es| && op in es[j].tx.inputs
  {
  }

  lemma {:induction false} TxHistoryKeys(h: History, known: Known, e: Entry, k: HistoryKey)
    requires k in TxHistory(h, known, e)
    ensures k in h || Own(k, e)
  {
    var d := Debit(h, known, e, |e.tx.inputs|);
    DebitKeys(h, known, e, |e.tx.inputs|);
    hide Debit, Credit;
    assert d + map[] == d;
    CreditKeys(d, map[], e, |e.tx.outputs|);
  }

  lemma {:induction false} HistoryFromEntries(base: OutputTable, es: seq<Entry>, b: Buffers, e: Entry)
    requires es != [] && e == es[|es| - 1] && FromEntries(base, es[..|es| - 1], b)
    ensures forall k :: k in Collect(base, b, e).history ==> exists j :: 0 <= j < |es| && Own(k, es[j])
  {
    hide TxHistory, AllNewRows, SpendsOf, Resolve;
    var n := |es| - 1;
    forall k | k in Collect(base, b, e).history ensures exists j :: 0 <= j < |es| && Own(k, es[j]) {
      TxHistoryKeys(b.history, Resolve(base, b.rows), e, k);
      if Own(k, e) {
        assert Own(k, es[n]);
      } else {
        var j :| 0 <= j < n && Own(k, es[..n][j]);
        assert Own(k, es[j]);
      }
    }
  }

  lemma {:induction false} MarkKeepsAddresses(outputs: OutputTable, spends: map<OutPoint, Spend>)
    ensures Addressed(Mark(outputs, spends)) == Addressed(outputs)
  {
  }

  lemma {:induction false} AddressedUnion(base: OutputTable, rows: OutputTable)
    requires forall op :: op in base && op in rows ==>
               base[op].address == rows[op].address && base[op].value == rows[op].value
    ensures Addressed(base + rows) == Resolve(base, rows)
  {
  }

  /** The in-memory view and the database view resolve the same spends. */
  lemma {:induction false} ViewsAgree(t: Tables, es: seq<Entry>, b: Buffers)
    requires Compatible(t, es) && FromEntries(t.outputs, es, b)
    ensures Addressed(Write(t, b).outputs) == Resolve(t.outputs, b.rows)
  {
    forall op | op in t.outputs && op in b.rows
      ensures t.outputs[op].address == b.rows[op].address && t.outputs[op].value == b.rows[op].value
    {
      var j :| 0 <= j < |es| && Makes(es[j], op) && b.rows[op] == NewRow(es[j], op.vout);
    }
    AddressedUnion(t.outputs, b.rows);
    MarkKeepsAddresses(t.outputs + b.rows, b.spends);
  }

  lemma {:induction false} MarkStep(outputs: OutputTable, rows: OutputTable, spends: map<OutPoint, Spend>,
                                    more: map<OutPoint, Spend>, made: OutputTable)
    requires made.Keys !! spends.Keys && made.Keys !! more.Keys
    ensures Mark(outputs + (rows + made), spends + more) == Mark(Mark(outputs + rows, spends), more) + made
  {
    var left, right := Mark(outputs + (rows + made), spends + more), Mark(Mark(outputs + rows, spends), more) + made;
    forall op ensures op in left <==> op in right { }
    forall op | op in left ensures left[op] == right[op] {
      if op in made { assert op !in spends && op !in more; }
    }
  }

  lemma {:induction false} KnownIsUnspent(t: Tables, es: seq<Entry>, b: Buffers, op: OutPoint)
    requires es != [] && Compatible(t, es) && FromEntries(t.outputs, es[..|es| - 1], b)
    requires Makes(es[|es| - 1], op) && (op in t.outputs || op in b.rows)
    ensures forall i :: 0 <= i < |es| ==> op !in es[i].tx.inputs
  {
    var n := |es| - 1;
    if op !in t.outputs {
      var j :| 0 <= j < n && Makes(es[..n][j], op);
      assert Makes(es[j], op) && MadeBefore(es, n, op);
    }
  }

  /** Nothing made by an entry was spent by it or before it in the batch. */
  lemma {:induction false} MadeIsUnspent(t: Tables, es: seq<Entry>, b: Buffers)
    requires es != [] && Compatible(t, es) && FromEntries(t.outputs, es[..|es| - 1], b)
    ensures AllNewRows(es[|es| - 1]).Keys !! b.spends.Keys
    ensures AllNewRows(es[|es| - 1]).Keys !! SpendsOf(Resolve(t.outputs, b.rows), es[|es| - 1]).Keys
  {
    var n := |es| - 1;
    var e := es[n];
    forall op | Makes(e, op) ensures op !in b.spends && op !in SpendsOf(Resolve(t.outputs, b.rows), e) {
      if op in t.outputs || op in b.rows {
        KnownIsUnspent(t, es, b, op);
        assert op !in es[n].tx.inputs;
        assert forall j :: 0 <= j < n ==> es[..n][j] == es[j];
      }
    }
  }

  lemma {:induction false} HistoryStep(history: History, es: seq<Entry>, base: OutputTable, b: Buffers, known: Known)
    requires es != [] && OncePerHeight(es) && FromEntries(base, es[..|es| - 1], b)
    ensures history + TxHistory(b.history, known, es[|es| - 1])
            == (history + b.history) + TxHistory(map[], known, es[|es| - 1])
  {
    hide TxHistory;
    var n := |es| - 1;
    var e := es[n];
    forall k | k in b.history ensures !Own(k, e) {
      var j :| 0 <= j < n && Own(k, es[..n][j]);
      assert es[j] == es[..n][j];
    }
    HistoryFrame(b.history, known, e);
    assert history + (b.history + TxHistory(map[], known, e)) == (history + b.history) + TxHistory(map[], known, e);
  }

  lemma {:induction false} OutputsStep(t: Tables, es: seq<Entry>, b: Buffers)
    requires es != [] && Compatible(t, es) && Compatible(t, es[..|es| - 1]) && FromEntries(t.outputs, es[..|es| - 1], b)
    ensures Addressed(Write(t, b).outputs) == Resolve(t.outputs, b.rows)
    ensures Write(t, Collect(t.outputs, b, es[|es| - 1])).outputs == IndexTx(Write(t, b), es[|es| - 1]).outputs
  {
    var e, known := es[|es| - 1], Resolve(t.outputs, b.rows);
    ViewsAgree(t, es[..|es| - 1], b);
    MadeIsUnspent(t, es, b);
    MarkStep(t.outputs, b.rows, b.spends, SpendsOf(known, e), AllNewRows(e));
  }

  lemma {:induction false} BatchStep(t: Tables, es: seq<Entry>, b: Buffers)
    requires es != [] && Compatible(t, es) && Compatible(t, es[..|es| - 1]) && FromEntries(t.outputs, es[..|es| - 1], b)
    ensures Write(t, Collect(t.outputs, b, es[|es| - 1])) == IndexTx(Write(t, b), es[|es| - 1])
  {
    var e := es[|es| - 1];
    OutputsStep(t, es, b);
    HistoryStep(t.history, es, t.outputs, b, Resolve(t.outputs, b.rows));
    PutAfterUnion(t.txs, b.txs, e.tx.txid, TxRow(e.height, e.index));
    var x, y := Write(t, Collect(t.outputs, b, e)), IndexTx(Write(t, b), e);
    assert x.blocks == y.blocks && x.txs == y.txs && x.outputs == y.outputs && x.history == y.history;
  }

  lemma {:induction false} PutAfterUnion<K, V>(m: map<K, V>, n: map<K, V>, k: K, v: V)
    ensures (m + n)[k := v] == m + n[k := v]
  {
  }

  lemma {:induction false} CompatiblePrefix(t: Tables, es: seq<Entry>)
    requires es != [] && Compatible(t, es)
    ensures Compatible(t, es[..|es| - 1])
  {
    var front := es[..|es| - 1];
    assert forall j :: 0 <= j < |front| ==> front[j] == es[j];
    forall i, j, op | 0 <= i <= j < |front| && Makes(front[j], op) && (op in t.outputs || MadeBefore(front, j, op))
      ensures op !in front[i].tx.inputs
    {
      if MadeBefore(front, j, op) {
        var k :| 0 <= k < j && Makes(front[k], op);
        assert Makes(es[k], op) && MadeBefore(es, j, op);
      }
    }
  }

  /** One batch equals indexing its transactions one at a time. */
  lemma {:induction false} BatchIsDirect(t: Tables, es: seq<Entry>)
    requires Compatible(t, es)
    ensures BatchEntries(t, es) == IndexEntries(t, es)
  {
    if es == [] {
      assert Mark(t.outputs + map[], map[]) == t.outputs;
      assert t.txs + map[] == t.txs && t.history + map[] == t.history;
    } else {
      var front := es[..|es| - 1];
      CompatiblePrefix(t, es);
      BatchIsDirect(t, front);
      CollectedFromEntries(t.outputs, front);
      BatchStep(t, es, CollectAll(t.outputs, front));
    }
  }

  /** The txids are new to the outputs table and distinct. */
  ghost predicate FreshEntries(t: Tables, es: seq<Entry>) {
    DistinctEntries(es) && forall j, op :: 0 <= j < |es| && op in t.outputs ==> op.txid != es[j].tx.txid
  }

  lemma {:induction false} FreshIsCompatible(t: Tables, bs: seq<(nat, Block)>)
    requires FreshEntries(t, Flatten(bs))
    ensures Batch(t, bs) == IndexBlocks(t, bs)
  {
    DistinctIsCompatible(t, Flatten(bs));
    BatchIsDirect(t, Flatten(bs));
  }

  lemma {:induction false} IndexedTxids(t: Tables, es: seq<Entry>, op: OutPoint)
    ensures op in IndexEntries(t, es).outputs ==>
              op in t.outputs || exists j :: 0 <= j < |es| && op.txid == es[j].tx.txid
  {
    if es != [] {
      var n := |es| - 1;
      IndexedTxids(t, es[..n], op);
      if op in IndexEntries(t, es).outputs && op !in t.outputs {
        if op in AllNewRows(es[n]) {
          assert op.txid == es[n].tx.txid;
        } else {
          var j :| 0 <= j < n && op.txid == es[..n][j].tx.txid;
          assert es[j] == es[..n][j];
        }
      }
    }
  }

  lemma {:induction false} FreshSplit(t: Tables, ea: seq<Entry>, eb: seq<Entry>)
    requires FreshEntries(t, ea + eb)
    ensures FreshEntries(t, ea) && FreshEntries(IndexEntries(t, ea), eb)
  {
    var es := ea + eb;
    assert forall j :: 0 <= j < |ea| ==> es[j] == ea[j];
    assert forall j :: 0 <= j < |eb| ==> es[|ea| + j] == eb[j];
    forall j, op | 0 <= j < |eb| && op in IndexEntries(t, ea).outputs ensures op.txid != eb[j].tx.txid {
      assert eb[j] == es[|ea| + j];
      IndexedTxids(t, ea, op);
      if op !in t.outputs {
        var k :| 0 <= k < |ea| && op.txid == ea[k].tx.txid;
        assert ea[k] == es[k];
      }
    }
  }

  /** Batching is invisible: one batch of `a + b` leaves the same tables as a batch of `a` followed by a batch of
      `b`, although one resolves the spends of `a`'s outputs in memory and the other in the database. */
  lemma {:induction false} BatchingIsInvisible(t: Tables, a: seq<(nat, Block)>, b: seq<(nat, Block)>)
    requires FreshEntries(t, Flatten(a + b))
    ensures Batch(t, a + b) == Batch(Batch(t, a), b)
  {
    FlattenAppend(a, b);
    FreshSplit(t, Flatten(a), Flatten(b));
    FreshIsCompatible(t, a + b);
    FreshIsCompatible(t, a);
    FreshIsCompatible(IndexBlocks(t, a), b);
    IndexBlocksAppend(t, a, b);
  }
}
