/** The indexer database: batch indexing as the source performs it, phase by phase, and reverting. */
module IndexerDatabase {
  import opened Bitcoin
  import opened IndexerTables
  import opened IndexerBatch
  import opened IndexerRevert

  /** A list of rows as the map it amounts to when inserted in order. */
  function FromList<K, V>(rows: seq<(K, V)>): map<K, V> {
    if rows == [] then map[] else FromList(rows[..|rows| - 1])[rows[|rows| - 1].0 := rows[|rows| - 1].1]
  }

  lemma {:induction false} FromListPush<K, V>(rows: seq<(K, V)>, k: K, v: V)
    ensures FromList(rows + [(k, v)]) == FromList(rows)[k := v]
  {
  }

  type MadeOutputs = map<OutPoint, (Option<string>, int)>

  /** `batch_outputs` mirrors the output rows collected so far. */
  ghost predicate Mirrors(made: MadeOutputs, rows: OutputTable) {
    made.Keys == rows.Keys && forall op :: op in made ==> made[op] == (rows[op].address, rows[op].value)
  }

  /** Database cache first, then outputs of this batch; null inputs are skipped by the caller. */
  function LookUp(cache: Known, made: MadeOutputs, op: OutPoint): Option<(string, int)> {
    if op in cache then Some(cache[op])
    else if op in made && made[op].0.Some? then Some((made[op].0.value, made[op].1))
    else None
  }

  ghost predicate CacheCovers(cache: Known, base: OutputTable, e: Entry) {
    forall op :: op in e.tx.inputs && !IsNull(op) ==>
      (op in cache <==> op in Addressed(base)) && (op in cache ==> cache[op] == Addressed(base)[op])
  }

  lemma {:induction false} LookUpResolves(cache: Known, base: OutputTable, made: MadeOutputs, rows: OutputTable,
                                          e: Entry, op: OutPoint)
    requires CacheCovers(cache, base, e) && Mirrors(made, rows) && op in e.tx.inputs
    ensures var known := Resolve(base, rows);
            if IsNull(op) then op !in known
            else LookUp(cache, made, op) == if op in known then Some(known[op]) else None
  {
  }

  /** One input: a resolved one leaves a spend update and a negative delta. */
  method ProcessInput(cache: Known, ghost base: OutputTable, made: MadeOutputs, ghost rows: OutputTable, e: Entry,
                      vin: nat,
                      spends0: seq<(OutPoint, Spend)>, history0: History)
      returns (spends: seq<(OutPoint, Spend)>, history: History)
    requires CacheCovers(cache, base, e) && Mirrors(made, rows) && vin < |e.tx.inputs|
    ensures var known, op := Resolve(base, rows), e.tx.inputs[vin];
            if op in known then
              && FromList(spends) == FromList(spends0)[op := Spend(e.tx.txid, vin, e.height)]
              && history == AddDelta(history0, KeyFor(known[op].0, e), -known[op].1)
            else spends == spends0 && history == history0
  {
    spends, history := spends0, history0;
    var op := e.tx.inputs[vin];
    LookUpResolves(cache, base, made, rows, e, op);
    if !IsNull(op) {
      var info := LookUp(cache, made, op);
      if info.Some? {
        FromListPush(spends, op, Spend(e.tx.txid, vin, e.height));
        spends := spends + [(op, Spend(e.tx.txid, vin, e.height))];
        history := AddDelta(history, KeyFor(info.value.0, e), -info.value.1);
      }
    }
  }

  method ProcessInputs(cache: Known, ghost base: OutputTable, made: MadeOutputs, ghost rows: OutputTable, e: Entry,
                       spends0: seq<(OutPoint, Spend)>, history0: History)
      returns (spends: seq<(OutPoint, Spend)>, history: History)
    requires CacheCovers(cache, base, e) && Mirrors(made, rows)
    ensures FromList(spends) == FromList(spends0) + SpendsOf(Resolve(base, rows), e)
    ensures history == Debit(history0, Resolve(base, rows), e, |e.tx.inputs|)
  {
    spends, history := spends0, history0;
    ghost var known := Resolve(base, rows);
    for vin := 0 to |e.tx.inputs|
      invariant FromList(spends) == FromList(spends0) + SpendsUpTo(known, e, vin)
      invariant history == Debit(history0, known, e, vin)
    {
      PutAfterUnion(FromList(spends0), SpendsUpTo(known, e, vin), e.tx.inputs[vin], Spend(e.tx.txid, vin, e.height));
      spends, history := ProcessInput(cache, base, made, rows, e, vin, spends, history);
    }
  }

  /** One output: a row, a copy for spends later in the batch and, if it pays an address, a positive delta. */
  method ProcessOutput(e: Entry, vout: nat, rows0: seq<(OutPoint, OutputRow)>, made0: MadeOutputs, history0: History)
      returns (rows: seq<(OutPoint, OutputRow)>, made: MadeOutputs, history: History)
    requires Mirrors(made0, FromList(rows0)) && vout < |e.tx.outputs|
    ensures FromList(rows) == FromList(rows0)[OutPoint(e.tx.txid, vout) := NewRow(e, vout)]
    ensures Mirrors(made, FromList(rows))
    ensures var address := e.tx.outputs[vout].script.address;
            history == if address.Some? then AddDelta(history0, KeyFor(address.value, e), e.tx.outputs[vout].value) else history0
  {
    var out, op := e.tx.outputs[vout], OutPoint(e.tx.txid, vout);
    FromListPush(rows0, op, NewRow(e, vout));
    rows, made, history := rows0 + [(op, NewRow(e, vout))], made0[op := (out.script.address, out.value)], history0;
    if out.script.address.Some? {
      history := AddDelta(history, KeyFor(out.script.address.value, e), out.value);
    }
  }

  method ProcessOutputs(e: Entry, rows0: seq<(OutPoint, OutputRow)>, made0: MadeOutputs, history0: History)
      returns (rows: seq<(OutPoint, OutputRow)>, made: MadeOutputs, history: History)
    requires Mirrors(made0, FromList(rows0))
    ensures FromList(rows) == FromList(rows0) + AllNewRows(e) && Mirrors(made, FromList(rows))
    ensures history == Credit(history0, e, |e.tx.outputs|)
  {
    rows, made, history := rows0, made0, history0;
    for vout := 0 to |e.tx.outputs|
      invariant FromList(rows) == FromList(rows0) + NewRows(e, vout) && Mirrors(made, FromList(rows))
      invariant history == Credit(history0, e, vout)
    {
      PutAfterUnion(FromList(rows0), NewRows(e, vout), OutPoint(e.tx.txid, vout), NewRow(e, vout));
      rows, made, history := ProcessOutput(e, vout, rows, made, history);
    }
  }

  /** The in-memory buffers of a batch. */
  datatype Lists = Lists(
    txs: seq<(Txid, TxRow)>,
    rows: seq<(OutPoint, OutputRow)>,
    spends: seq<(OutPoint, Spend)>,
    history: History,
    made: MadeOutputs)

  ghost function Abstract(l: Lists): Buffers {
    Buffers(FromList(l.txs), FromList(l.rows), FromList(l.spends), l.history)
  }

  method CollectEntry(cache: Known, ghost base: OutputTable, l: Lists, e: Entry) returns (r: Lists)
    requires CacheCovers(cache, base, e) && Mirrors(l.made, FromList(l.rows))
    ensures Abstract(r) == Collect(base, Abstract(l), e) && Mirrors(r.made, FromList(r.rows))
  {
    FromListPush(l.txs, e.tx.txid, TxRow(e.height, e.index));
    var txs := l.txs + [(e.tx.txid, TxRow(e.height, e.index))];
    var spends, debited := ProcessInputs(cache, base, l.made, FromList(l.rows), e, l.spends, l.history);
    var rows, made, history := ProcessOutputs(e, l.rows, l.made, debited);
    r := Lists(txs, rows, spends, history, made);
  }

  ghost predicate InputOf(es: seq<Entry>, op: OutPoint) {
    exists i :: 0 <= i < |es| && op in es[i].tx.inputs
  }

  /** Phase 1: every non-null outpoint the batch spends. */
  method OutpointsToFetch(es: seq<Entry>) returns (ops: set<OutPoint>)
    ensures forall op :: op in ops <==> InputOf(es, op) && !IsNull(op)
  {
    ops := {};
    for i := 0 to |es|
      invariant forall op :: op in ops <==> InputOf(es[..i], op) && !IsNull(op)
    {
      var inputs := es[i].tx.inputs;
      ghost var before := ops;
      for k := 0 to |inputs|
        invariant forall op :: op in ops <==> op in before || (op in inputs[..k] && !IsNull(op))
      {
        if !IsNull(inputs[k]) {
          ops := ops + {inputs[k]};
        }
      }
      assert inputs[..|inputs|] == inputs;
      InputOfPush(es, i);
    }
    assert es[..|es|] == es;
  }

  lemma {:induction false} InputOfPush(es: seq<Entry>, i: nat)
    requires i < |es|
    ensures forall op :: InputOf(es[..i + 1], op) <==> InputOf(es[..i], op) || op in es[i].tx.inputs
  {
  }

  /** Phase 2: the addressed rows among them. */
  method FetchOutputs(outputs: OutputTable, ops: set<OutPoint>) returns (cache: Known)
    requires forall op :: op in ops ==> !IsNull(op)
    ensures forall op :: op in cache <==> op in ops && op in Addressed(outputs)
    ensures forall op :: op in cache ==> cache[op] == Addressed(outputs)[op]
  {
    cache := map[];
    var todo := ops;
    while todo != {}
      invariant todo <= ops
      invariant forall op :: op in cache <==> op in ops - todo && op in Addressed(outputs)
      invariant forall op :: op in cache ==> cache[op] == Addressed(outputs)[op]
      decreases |todo|
    {
      var op :| op in todo;
      todo := todo - {op};
      if op in outputs && outputs[op].address.Some? {
        cache := cache[op := (outputs[op].address.value, outputs[op].value)];
      }
    }
  }

  /** Phase 3: one pass over the batch in chain order. */
  method CollectBatch(cache: Known, ghost base: OutputTable, es: seq<Entry>) returns (l: Lists)
    requires forall i :: 0 <= i < |es| ==> CacheCovers(cache, base, es[i])
    ensures Abstract(l) == CollectAll(base, es)
  {
    l := Lists([], [], [], map[], map[]);
    for i := 0 to |es|
      invariant Abstract(l) == CollectAll(base, es[..i]) && Mirrors(l.made, FromList(l.rows))
    {
      assert es[..i + 1][..i] == es[..i];
      l := CollectEntry(cache, base, l, es[i]);
    }
    assert es[..|es|] == es;
  }

  lemma {:induction false} MarkPush(outputs: OutputTable, spends: map<OutPoint, Spend>, op: OutPoint, spend: Spend)
    ensures Mark(outputs, spends[op := spend])
         == var marked := Mark(outputs, spends);
            if op in outputs then marked[op := marked[op].(spent := Some(spend))] else marked
  {
  }

  class Database {
    var blocks: map<nat, BlockRow>
    var transactions: map<Txid, TxRow>
    var outputs: OutputTable
    var addressHistory: History
    var state: Option<string>

    ghost function Contents(): Tables
      reads this
    {
      Tables(blocks, transactions, outputs, addressHistory)
    }

    constructor ()
      ensures Contents() == EMPTY && state == None
    {
      blocks, transactions, outputs, addressHistory, state := map[], map[], map[], map[], None;
    }

    method InsertBlockRows(bs: seq<(nat, Block)>)
      modifies this`blocks
      ensures blocks == InsertBlocks(old(blocks), bs)
    {
      for i := 0 to |bs|
        invariant blocks == InsertBlocks(old(blocks), bs[..i])
      {
        assert bs[..i + 1][..i] == bs[..i];
        blocks := InsertBlock(blocks, bs[i].0, RowOf(bs[i].1));
      }
      assert bs[..|bs|] == bs;
    }

    method InsertTransactions(rows: seq<(Txid, TxRow)>)
      modifies this`transactions
      ensures transactions == old(transactions) + FromList(rows)
    {
      for i := 0 to |rows|
        invariant transactions == old(transactions) + FromList(rows[..i])
      {
        assert rows[..i + 1][..i] == rows[..i];
        transactions := transactions[rows[i].0 := rows[i].1];
      }
      assert rows[..|rows|] == rows;
    }

    /** `INSERT OR REPLACE`: a replaced row loses its spend mark. */
    method InsertOutputs(rows: seq<(OutPoint, OutputRow)>)
      modifies this`outputs
      ensures outputs == old(outputs) + FromList(rows)
    {
      for i := 0 to |rows|
        invariant outputs == old(outputs) + FromList(rows[..i])
      {
        assert rows[..i + 1][..i] == rows[..i];
        outputs := outputs[rows[i].0 := rows[i].1];
      }
      assert rows[..|rows|] == rows;
    }

    method UpdateSpent(spends: seq<(OutPoint, Spend)>)
      modifies this`outputs
      ensures outputs == Mark(old(outputs), FromList(spends))
    {
      for i := 0 to |spends|
        invariant outputs == Mark(old(outputs), FromList(spends[..i]))
      {
        assert spends[..i + 1][..i] == spends[..i];
        MarkPush(old(outputs), FromList(spends[..i]), spends[i].0, spends[i].1);
        if spends[i].0 in outputs {
          outputs := outputs[spends[i].0 := outputs[spends[i].0].(spent := Some(spends[i].1))];
        }
      }
      assert spends[..|spends|] == spends;
    }

    /** Indexes a batch of blocks in one database transaction. */
    method IndexBlocksBatch(bs: seq<(nat, Block)>)
      modifies this`blocks, this`transactions, this`outputs, this`addressHistory
      ensures Contents() == Batch(old(Contents()), bs)
    {
      var es := Flatten(bs);
      var ops := OutpointsToFetch(es);
      var cache := FetchOutputs(outputs, ops);
      forall i | 0 <= i < |es| ensures CacheCovers(cache, outputs, es[i]) {
        forall op | op in es[i].tx.inputs && !IsNull(op) ensures op in ops { assert InputOf(es, op); }
      }
      var l := CollectBatch(cache, outputs, es);
      InsertBlockRows(bs);
      InsertTransactions(l.txs);
      InsertOutputs(l.rows);
      UpdateSpent(l.spends);
      addressHistory := addressHistory + l.history;
    }

    /** Forgets everything above `height`. */
    method RevertOutputs(height: nat)
      modifies this`outputs
      ensures outputs == KeepOutputs(old(outputs), height)
    {
      outputs := map op | op in outputs :: Unspend(outputs[op], height);
      outputs := map op | op in outputs && outputs[op].height <= height :: outputs[op];
    }

    method RevertToHeight(height: nat)
      modifies this`blocks, this`transactions, this`outputs, this`addressHistory
      ensures Contents() == Revert(old(Contents()), height)
    {
      RevertOutputs(height);
      transactions := map txid | txid in transactions && transactions[txid].height <= height :: transactions[txid];
      addressHistory := map k | k in addressHistory && k.height <= height :: addressHistory[k];
      blocks := map h | h in blocks && h <= height :: blocks[h];
    }
  }
}
