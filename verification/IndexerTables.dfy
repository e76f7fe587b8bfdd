/** The indexer's tables as maps from primary key to row, and the effect of indexing one transaction. */
module IndexerTables {
  import opened Bitcoin

  datatype Spend = Spend(txid: Txid, vin: nat, height: nat)

  datatype OutputRow = OutputRow(address: Option<string>, value: nat, script: Script, height: nat, spent: Option<Spend>)

  datatype BlockRow = BlockRow(hash: nat, time: nat)

  datatype TxRow = TxRow(height: nat, index: nat)

  datatype HistoryKey = HistoryKey(address: string, height: nat, txid: Txid)

  type OutputTable = map<OutPoint, OutputRow>

  type History = map<HistoryKey, int>

  datatype Tables = Tables(blocks: map<nat, BlockRow>, txs: map<Txid, TxRow>, outputs: OutputTable, history: History)

  const EMPTY: Tables := Tables(map[], map[], map[], map[])

  /** A transaction at its place in the chain. */
  datatype Entry = Entry(height: nat, index: nat, tx: Transaction)

  function EntriesOf(height: nat, block: Block): seq<Entry> {
    seq(|block.txs|, i requires 0 <= i < |block.txs| => Entry(height, i, block.txs[i]))
  }

  // ----- Outputs -----

  /** What spending needs to know about an output that pays an address. */
  type Known = map<OutPoint, (string, int)>

  /** The addressed outputs of a table; the null outpoint of a coinbase input never matches. */
  function Addressed(outputs: OutputTable): Known {
    map op | op in outputs && !IsNull(op) && outputs[op].address.Some? :: (outputs[op].address.value, outputs[op].value)
  }

  function NewRow(e: Entry, vout: nat): OutputRow
    requires vout < |e.tx.outputs|
  {
    OutputRow(e.tx.outputs[vout].script.address, e.tx.outputs[vout].value, e.tx.outputs[vout].script, e.height, None)
  }

  predicate Makes(e: Entry, op: OutPoint) {
    op.txid == e.tx.txid && op.vout < |e.tx.outputs|
  }

  /** Rows for the first `n` outputs, all unspent. */
  function NewRows(e: Entry, n: nat): (r: OutputTable)
    requires n <= |e.tx.outputs|
    ensures forall op :: op in r <==> op.txid == e.tx.txid && op.vout < n
    ensures forall op :: op in r ==> r[op] == NewRow(e, op.vout)
  {
    if n == 0 then map[] else NewRows(e, n - 1)[OutPoint(e.tx.txid, n - 1) := NewRow(e, n - 1)]
  }

  function AllNewRows(e: Entry): OutputTable {
    NewRows(e, |e.tx.outputs|)
  }

  /** The spends of known outputs made by the first `n` inputs; a repeated input leaves its last position. */
  function SpendsUpTo(known: Known, e: Entry, n: nat): map<OutPoint, Spend>
    requires n <= |e.tx.inputs|
  {
    if n == 0 then map[] else
      var r := SpendsUpTo(known, e, n - 1);
      var op := e.tx.inputs[n - 1];
      if op in known then r[op := Spend(e.tx.txid, n - 1, e.height)] else r
  }

  lemma {:induction false} SpendsKeys(known: Known, e: Entry, n: nat)
    requires n <= |e.tx.inputs|
    ensures forall op :: op in SpendsUpTo(known, e, n) <==> op in known && op in e.tx.inputs[..n]
    ensures forall op :: op in SpendsUpTo(known, e, n) ==> SpendsUpTo(known, e, n)[op].height == e.height
  {
    if n > 0 {
      SpendsKeys(known, e, n - 1);
      assert e.tx.inputs[..n] == e.tx.inputs[..n - 1] + [e.tx.inputs[n - 1]];
    }
  }

  function SpendsOf(known: Known, e: Entry): (r: map<OutPoint, Spend>)
    ensures forall op :: op in r <==> op in known && op in e.tx.inputs
    ensures forall op :: op in r ==> r[op].height == e.height
  {
    SpendsKeys(known, e, |e.tx.inputs|);
    assert e.tx.inputs[..|e.tx.inputs|] == e.tx.inputs;
    SpendsUpTo(known, e, |e.tx.inputs|)
  }

  /** `UPDATE outputs SET spent... WHERE txid, vout`, for each recorded spend. */
  function Mark(outputs: OutputTable, spends: map<OutPoint, Spend>): OutputTable {
    map op | op in outputs :: if op in spends then outputs[op].(spent := Some(spends[op])) else outputs[op]
  }

  // ----- Address history -----

  function AddDelta(h: History, key: HistoryKey, delta: int): History {
    h[key := (if key in h then h[key] else 0) + delta]
  }

  function KeyFor(address: string, e: Entry): HistoryKey {
    HistoryKey(address, e.height, e.tx.txid)
  }

  /** The first `n` inputs debit the addresses of the known outputs they spend. */
  function Debit(h: History, known: Known, e: Entry, n: nat): History
    requires n <= |e.tx.inputs|
  {
    if n == 0 then h else
      var r := Debit(h, known, e, n - 1);
      var op := e.tx.inputs[n - 1];
      if op in known then AddDelta(r, KeyFor(known[op].0, e), -known[op].1) else r
  }

  /** The first `n` outputs credit the addresses they pay. */
  function Credit(h: History, e: Entry, n: nat): History
    requires n <= |e.tx.outputs|
  {
    if n == 0 then h else
      var r := Credit(h, e, n - 1);
      var out := e.tx.outputs[n - 1];
      if out.script.address.Some? then AddDelta(r, KeyFor(out.script.address.value, e), out.value) else r
  }

  function TxHistory(h: History, known: Known, e: Entry): History {
    Credit(Debit(h, known, e, |e.tx.inputs|), e, |e.tx.outputs|)
  }

  // ----- One transaction, then one block, then many -----

  /** Indexing a single transaction against the tables as they stand. */
  function IndexTx(t: Tables, e: Entry): Tables {
    var known := Addressed(t.outputs);
    Tables(
      t.blocks,
      t.txs[e.tx.txid := TxRow(e.height, e.index)],
      Mark(t.outputs, SpendsOf(known, e)) + AllNewRows(e),
      t.history + TxHistory(map[], known, e))
  }

  /** The effect on a single output row. */
  lemma {:induction false} OutputAfter(t: Tables, e: Entry, op: OutPoint)
    ensures op in IndexTx(t, e).outputs <==> Makes(e, op) || op in t.outputs
    ensures Makes(e, op) ==> IndexTx(t, e).outputs[op] == NewRow(e, op.vout)
    ensures !Makes(e, op) && op in t.outputs ==>
              var spends := SpendsOf(Addressed(t.outputs), e);
              IndexTx(t, e).outputs[op] == if op in spends then t.outputs[op].(spent := Some(spends[op])) else t.outputs[op]
  {
  }

  function IndexEntries(t: Tables, es: seq<Entry>): Tables {
    if es == [] then t else IndexTx(IndexEntries(t, es[..|es| - 1]), es[|es| - 1])
  }

  /** `INSERT OR REPLACE INTO blocks`: the primary key is the height, and the hash is unique too. */
  function InsertBlock(blocks: map<nat, BlockRow>, height: nat, row: BlockRow): map<nat, BlockRow> {
    (map h | h in blocks && blocks[h].hash != row.hash :: blocks[h])[height := row]
  }

  /** No two blocks share a hash. */
  ghost predicate UniqueHashes(blocks: map<nat, BlockRow>) {
    forall h, k :: h in blocks && k in blocks && blocks[h].hash == blocks[k].hash ==> h == k
  }

  function RowOf(block: Block): BlockRow {
    BlockRow(block.hash, block.time)
  }

  function InsertBlocks(blocks: map<nat, BlockRow>, bs: seq<(nat, Block)>): map<nat, BlockRow> {
    if bs == [] then blocks else
      var last := bs[|bs| - 1];
      InsertBlock(InsertBlocks(blocks, bs[..|bs| - 1]), last.0, RowOf(last.1))
  }

  /** The unique constraint holds over any inserts; the last row at a height stays unless its hash is inserted again. */
  lemma {:induction false} InsertsKeepUnique(blocks: map<nat, BlockRow>, bs: seq<(nat, Block)>)
    requires UniqueHashes(blocks)
    ensures UniqueHashes(InsertBlocks(blocks, bs))
    ensures forall h :: h in blocks && (forall i :: 0 <= i < |bs| ==> bs[i].0 != h && bs[i].1.hash != blocks[h].hash) ==>
              h in InsertBlocks(blocks, bs) && InsertBlocks(blocks, bs)[h] == blocks[h]
  {
    if bs != [] {
      var n := |bs| - 1;
      InsertsKeepUnique(blocks, bs[..n]);
      assert forall i :: 0 <= i < n ==> bs[..n][i] == bs[i];
    }
  }

  function Flatten(bs: seq<(nat, Block)>): seq<Entry> {
    if bs == [] then [] else Flatten(bs[..|bs| - 1]) + EntriesOf(bs[|bs| - 1].0, bs[|bs| - 1].1)
  }

  /** The reference: blocks indexed one transaction at a time, in chain order. */
  function IndexBlocks(t: Tables, bs: seq<(nat, Block)>): Tables {
    IndexEntries(t, Flatten(bs)).(blocks := InsertBlocks(t.blocks, bs))
  }

  lemma {:induction false} IndexEntriesAppend(t: Tables, es: seq<Entry>, more: seq<Entry>)
    ensures IndexEntries(t, es + more) == IndexEntries(IndexEntries(t, es), more)
  {
    if more == [] {
      assert es + more == es;
    } else {
      var n := |more| - 1;
      IndexEntriesAppend(t, es, more[..n]);
      assert (es + more)[..|es + more| - 1] == es + more[..n];
    }
  }

  lemma {:induction false} FlattenPush(bs: seq<(nat, Block)>, b: (nat, Block))
    ensures Flatten(bs + [b]) == Flatten(bs) + EntriesOf(b.0, b.1)
  {
  }

  lemma {:induction false} Regroup<T>(a: seq<T>, b: seq<T>, c: seq<T>)
    ensures a + (b + c) == (a + b) + c
  {
  }

  lemma {:induction false} FlattenAppend(a: seq<(nat, Block)>, b: seq<(nat, Block)>)
    ensures Flatten(a + b) == Flatten(a) + Flatten(b)
  {
    if b == [] {
      assert a + b == a;
    } else {
      var front, last := b[..|b| - 1], b[|b| - 1];
      assert b == front + [last];
      FlattenAppend(a, front);
      Regroup(a, front, [last]);
      FlattenPush(a + front, last);
      FlattenPush(front, last);
      Regroup(Flatten(a), Flatten(front), EntriesOf(last.0, last.1));
    }
  }

  lemma {:induction false} InsertBlocksAppend(blocks: map<nat, BlockRow>, a: seq<(nat, Block)>, b: seq<(nat, Block)>)
    ensures InsertBlocks(blocks, a + b) == InsertBlocks(InsertBlocks(blocks, a), b)
  {
    if b == [] {
      assert a + b == a;
    } else {
      InsertBlocksAppend(blocks, a, b[..|b| - 1]);
      assert (a + b)[..|a + b| - 1] == a + b[..|b| - 1];
    }
  }

  /** The blocks table plays no part in indexing transactions. */
  lemma {:induction false} BlocksIndependent(t: Tables, blocks: map<nat, BlockRow>, es: seq<Entry>)
    ensures IndexEntries(t.(blocks := blocks), es) == IndexEntries(t, es).(blocks := blocks)
    ensures IndexEntries(t, es).blocks == t.blocks
  {
    if es != [] { BlocksIndependent(t, blocks, es[..|es| - 1]); }
  }

  /** Indexing block lists one after the other is indexing their concatenation. */
  lemma {:induction false} IndexBlocksAppend(t: Tables, a: seq<(nat, Block)>, b: seq<(nat, Block)>)
    ensures IndexBlocks(t, a + b) == IndexBlocks(IndexBlocks(t, a), b)
  {
    FlattenAppend(a, b);
    InsertBlocksAppend(t.blocks, a, b);
    IndexEntriesAppend(t, Flatten(a), Flatten(b));
    BlocksIndependent(IndexEntries(t, Flatten(a)), InsertBlocks(t.blocks, a), Flatten(b));
  }
}
