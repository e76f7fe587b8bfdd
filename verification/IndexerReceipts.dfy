/** What an address received and what it sent, read off the chain rather than off the tables. */
module IndexerReceipts {
  import opened Bitcoin
  import opened Sums
  import opened IndexerTables
  import opened IndexerBatch
  import opened IndexerChain
  import opened IndexerBalance

  /** What the outputs of a transaction pay the address. */
  function PaidTo(outs: seq<TxOut>, a: string): nat {
    if outs == [] then 0 else
      var out := outs[|outs| - 1];
      PaidTo(outs[..|outs| - 1], a) + if out.script.address == Some(a) then out.value else 0
  }

  // ----- One transaction: what is received -----

  /** What the table said that the address received with `op`, spent since or not. */
  function WasPaid(outputs: OutputTable, op: OutPoint, a: string): nat {
    if op in outputs && outputs[op].address == Some(a) then outputs[op].value else 0
  }

  /** The same for the rows that the first `n` outputs replace. */
  function PaidBefore(outputs: OutputTable, e: Entry, n: nat, a: string): nat {
    if n == 0 then 0 else PaidBefore(outputs, e, n - 1, a) + WasPaid(outputs, OutPoint(e.tx.txid, n - 1), a)
  }

  lemma {:induction false} ReceivedPut(outputs: OutputTable, a: string, op: OutPoint, row: OutputRow)
    ensures TotalReceived(outputs[op := row], a) + WasPaid(outputs, op, a)
         == TotalReceived(outputs, a) + if row.address == Some(a) then row.value else 0
  {
    var m := map o | o in outputs :: Pays(outputs[o], a);
    var after := outputs[op := row];
    assert (map o | o in after :: Pays(after[o], a)) == m[op := Pays(row, a)];
    MapSumPut(m, op, Pays(row, a));
    if op in m {
      MapSumTake(m, op);
    } else {
      assert m - {op} == m;
    }
  }

  /** Marking a row as spent does not change what was received. */
  lemma {:induction false} MarkKeepsReceived(outputs: OutputTable, spends: map<OutPoint, Spend>, a: string)
    ensures TotalReceived(Mark(outputs, spends), a) == TotalReceived(outputs, a)
  {
    var marked := Mark(outputs, spends);
    assert (map op | op in marked :: Pays(marked[op], a)) == map op | op in outputs :: Pays(outputs[op], a);
  }

  lemma {:induction false} NoNewRows(outputs: OutputTable, e: Entry)
    ensures outputs + NewRows(e, 0) == outputs
  {
  }

  lemma {:induction false} NewRowsPush(outputs: OutputTable, e: Entry, n: nat)
    requires n < |e.tx.outputs|
    ensures outputs + NewRows(e, n + 1) == (outputs + NewRows(e, n))[OutPoint(e.tx.txid, n) := NewRow(e, n)]
    ensures OutPoint(e.tx.txid, n) !in NewRows(e, n)
  {
  }

  lemma {:induction false} ReceivedRows(outputs: OutputTable, e: Entry, n: nat, a: string)
    requires n <= |e.tx.outputs|
    ensures TotalReceived(outputs + NewRows(e, n), a) + PaidBefore(outputs, e, n, a)
         == TotalReceived(outputs, a) + PaidTo(e.tx.outputs[..n], a)
  {
    hide TotalReceived, NewRows;
    if n == 0 {
      NoNewRows(outputs, e);
    } else {
      var k, op := n - 1, OutPoint(e.tx.txid, n - 1);
      ReceivedRows(outputs, e, k, a);
      NewRowsPush(outputs, e, k);
      ReceivedPut(outputs + NewRows(e, k), a, op, NewRow(e, k));
      assert e.tx.outputs[..n][..k] == e.tx.outputs[..k];
    }
  }

  lemma {:induction false} MarkKeepsPaidBefore(outputs: OutputTable, spends: map<OutPoint, Spend>, e: Entry, n: nat, a: string)
    ensures PaidBefore(Mark(outputs, spends), e, n, a) == PaidBefore(outputs, e, n, a)
  {
    if n > 0 { MarkKeepsPaidBefore(outputs, spends, e, n - 1, a); }
  }

  /** One transaction raises what an address received by what its outputs pay it, less what the replaced rows said. */
  lemma {:induction false} TxReceives(t: Tables, e: Entry, a: string)
    ensures TotalReceived(IndexTx(t, e).outputs, a) + PaidBefore(t.outputs, e, |e.tx.outputs|, a)
         == TotalReceived(t.outputs, a) + PaidTo(e.tx.outputs, a)
  {
    var spends := SpendsOf(Addressed(t.outputs), e);
    hide TotalReceived, Mark, NewRows, PaidBefore, PaidTo, SpendsOf, Addressed;
    MarkKeepsReceived(t.outputs, spends, a);
    MarkKeepsPaidBefore(t.outputs, spends, e, |e.tx.outputs|, a);
    ReceivedRows(Mark(t.outputs, spends), e, |e.tx.outputs|, a);
    assert e.tx.outputs[..|e.tx.outputs|] == e.tx.outputs;
  }

  // ----- One transaction: what is sent -----

  /** What an input takes from the address: the value of the unspent row that it names. */
  function Takes(outputs: OutputTable, op: OutPoint, a: string): nat {
    if !IsNull(op) && op in outputs && outputs[op].address == Some(a) && outputs[op].spent.None?
    then outputs[op].value else 0
  }

  function TakenBy(outputs: OutputTable, inputs: seq<OutPoint>, a: string): nat {
    if inputs == [] then 0 else
      TakenBy(outputs, inputs[..|inputs| - 1], a) + Takes(outputs, inputs[|inputs| - 1], a)
  }

  /** What the table said that the address sent with `op`. */
  function WasSent(outputs: OutputTable, op: OutPoint, a: string): nat {
    if op in outputs && outputs[op].address == Some(a) && outputs[op].spent.Some? then outputs[op].value else 0
  }

  /** The same for the rows that the first `n` outputs replace, with the inputs of the transaction counted as spent. */
  function SentBefore(outputs: OutputTable, e: Entry, n: nat, a: string): nat {
    if n == 0 then 0 else
      var op := OutPoint(e.tx.txid, n - 1);
      SentBefore(outputs, e, n - 1, a)
      + if op in e.tx.inputs then WasSent(outputs, op, a) + Takes(outputs, op, a) else WasSent(outputs, op, a)
  }

  lemma {:induction false} SentPut(outputs: OutputTable, a: string, op: OutPoint, row: OutputRow)
    ensures TotalSent(outputs[op := row], a) + WasSent(outputs, op, a)
         == TotalSent(outputs, a) + if row.address == Some(a) && row.spent.Some? then row.value else 0
  {
    var m := map o | o in outputs :: PaysSpent(outputs[o], a);
    var after := outputs[op := row];
    assert (map o | o in after :: PaysSpent(after[o], a)) == m[op := PaysSpent(row, a)];
    MapSumPut(m, op, PaysSpent(row, a));
    if op in m {
      MapSumTake(m, op);
    } else {
      assert m - {op} == m;
    }
  }

  lemma {:induction false} SentMark(outputs: OutputTable, e: Entry, k: nat, a: string)
    requires k < |e.tx.inputs| && Distinct(e.tx.inputs)
    ensures var known := Addressed(outputs);
            TotalSent(Mark(outputs, SpendsUpTo(known, e, k + 1)), a)
            == TotalSent(Mark(outputs, SpendsUpTo(known, e, k)), a) + Takes(outputs, e.tx.inputs[k], a)
  {
    var known, op := Addressed(outputs), e.tx.inputs[k];
    MarkNext(outputs, e, k);
    SpendsKeys(known, e, k);
    hide TotalSent, SpendsUpTo;
    if op in known {
      var before := Mark(outputs, SpendsUpTo(known, e, k));
      assert before[op] == outputs[op];
      SentPut(before, a, op, outputs[op].(spent := Some(Spend(e.tx.txid, k, e.height))));
    }
  }

  lemma {:induction false} SentMarks(outputs: OutputTable, e: Entry, n: nat, a: string)
    requires n <= |e.tx.inputs| && Distinct(e.tx.inputs)
    ensures TotalSent(Mark(outputs, SpendsUpTo(Addressed(outputs), e, n)), a)
         == TotalSent(outputs, a) + TakenBy(outputs, e.tx.inputs[..n], a)
  {
    hide TotalSent, Addressed, Takes;
    if n == 0 {
      assert Mark(outputs, map[]) == outputs;
    } else {
      SentMarks(outputs, e, n - 1, a);
      hide Mark, SpendsUpTo;
      SentMark(outputs, e, n - 1, a);
      assert e.tx.inputs[..n][..n - 1] == e.tx.inputs[..n - 1];
    }
  }

  lemma {:induction false} SentRows(outputs: OutputTable, e: Entry, n: nat, a: string)
    requires n <= |e.tx.outputs|
    ensures var marked := Mark(outputs, SpendsOf(Addressed(outputs), e));
            TotalSent(marked + NewRows(e, n), a) + SentBefore(outputs, e, n, a) == TotalSent(marked, a)
  {
    hide TotalSent, NewRows, Mark, SpendsOf, Addressed, Takes;
    var marked := Mark(outputs, SpendsOf(Addressed(outputs), e));
    if n == 0 {
      NoNewRows(marked, e);
    } else {
      var k, op := n - 1, OutPoint(e.tx.txid, n - 1);
      SentRows(outputs, e, k, a);
      MarkedSent(outputs, e, op, a);
      NewRowsPush(marked, e, k);
      SentPut(marked + NewRows(e, k), a, op, NewRow(e, k));
    }
  }

  lemma {:induction false} MarkedSent(outputs: OutputTable, e: Entry, op: OutPoint, a: string)
    ensures WasSent(Mark(outputs, SpendsOf(Addressed(outputs), e)), op, a)
         == if op in e.tx.inputs then WasSent(outputs, op, a) + Takes(outputs, op, a) else WasSent(outputs, op, a)
  {
  }

  /** One transaction raises what an address sent by what its inputs take, less what the replaced rows said. */
  lemma {:induction false} TxSends(t: Tables, e: Entry, a: string)
    requires Distinct(e.tx.inputs)
    ensures TotalSent(IndexTx(t, e).outputs, a) + SentBefore(t.outputs, e, |e.tx.outputs|, a)
         == TotalSent(t.outputs, a) + TakenBy(t.outputs, e.tx.inputs, a)
  {
    hide TotalSent, Mark, NewRows, SentBefore, TakenBy, SpendsUpTo, Addressed;
    SentMarks(t.outputs, e, |e.tx.inputs|, a);
    SentRows(t.outputs, e, |e.tx.outputs|, a);
    assert e.tx.inputs[..|e.tx.inputs|] == e.tx.inputs;
  }

  // ----- Whole runs -----

  /** What the run pays the address, what its inputs take, and what the rows that it replaces had said. */
  function RunPaid(es: seq<Entry>, a: string): nat {
    if es == [] then 0 else RunPaid(es[..|es| - 1], a) + PaidTo(es[|es| - 1].tx.outputs, a)
  }

  function RunTaken(t: Tables, es: seq<Entry>, a: string): nat {
    if es == [] then 0 else
      var n := |es| - 1;
      RunTaken(t, es[..n], a) + TakenBy(IndexEntries(t, es[..n]).outputs, es[n].tx.inputs, a)
  }

  function RunPaidBefore(t: Tables, es: seq<Entry>, a: string): nat {
    if es == [] then 0 else
      var n := |es| - 1;
      RunPaidBefore(t, es[..n], a) + PaidBefore(IndexEntries(t, es[..n]).outputs, es[n], |es[n].tx.outputs|, a)
  }

  function RunSentBefore(t: Tables, es: seq<Entry>, a: string): nat {
    if es == [] then 0 else
      var n := |es| - 1;
      RunSentBefore(t, es[..n], a) + SentBefore(IndexEntries(t, es[..n]).outputs, es[n], |es[n].tx.outputs|, a)
  }

  /** Over any run. */
  lemma {:induction false} RunReceives(t: Tables, es: seq<Entry>, a: string)
    ensures TotalReceived(IndexEntries(t, es).outputs, a) + RunPaidBefore(t, es, a)
         == TotalReceived(t.outputs, a) + RunPaid(es, a)
  {
    hide TotalReceived, PaidBefore, PaidTo, IndexTx;
    if es != [] {
      var n := |es| - 1;
      RunReceives(t, es[..n], a);
      TxReceives(IndexEntries(t, es[..n]), es[n], a);
    }
  }

  lemma {:induction false} RunSends(t: Tables, es: seq<Entry>, a: string)
    requires DistinctInputs(es)
    ensures TotalSent(IndexEntries(t, es).outputs, a) + RunSentBefore(t, es, a)
         == TotalSent(t.outputs, a) + RunTaken(t, es, a)
  {
    hide TotalSent, SentBefore, TakenBy, IndexTx, Distinct;
    if es != [] {
      var n := |es| - 1;
      assert Distinct(es[n].tx.inputs);
      assert forall i :: 0 <= i < n ==> es[..n][i] == es[i];
      RunSends(t, es[..n], a);
      TxSends(IndexEntries(t, es[..n]), es[n], a);
    }
  }

  /** However the blocks were batched. */
  lemma {:induction false} BatchedTotals(bss: seq<seq<(nat, Block)>>, a: string)
    requires BatchesCompatible(EMPTY, bss) && DistinctInputs(Flatten(AllBlocks(bss)))
    ensures var t, es := Batches(EMPTY, bss), Flatten(AllBlocks(bss));
            && TotalReceived(t.outputs, a) == RunPaid(es, a) - RunPaidBefore(EMPTY, es, a)
            && TotalSent(t.outputs, a) == RunTaken(EMPTY, es, a) - RunSentBefore(EMPTY, es, a)
  {
    var es := Flatten(AllBlocks(bss));
    NothingYet(a);
    hide TotalReceived, TotalSent, IndexEntries, Flatten, InsertBlocks, Batches, RunPaid, RunPaidBefore, RunTaken,
         RunSentBefore, DistinctInputs;
    BatchesAreDirect(EMPTY, bss);
    RunReceives(EMPTY, es, a);
    RunSends(EMPTY, es, a);
  }

  lemma {:induction false} NothingYet(a: string)
    ensures TotalReceived(EMPTY.outputs, a) == 0 && TotalSent(EMPTY.outputs, a) == 0
  {
  }

  // ----- Chains without repeated txids -----

  /** Some transaction of the chain spends the output. */
  ghost predicate Named(es: seq<Entry>, op: OutPoint) {
    !IsNull(op) && exists i :: 0 <= i < |es| && op in es[i].tx.inputs
  }

  /** Of what the first `n` outputs of a transaction pay the address, the part that the chain spends. */
  ghost function SpentOf(es: seq<Entry>, e: Entry, n: nat, a: string): nat
    requires n <= |e.tx.outputs|
  {
    if n == 0 then 0 else
      var out := e.tx.outputs[n - 1];
      SpentOf(es, e, n - 1, a)
      + if out.script.address == Some(a) && Named(es, OutPoint(e.tx.txid, n - 1)) then out.value else 0
  }

  /** The same over the first `n` transactions. */
  ghost function ChainSpent(es: seq<Entry>, n: nat, a: string): nat
    requires n <= |es|
  {
    if n == 0 then 0 else ChainSpent(es, n - 1, a) + SpentOf(es, es[n - 1], |es[n - 1].tx.outputs|, a)
  }

  /** The worth of the first `n` outputs of a transaction, and of those of the first `p` transactions, if `worth` says
      what each output is worth. */
  ghost function WorthOf(worth: map<OutPoint, int>, e: Entry, n: nat): int {
    if n == 0 then 0 else
      var op := OutPoint(e.tx.txid, n - 1);
      WorthOf(worth, e, n - 1) + if op in worth then worth[op] else 0
  }

  ghost function ChainWorth(worth: map<OutPoint, int>, es: seq<Entry>): int {
    if es == [] then 0 else
      ChainWorth(worth, es[..|es| - 1]) + WorthOf(worth, es[|es| - 1], |es[|es| - 1].tx.outputs|)
  }

  lemma {:induction false} MapSumOfTx(worth: map<OutPoint, int>, e: Entry, n: nat)
    requires forall op :: op in worth <==> op.txid == e.tx.txid && op.vout < n
    ensures MapSum(worth) == WorthOf(worth, e, n)
    decreases n
  {
    if n == 0 {
      assert worth == map[];
    } else {
      var op := OutPoint(e.tx.txid, n - 1);
      MapSumTake(worth, op);
      MapSumOfTx(worth - {op}, e, n - 1);
      WorthSame(worth, worth - {op}, e, n - 1);
    }
  }

  lemma {:induction false} WorthSame(a: map<OutPoint, int>, b: map<OutPoint, int>, e: Entry, n: nat)
    requires forall op: OutPoint :: op.txid == e.tx.txid && op.vout < n ==> (op in a <==> op in b) && (op in a ==> a[op] == b[op])
    ensures WorthOf(a, e, n) == WorthOf(b, e, n)
  {
    if n > 0 { WorthSame(a, b, e, n - 1); }
  }

  ghost predicate MadeBy(es: seq<Entry>, op: OutPoint) {
    exists i :: 0 <= i < |es| && Makes(es[i], op)
  }

  lemma {:induction false} ChainWorthSame(a: map<OutPoint, int>, b: map<OutPoint, int>, es: seq<Entry>)
    requires forall op :: MadeBy(es, op) ==> (op in a <==> op in b) && (op in a ==> a[op] == b[op])
    ensures ChainWorth(a, es) == ChainWorth(b, es)
  {
    if es != [] {
      var n := |es| - 1;
      forall op | MadeBy(es[..n], op) ensures MadeBy(es, op) {
        var i :| 0 <= i < n && Makes(es[..n][i], op);
        assert Makes(es[i], op);
      }
      ChainWorthSame(a, b, es[..n]);
      assert forall op :: Makes(es[n], op) ==> MadeBy(es, op);
      WorthSame(a, b, es[n], |es[n].tx.outputs|);
    }
  }

  lemma {:induction false} MadeByPush(es: seq<Entry>, op: OutPoint)
    requires es != []
    ensures MadeBy(es, op) <==> MadeBy(es[..|es| - 1], op) || Makes(es[|es| - 1], op)
  {
    var n := |es| - 1;
    if i :| 0 <= i < |es| && Makes(es[i], op) {
      if i < n { assert Makes(es[..n][i], op); }
    }
    if i :| 0 <= i < n && Makes(es[..n][i], op) { assert Makes(es[i], op); }
  }

  lemma {:induction false} MadeApart(es: seq<Entry>, op: OutPoint)
    requires es != [] && DistinctEntries(es)
    ensures !(MadeBy(es[..|es| - 1], op) && Makes(es[|es| - 1], op))
  {
    var n := |es| - 1;
    if i :| 0 <= i < n && Makes(es[..n][i], op) { assert es[..n][i] == es[i]; }
  }

  /** A sum over the outputs of a chain with distinct txids is the sum over its transactions of their sums. */
  lemma {:induction false} MapSumOfChain(worth: map<OutPoint, int>, es: seq<Entry>)
    requires DistinctEntries(es) && forall op :: op in worth <==> MadeBy(es, op)
    ensures MapSum(worth) == ChainWorth(worth, es)
    decreases |es|
  {
    if es == [] {
      assert worth == map[];
    } else {
      var n := |es| - 1;
      var own := map op | op in worth && Makes(es[n], op) :: worth[op];
      var rest := worth - own.Keys;
      forall op ensures op in rest <==> MadeBy(es[..n], op) { MadeByPush(es, op); MadeApart(es, op); }
      forall op | Makes(es[n], op) ensures op in worth { MadeByPush(es, op); }
      hide MadeBy;
      MapSumSplit(worth, own.Keys);
      assert own == map op | op in worth && op in own.Keys :: worth[op];
      MapSumOfTx(own, es[n], |es[n].tx.outputs|);
      MapSumOfChain(rest, es[..n]);
      WorthSame(own, worth, es[n], |es[n].tx.outputs|);
      forall op | MadeBy(es[..n], op) ensures op in rest && rest[op] == worth[op] {}
      ChainWorthSame(rest, worth, es[..n]);
    }
  }

  /** After a chain with distinct txids the outputs table holds exactly the outputs of the chain, with what they say. */
  lemma {:induction false} RowsOfChain(es: seq<Entry>, op: OutPoint)
    ensures op in IndexEntries(EMPTY, es).outputs <==> MadeBy(es, op)
  {
    if es != [] {
      RowsOfChain(es[..|es| - 1], op);
      MadeByPush(es, op);
      hide MadeBy, IndexEntries;
      assert IndexEntries(EMPTY, es) == IndexTx(IndexEntries(EMPTY, es[..|es| - 1]), es[|es| - 1]) by { IndexLast(EMPTY, es); }
      OutputAfter(IndexEntries(EMPTY, es[..|es| - 1]), es[|es| - 1], op);
    }
  }

  lemma {:induction false} IndexLast(t: Tables, es: seq<Entry>)
    requires es != []
    ensures IndexEntries(t, es) == IndexTx(IndexEntries(t, es[..|es| - 1]), es[|es| - 1])
  {
  }

  /** The row of an output, once the chain is indexed: what the output said, marked if the output pays an address and a
      transaction of the chain names it. */
  lemma {:induction false} RowOfChain(es: seq<Entry>, i: nat, op: OutPoint)
    requires ValidEntries(es) && i < |es| && Makes(es[i], op)
    ensures var t, out := IndexEntries(EMPTY, es), es[i].tx.outputs[op.vout];
            && op in t.outputs && t.outputs[op].address == out.script.address && t.outputs[op].value == out.value
            && t.outputs[op].script == out.script && t.outputs[op].height == es[i].height
            && (t.outputs[op].spent.Some? <==> out.script.address.Some? && Named(es, op))
  {
    var t := IndexEntries(EMPTY, es);
    assert es[..|es|] == es;
    CanonSettled(es, |es|);
    assert Settled(t, es[i]);
    if es[i].tx.outputs[op.vout].script.address.Some? && Named(es, op) {
      var j :| 0 <= j < |es| && op in es[j].tx.inputs;
      assert Settled(t, es[j]);
      assert op in SpendsOf(Addressed(t.outputs), es[j]);
    }
  }

  lemma {:induction false} TxWorthReceived(es: seq<Entry>, worth: map<OutPoint, int>, i: nat, n: nat, a: string)
    requires ValidEntries(es) && i < |es| && n <= |es[i].tx.outputs|
    requires var t := IndexEntries(EMPTY, es); worth == map op | op in t.outputs :: Pays(t.outputs[op], a)
    ensures WorthOf(worth, es[i], n) == PaidTo(es[i].tx.outputs[..n], a)
  {
    hide ValidEntries, IndexEntries;
    if n > 0 {
      TxWorthReceived(es, worth, i, n - 1, a);
      RowOfChain(es, i, OutPoint(es[i].tx.txid, n - 1));
      assert es[i].tx.outputs[..n][..n - 1] == es[i].tx.outputs[..n - 1];
    }
  }

  lemma {:induction false} ChainWorthReceived(es: seq<Entry>, worth: map<OutPoint, int>, p: nat, a: string)
    requires ValidEntries(es) && p <= |es|
    requires var t := IndexEntries(EMPTY, es); worth == map op | op in t.outputs :: Pays(t.outputs[op], a)
    ensures ChainWorth(worth, es[..p]) == RunPaid(es[..p], a)
  {
    hide ValidEntries, IndexEntries, WorthOf, PaidTo;
    if p > 0 {
      ChainWorthReceived(es, worth, p - 1, a);
      TxWorthReceived(es, worth, p - 1, |es[p - 1].tx.outputs|, a);
      assert es[..p][..p - 1] == es[..p - 1];
      assert es[p - 1].tx.outputs[..|es[p - 1].tx.outputs|] == es[p - 1].tx.outputs;
    }
  }

  /** Where no txid occurs twice, an address has received the sum of all outputs that ever paid it. */
  lemma {:induction false} ReceivedIsPaid(es: seq<Entry>, a: string)
    requires ValidEntries(es)
    ensures TotalReceived(IndexEntries(EMPTY, es).outputs, a) == RunPaid(es, a)
  {
    var t := IndexEntries(EMPTY, es);
    var worth := map op | op in t.outputs :: Pays(t.outputs[op], a);
    hide IndexEntries, MadeBy, RunPaid, ChainWorth;
    forall op ensures op in worth <==> MadeBy(es, op) { RowsOfChain(es, op); }
    MapSumOfChain(worth, es);
    assert es[..|es|] == es;
    ChainWorthReceived(es, worth, |es|, a);
  }

  lemma {:induction false} TxWorthSent(es: seq<Entry>, worth: map<OutPoint, int>, i: nat, n: nat, a: string)
    requires ValidEntries(es) && i < |es| && n <= |es[i].tx.outputs|
    requires var t := IndexEntries(EMPTY, es); worth == map op | op in t.outputs :: PaysSpent(t.outputs[op], a)
    ensures WorthOf(worth, es[i], n) == SpentOf(es, es[i], n, a)
  {
    hide ValidEntries, IndexEntries, Named;
    if n > 0 {
      TxWorthSent(es, worth, i, n - 1, a);
      RowOfChain(es, i, OutPoint(es[i].tx.txid, n - 1));
    }
  }

  lemma {:induction false} ChainWorthSent(es: seq<Entry>, worth: map<OutPoint, int>, p: nat, a: string)
    requires ValidEntries(es) && p <= |es|
    requires var t := IndexEntries(EMPTY, es); worth == map op | op in t.outputs :: PaysSpent(t.outputs[op], a)
    ensures ChainWorth(worth, es[..p]) == ChainSpent(es, p, a)
  {
    hide ValidEntries, IndexEntries, WorthOf, SpentOf;
    if p > 0 {
      ChainWorthSent(es, worth, p - 1, a);
      TxWorthSent(es, worth, p - 1, |es[p - 1].tx.outputs|, a);
      assert es[..p][..p - 1] == es[..p - 1];
    }
  }

  /** ... and has sent the sum of those that a transaction of the chain spends. */
  lemma {:induction false} SentIsSpent(es: seq<Entry>, a: string)
    requires ValidEntries(es)
    ensures TotalSent(IndexEntries(EMPTY, es).outputs, a) == ChainSpent(es, |es|, a)
  {
    var t := IndexEntries(EMPTY, es);
    var worth := map op | op in t.outputs :: PaysSpent(t.outputs[op], a);
    hide IndexEntries, MadeBy, ChainSpent, ChainWorth;
    forall op ensures op in worth <==> MadeBy(es, op) { RowsOfChain(es, op); }
    MapSumOfChain(worth, es);
    assert es[..|es|] == es;
    ChainWorthSent(es, worth, |es|, a);
  }

  // ----- Any batching of such a chain -----

  lemma {:induction false} BatchedIsSlice(bss: seq<seq<(nat, Block)>>, i: nat)
    requires i < |bss|
    ensures var es, q := Flatten(AllBlocks(bss)), |Flatten(AllBlocks(bss[..i]))|;
            && q + |Flatten(bss[i])| <= |es| && Flatten(AllBlocks(bss[..i])) == es[..q]
            && Flatten(bss[i]) == es[q..q + |Flatten(bss[i])|]
    decreases |bss|
  {
    hide Flatten;
    var n := |bss| - 1;
    FlattenAppend(AllBlocks(bss[..n]), bss[n]);
    if i < n {
      BatchedIsSlice(bss[..n], i);
      assert bss[..n][..i] == bss[..i];
    }
  }

  /** A chain without repeated txids may be cut into batches anywhere. */
  lemma {:induction false} AnyBatching(bss: seq<seq<(nat, Block)>>, n: nat)
    requires ValidEntries(Flatten(AllBlocks(bss))) && n <= |bss|
    ensures BatchesCompatible(EMPTY, bss[..n])
  {
    hide ValidEntries, Flatten, Batches, Compatible, AllBlocks;
    if n > 0 {
      AnyBatching(bss, n - 1);
      NextBatch(bss, n - 1);
      forall i | 0 <= i < n ensures Compatible(Batches(EMPTY, bss[..n][..i]), Flatten(bss[..n][i])) {
        assert bss[..n][..i] == bss[..i];
        if i < n - 1 {
          assert bss[..n - 1][..i] == bss[..i] && bss[..n - 1][i] == bss[i];
        }
      }
    }
  }

  lemma {:induction false} NextBatch(bss: seq<seq<(nat, Block)>>, i: nat)
    requires ValidEntries(Flatten(AllBlocks(bss))) && i < |bss| && BatchesCompatible(EMPTY, bss[..i])
    ensures Compatible(Batches(EMPTY, bss[..i]), Flatten(bss[i]))
  {
    hide ValidEntries, Flatten, Batches, Compatible, AllBlocks, IndexEntries, InsertBlocks, BatchesCompatible;
    var es, q := Flatten(AllBlocks(bss)), |Flatten(AllBlocks(bss[..i]))|;
    BatchedIsSlice(bss, i);
    BatchesAreDirect(EMPTY, bss[..i]);
    var t := Batches(EMPTY, bss[..i]);
    assert HalfDone(t, es, q, q);
    RangeIsCompatible(t, es, q, q + |Flatten(bss[i])|, q);
  }

  /** However such a chain was batched, an address received all that was ever paid to it, sent what of that was spent, and
      holds the difference. */
  lemma {:induction false} ChainTotals(bss: seq<seq<(nat, Block)>>, a: string)
    requires ValidEntries(Flatten(AllBlocks(bss)))
    ensures var t, es := Batches(EMPTY, bss), Flatten(AllBlocks(bss));
            && TotalReceived(t.outputs, a) == RunPaid(es, a) && TotalSent(t.outputs, a) == ChainSpent(es, |es|, a)
            && Confirmed(t.outputs, a) == RunPaid(es, a) - ChainSpent(es, |es|, a)
  {
    hide ValidEntries, Flatten, Batches, AllBlocks, IndexEntries, InsertBlocks, TotalReceived, TotalSent, Confirmed,
         BatchesCompatible, RunPaid, ChainSpent;
    var es := Flatten(AllBlocks(bss));
    assert bss[..|bss|] == bss;
    AnyBatching(bss, |bss|);
    BatchesAreDirect(EMPTY, bss);
    ReceivedIsPaid(es, a);
    SentIsSpent(es, a);
    ReceivedIsSentPlusConfirmed(Batches(EMPTY, bss).outputs, a);
  }
}
