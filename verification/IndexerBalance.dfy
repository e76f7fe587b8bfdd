/** Address balances: three ways of computing them from the tables agree on every valid chain. */
module IndexerBalance {
  import opened Bitcoin
  import opened Sums
  import opened IndexerTables
  import opened IndexerBatch
  import opened IndexerChain

  function Pays(row: OutputRow, a: string): int {
    if row.address == Some(a) then row.value else 0
  }

  function PaysUnspent(row: OutputRow, a: string): int {
    if row.spent.None? then Pays(row, a) else 0
  }

  function PaysSpent(row: OutputRow, a: string): int {
    if row.spent.Some? then Pays(row, a) else 0
  }

  /** `SELECT SUM(value) FROM outputs WHERE address = ?`. */
  ghost function TotalReceived(outputs: OutputTable, a: string): int {
    MapSum(map op | op in outputs :: Pays(outputs[op], a))
  }

  /** ... `AND spent_txid IS NOT NULL`. */
  ghost function TotalSent(outputs: OutputTable, a: string): int {
    MapSum(map op | op in outputs :: PaysSpent(outputs[op], a))
  }

  /** ... `AND spent_txid IS NULL`: the confirmed balance, and the sum of the address's unspent outputs. */
  ghost function Confirmed(outputs: OutputTable, a: string): int {
    MapSum(map op | op in outputs :: PaysUnspent(outputs[op], a))
  }

  /** The sum of the address's history deltas. */
  ghost function HistoryTotal(history: History, a: string): int {
    MapSum(map k | k in history && k.address == a :: history[k])
  }

  lemma {:induction false} MapSumAdd<K(!new)>(m: map<K, int>, f: map<K, int>, g: map<K, int>)
    requires m.Keys == f.Keys == g.Keys && forall k :: k in m ==> m[k] == f[k] + g[k]
    ensures MapSum(m) == MapSum(f) + MapSum(g)
    decreases |m|
  {
    if m != map[] {
      var k :| k in m;
      MapSumTake(m, k);
      MapSumTake(f, k);
      MapSumTake(g, k);
      assert (m - {k}).Keys == m.Keys - {k};
      MapSumAdd(m - {k}, f - {k}, g - {k});
    }
  }

  /** The balance is what was received less what was sent, whatever the tables hold. */
  lemma {:induction false} ReceivedIsSentPlusConfirmed(outputs: OutputTable, a: string)
    ensures TotalReceived(outputs, a) == TotalSent(outputs, a) + Confirmed(outputs, a)
  {
    MapSumAdd(map op | op in outputs :: Pays(outputs[op], a), map op | op in outputs :: PaysSpent(outputs[op], a),
              map op | op in outputs :: PaysUnspent(outputs[op], a));
  }

  // ----- How one row or one delta changes the sums -----

  lemma {:induction false} ConfirmedPut(outputs: OutputTable, a: string, op: OutPoint, row: OutputRow)
    ensures Confirmed(outputs[op := row], a)
         == Confirmed(outputs, a) + PaysUnspent(row, a) - if op in outputs then PaysUnspent(outputs[op], a) else 0
  {
    var m := map o | o in outputs :: PaysUnspent(outputs[o], a);
    var after := outputs[op := row];
    var m' := map o | o in after :: PaysUnspent(after[o], a);
    assert m' == m[op := PaysUnspent(row, a)];
    MapSumPut(m, op, PaysUnspent(row, a));
    if op in m {
      MapSumTake(m, op);
    } else {
      assert m - {op} == m;
    }
  }

  lemma {:induction false} HistoryTotalDelta(history: History, a: string, key: HistoryKey, delta: int)
    ensures HistoryTotal(AddDelta(history, key, delta), a)
         == HistoryTotal(history, a) + if key.address == a then delta else 0
  {
    var m := map k | k in history && k.address == a :: history[k];
    var after := AddDelta(history, key, delta);
    var m' := map k | k in after && k.address == a :: after[k];
    if key.address == a {
      assert m' == m[key := after[key]];
      MapSumPut(m, key, after[key]);
      if key in m {
        MapSumTake(m, key);
      } else {
        assert m - {key} == m;
      }
    } else {
      assert m' == m;
    }
  }

  lemma {:induction false} HistoryTotalUnion(history: History, part: History, a: string)
    requires history.Keys !! part.Keys
    ensures HistoryTotal(history + part, a) == HistoryTotal(history, a) + HistoryTotal(part, a)
  {
    var m := map k | k in history + part && k.address == a :: (history + part)[k];
    MapSumSplit(m, part.Keys);
    assert m - part.Keys == map k | k in history && k.address == a :: history[k];
    assert (map k | k in m && k in part.Keys :: m[k]) == map k | k in part && k.address == a :: part[k];
  }

  // ----- One transaction -----

  lemma {:induction false} MarkNext(outputs: OutputTable, e: Entry, n: nat)
    requires n < |e.tx.inputs|
    ensures var known, op := Addressed(outputs), e.tx.inputs[n];
            var before, after := Mark(outputs, SpendsUpTo(known, e, n)), Mark(outputs, SpendsUpTo(known, e, n + 1));
            after == if op in known then before[op := outputs[op].(spent := Some(Spend(e.tx.txid, n, e.height)))] else before
  {
  }

  ghost predicate DebitsMatch(outputs: OutputTable, e: Entry, n: nat, a: string)
    requires n <= |e.tx.inputs|
  {
    Confirmed(Mark(outputs, SpendsUpTo(Addressed(outputs), e, n)), a)
      == Confirmed(outputs, a) + HistoryTotal(Debit(map[], Addressed(outputs), e, n), a)
  }

  ghost predicate SpendsUnspent(outputs: OutputTable, e: Entry) {
    Distinct(e.tx.inputs) && forall op :: op in e.tx.inputs && op in Addressed(outputs) ==> outputs[op].spent.None?
  }

  /** What spending `op` takes from the address. */
  function Owed(outputs: OutputTable, op: OutPoint, a: string): int {
    if op in Addressed(outputs) then Pays(outputs[op], a) else 0
  }

  lemma {:induction false} ConfirmedDebit(outputs: OutputTable, e: Entry, k: nat, a: string)
    requires k < |e.tx.inputs| && SpendsUnspent(outputs, e)
    ensures var known := Addressed(outputs);
            Confirmed(Mark(outputs, SpendsUpTo(known, e, k + 1)), a)
            == Confirmed(Mark(outputs, SpendsUpTo(known, e, k)), a) - Owed(outputs, e.tx.inputs[k], a)
  {
    var known, op := Addressed(outputs), e.tx.inputs[k];
    MarkNext(outputs, e, k);
    SpendsKeys(known, e, k);
    hide Confirmed, SpendsUpTo;
    if op in known {
      var before := Mark(outputs, SpendsUpTo(known, e, k));
      assert before[op] == outputs[op];
      ConfirmedPut(before, a, op, outputs[op].(spent := Some(Spend(e.tx.txid, k, e.height))));
    }
  }

  lemma {:induction false} HistoryDebit(outputs: OutputTable, e: Entry, k: nat, a: string)
    requires k < |e.tx.inputs|
    ensures var known := Addressed(outputs);
            HistoryTotal(Debit(map[], known, e, k + 1), a)
            == HistoryTotal(Debit(map[], known, e, k), a) - Owed(outputs, e.tx.inputs[k], a)
  {
    var known, op := Addressed(outputs), e.tx.inputs[k];
    hide HistoryTotal, AddDelta;
    if op in known {
      HistoryTotalDelta(Debit(map[], known, e, k), a, KeyFor(known[op].0, e), -known[op].1);
    }
  }

  lemma {:induction false} DebitNext(outputs: OutputTable, e: Entry, k: nat, a: string)
    requires k < |e.tx.inputs| && SpendsUnspent(outputs, e) && DebitsMatch(outputs, e, k, a)
    ensures DebitsMatch(outputs, e, k + 1, a)
  {
    hide Confirmed, HistoryTotal, Mark, SpendsUpTo, Debit, Addressed, Owed, SpendsUnspent;
    ConfirmedDebit(outputs, e, k, a);
    HistoryDebit(outputs, e, k, a);
  }

  lemma {:induction false} NoDebits(outputs: OutputTable, e: Entry, a: string)
    ensures DebitsMatch(outputs, e, 0, a)
  {
    assert Mark(outputs, map[]) == outputs;
    EmptyBalance(a);
  }

  /** The spends a transaction makes lower the confirmed balances by exactly what it debits. */
  lemma {:induction false} DebitsMatchSpends(outputs: OutputTable, e: Entry, n: nat, a: string)
    requires n <= |e.tx.inputs| && SpendsUnspent(outputs, e)
    ensures DebitsMatch(outputs, e, n, a)
  {
    hide *;
    if n == 0 {
      NoDebits(outputs, e, a);
    } else {
      DebitsMatchSpends(outputs, e, n - 1, a);
      DebitNext(outputs, e, n - 1, a);
    }
  }

  /** What the address loses when a new row replaces the one at `op`. */
  function Replaced(outputs: OutputTable, op: OutPoint, a: string): int {
    if op in outputs then PaysUnspent(outputs[op], a) else 0
  }

  function LostUpTo(outputs: OutputTable, e: Entry, n: nat, a: string): (r: int)
    requires n <= |e.tx.outputs|
    ensures r >= 0
  {
    if n == 0 then 0 else LostUpTo(outputs, e, n - 1, a) + Replaced(outputs, OutPoint(e.tx.txid, n - 1), a)
  }

  ghost predicate CreditsMatch(outputs: OutputTable, e: Entry, h: History, n: nat, a: string)
    requires n <= |e.tx.outputs|
  {
    Confirmed(outputs + NewRows(e, n), a) - Confirmed(outputs, a) + LostUpTo(outputs, e, n, a)
      == HistoryTotal(Credit(h, e, n), a) - HistoryTotal(h, a)
  }

  lemma {:induction false} ConfirmedCredit(outputs: OutputTable, e: Entry, k: nat, a: string)
    requires k < |e.tx.outputs|
    ensures Confirmed(outputs + NewRows(e, k + 1), a) + Replaced(outputs, OutPoint(e.tx.txid, k), a)
         == Confirmed(outputs + NewRows(e, k), a) + PaysUnspent(NewRow(e, k), a)
  {
    hide Confirmed, PaysUnspent;
    var before, op := outputs + NewRows(e, k), OutPoint(e.tx.txid, k);
    assert op !in NewRows(e, k);
    assert outputs + NewRows(e, k + 1) == before[op := NewRow(e, k)];
    ConfirmedPut(before, a, op, NewRow(e, k));
  }

  lemma {:induction false} HistoryCredit(e: Entry, h: History, k: nat, a: string)
    requires k < |e.tx.outputs|
    ensures HistoryTotal(Credit(h, e, k + 1), a) == HistoryTotal(Credit(h, e, k), a) + PaysUnspent(NewRow(e, k), a)
  {
    hide HistoryTotal, AddDelta;
    var out := e.tx.outputs[k];
    if out.script.address.Some? {
      HistoryTotalDelta(Credit(h, e, k), a, KeyFor(out.script.address.value, e), out.value);
    }
  }

  lemma {:induction false} CreditNext(outputs: OutputTable, e: Entry, h: History, k: nat, a: string)
    requires k < |e.tx.outputs| && CreditsMatch(outputs, e, h, k, a)
    ensures CreditsMatch(outputs, e, h, k + 1, a)
  {
    hide Confirmed, HistoryTotal, Credit, NewRows, PaysUnspent, NewRow, Replaced;
    ConfirmedCredit(outputs, e, k, a);
    HistoryCredit(e, h, k, a);
  }

  lemma {:induction false} NoCredits(outputs: OutputTable, e: Entry, h: History, a: string)
    ensures CreditsMatch(outputs, e, h, 0, a)
  {
    assert outputs + NewRows(e, 0) == outputs;
  }

  /** The outputs a transaction makes raise the confirmed balances by exactly what it credits, less what they replace.
      */
  lemma {:induction false} CreditsMatchOutputs(outputs: OutputTable, e: Entry, h: History, n: nat, a: string)
    requires n <= |e.tx.outputs|
    ensures CreditsMatch(outputs, e, h, n, a)
  {
    hide *;
    if n == 0 {
      NoCredits(outputs, e, h, a);
    } else {
      CreditsMatchOutputs(outputs, e, h, n - 1, a);
      CreditNext(outputs, e, h, n - 1, a);
    }
  }

  /** What the address loses to the rows that a transaction replaces, once its own spends are marked. */
  function Lost(t: Tables, e: Entry, a: string): (r: int)
    ensures r >= 0
  {
    LostUpTo(Mark(t.outputs, SpendsOf(Addressed(t.outputs), e)), e, |e.tx.outputs|, a)
  }

  /** The transaction has no history yet. */
  ghost predicate NewToHistory(t: Tables, e: Entry) {
    forall k :: k in t.history ==> !Own(k, e)
  }

  lemma {:induction false} OwnHistory(t: Tables, e: Entry)
    requires NewToHistory(t, e)
    ensures t.history.Keys !! TxHistory(map[], Addressed(t.outputs), e).Keys
  {
    hide TxHistory, Addressed;
    HistoryFrame(map[], Addressed(t.outputs), e);
  }

  /** One transaction moves the history total and the confirmed balance of an address by the same amount, except for
      what was lost to replaced rows. */
  lemma {:induction false} TxMovesBalance(t: Tables, e: Entry, a: string)
    requires SpendsUnspent(t.outputs, e) && NewToHistory(t, e)
    ensures HistoryTotal(IndexTx(t, e).history, a) - HistoryTotal(t.history, a)
         == Confirmed(IndexTx(t, e).outputs, a) - Confirmed(t.outputs, a) + Lost(t, e, a)
  {
    hide Confirmed, HistoryTotal, Mark, Addressed, Debit, Credit, SpendsUnspent, NewToHistory, LostUpTo, NewRows;
    var known := Addressed(t.outputs);
    var marked := Mark(t.outputs, SpendsOf(known, e));
    DebitsMatchSpends(t.outputs, e, |e.tx.inputs|, a);
    CreditsMatchOutputs(marked, e, Debit(map[], known, e, |e.tx.inputs|), |e.tx.outputs|, a);
    OwnHistory(t, e);
    HistoryTotalUnion(t.history, TxHistory(map[], known, e), a);
  }

  /** Every row that the transaction replaces was worth nothing to the address: it paid someone else, or nothing, or was
      spent, at the latest by this transaction. */
  ghost predicate ReplacesNothing(t: Tables, e: Entry, a: string) {
    forall op :: Makes(e, op) && op in t.outputs && t.outputs[op].address == Some(a) && t.outputs[op].value > 0 ==>
      t.outputs[op].spent.Some? || (op in e.tx.inputs && !IsNull(op))
  }

  lemma {:induction false} LostUpToIff(outputs: OutputTable, e: Entry, n: nat, a: string)
    requires n <= |e.tx.outputs|
    ensures LostUpTo(outputs, e, n, a) == 0 <==>
              forall v :: 0 <= v < n ==> Replaced(outputs, OutPoint(e.tx.txid, v), a) == 0
  {
    if n > 0 { LostUpToIff(outputs, e, n - 1, a); }
  }

  lemma {:induction false} ReplacedIff(t: Tables, e: Entry, op: OutPoint, a: string)
    requires Makes(e, op)
    ensures Replaced(Mark(t.outputs, SpendsOf(Addressed(t.outputs), e)), op, a) == 0 <==>
              (op in t.outputs && t.outputs[op].address == Some(a) && t.outputs[op].value > 0 ==>
                 t.outputs[op].spent.Some? || (op in e.tx.inputs && !IsNull(op)))
  {
  }

  /** Nothing is lost exactly when the rows before the insert say so. */
  lemma {:induction false} LostIff(t: Tables, e: Entry, a: string)
    ensures Lost(t, e, a) == 0 <==> ReplacesNothing(t, e, a)
  {
    var marked := Mark(t.outputs, SpendsOf(Addressed(t.outputs), e));
    LostUpToIff(marked, e, |e.tx.outputs|, a);
    hide Mark, Addressed, LostUpTo, Replaced;
    if Lost(t, e, a) == 0 {
      forall op | Makes(e, op) ensures Replaced(marked, op, a) == 0 {
        assert op == OutPoint(e.tx.txid, op.vout);
      }
    }
    forall op | Makes(e, op)
      ensures Replaced(marked, op, a) == 0 <==>
                (op in t.outputs && t.outputs[op].address == Some(a) && t.outputs[op].value > 0 ==>
                   t.outputs[op].spent.Some? || (op in e.tx.inputs && !IsNull(op)))
    {
      ReplacedIff(t, e, op, a);
    }
    if ReplacesNothing(t, e, a) {
      forall v | 0 <= v < |e.tx.outputs| ensures Replaced(marked, OutPoint(e.tx.txid, v), a) == 0 {
        assert Makes(e, OutPoint(e.tx.txid, v));
      }
    }
  }

  // ----- Whole runs -----

  /** Each transaction spends only rows that are still unspent when it comes. */
  ghost predicate RunSpendsUnspent(t: Tables, es: seq<Entry>) {
    forall i :: 0 <= i < |es| ==> SpendsUnspent(IndexEntries(t, es[..i]).outputs, es[i])
  }

  ghost predicate RunIsNew(t: Tables, es: seq<Entry>) {
    OncePerHeight(es) && forall i :: 0 <= i < |es| ==> NewToHistory(t, es[i])
  }

  /** What the address loses over a run. */
  function TotalLost(t: Tables, es: seq<Entry>, a: string): (r: int)
    ensures r >= 0
  {
    if es == [] then 0 else
      var n := |es| - 1;
      TotalLost(t, es[..n], a) + Lost(IndexEntries(t, es[..n]), es[n], a)
  }

  lemma {:induction false} HistoryOrigin(t: Tables, es: seq<Entry>, k: HistoryKey)
    ensures k in IndexEntries(t, es).history ==>
              k in t.history || exists j :: 0 <= j < |es| && Own(k, es[j])
  {
    if es != [] {
      var n := |es| - 1;
      var before := IndexEntries(t, es[..n]);
      HistoryOrigin(t, es[..n], k);
      HistoryFrame(map[], Addressed(before.outputs), es[n]);
      hide TxHistory, Addressed;
      if k in IndexEntries(t, es).history && k !in t.history && !Own(k, es[n]) {
        var j :| 0 <= j < n && Own(k, es[..n][j]);
        assert es[j] == es[..n][j];
      }
    }
  }

  lemma {:induction false} NextIsNew(t: Tables, es: seq<Entry>, i: nat)
    requires RunIsNew(t, es) && i < |es|
    ensures NewToHistory(IndexEntries(t, es[..i]), es[i])
  {
    hide IndexEntries;
    forall k | k in IndexEntries(t, es[..i]).history ensures !Own(k, es[i]) {
      HistoryOrigin(t, es[..i], k);
      if k !in t.history {
        var j :| 0 <= j < |es[..i]| && Own(k, es[..i][j]);
        assert es[..i][j] == es[j];
      }
    }
  }

  lemma {:induction false} RunPrefix(t: Tables, es: seq<Entry>)
    requires es != [] && RunSpendsUnspent(t, es) && RunIsNew(t, es)
    ensures RunSpendsUnspent(t, es[..|es| - 1]) && RunIsNew(t, es[..|es| - 1])
    ensures SpendsUnspent(IndexEntries(t, es[..|es| - 1]).outputs, es[|es| - 1])
    ensures NewToHistory(IndexEntries(t, es[..|es| - 1]), es[|es| - 1])
  {
    hide IndexEntries, SpendsUnspent, NewToHistory;
    var n := |es| - 1;
    NextIsNew(t, es, n);
    forall i | 0 <= i < n ensures SpendsUnspent(IndexEntries(t, es[..n][..i]).outputs, es[..n][i]) {
      assert es[..n][..i] == es[..i];
    }
  }

  /** Over any run the history total of an address moves away from its confirmed balance by exactly what it lost. */
  lemma {:induction false} RunMovesBalance(t: Tables, es: seq<Entry>, a: string)
    requires RunSpendsUnspent(t, es) && RunIsNew(t, es)
    ensures HistoryTotal(IndexEntries(t, es).history, a) - HistoryTotal(t.history, a)
         == Confirmed(IndexEntries(t, es).outputs, a) - Confirmed(t.outputs, a) + TotalLost(t, es, a)
  {
    hide Confirmed, HistoryTotal, IndexTx, Lost, RunSpendsUnspent, RunIsNew, SpendsUnspent, NewToHistory;
    if es != [] {
      var n := |es| - 1;
      RunPrefix(t, es);
      RunMovesBalance(t, es[..n], a);
      TxMovesBalance(IndexEntries(t, es[..n]), es[n], a);
    }
  }

  ghost predicate Balanced(t: Tables, a: string) {
    HistoryTotal(t.history, a) == Confirmed(t.outputs, a)
  }

  ghost predicate RunReplacesNothing(t: Tables, es: seq<Entry>, a: string) {
    forall i :: 0 <= i < |es| ==> ReplacesNothing(IndexEntries(t, es[..i]), es[i], a)
  }

  lemma {:induction false} TotalLostIff(t: Tables, es: seq<Entry>, a: string)
    ensures TotalLost(t, es, a) == 0 <==> RunReplacesNothing(t, es, a)
  {
    hide IndexEntries, Lost, ReplacesNothing;
    if es != [] {
      var n := |es| - 1;
      TotalLostIff(t, es[..n], a);
      LostIff(IndexEntries(t, es[..n]), es[n], a);
      assert forall i :: 0 <= i < n ==> es[..n][..i] == es[..i] && es[..n][i] == es[i];
      if RunReplacesNothing(t, es[..n], a) {
        forall i | 0 <= i < n ensures ReplacesNothing(IndexEntries(t, es[..i]), es[i], a) {
          assert ReplacesNothing(IndexEntries(t, es[..n][..i]), es[..n][i], a);
        }
      }
    }
  }

  /** From balanced tables, a run leaves balanced tables exactly when no row that it replaces was worth anything. */
  lemma {:induction false} BalancedIff(t: Tables, es: seq<Entry>, a: string)
    requires RunSpendsUnspent(t, es) && RunIsNew(t, es) && Balanced(t, a)
    ensures Balanced(IndexEntries(t, es), a) <==> RunReplacesNothing(t, es, a)
  {
    hide IndexEntries, Confirmed, HistoryTotal, RunSpendsUnspent, RunIsNew, RunReplacesNothing, TotalLost;
    RunMovesBalance(t, es, a);
    TotalLostIff(t, es, a);
  }

  lemma {:induction false} EmptyBalance(a: string)
    ensures Balanced(EMPTY, a)
  {
  }

  // ----- Batches -----

  /** Batches committed one after the other. */
  function Batches(t: Tables, bss: seq<seq<(nat, Block)>>): Tables {
    if bss == [] then t else Batch(Batches(t, bss[..|bss| - 1]), bss[|bss| - 1])
  }

  function AllBlocks(bss: seq<seq<(nat, Block)>>): seq<(nat, Block)> {
    if bss == [] then [] else AllBlocks(bss[..|bss| - 1]) + bss[|bss| - 1]
  }

  ghost predicate BatchesCompatible(t: Tables, bss: seq<seq<(nat, Block)>>) {
    forall i :: 0 <= i < |bss| ==> Compatible(Batches(t, bss[..i]), Flatten(bss[i]))
  }

  lemma {:induction false} BatchesAreDirect(t: Tables, bss: seq<seq<(nat, Block)>>)
    requires BatchesCompatible(t, bss)
    ensures Batches(t, bss) == IndexBlocks(t, AllBlocks(bss))
  {
    hide Batch, Compatible, IndexEntries, Flatten, InsertBlocks;
    if bss == [] {
      NoBlocks(t);
    } else {
      var n := |bss| - 1;
      forall i | 0 <= i < n ensures Compatible(Batches(t, bss[..n][..i]), Flatten(bss[..n][i])) {
        assert bss[..n][..i] == bss[..i];
      }
      BatchesAreDirect(t, bss[..n]);
      CompatibleBatch(Batches(t, bss[..n]), bss[n]);
      IndexBlocksAppend(t, AllBlocks(bss[..n]), bss[n]);
    }
  }

  lemma {:induction false} NoBlocks(t: Tables)
    ensures IndexBlocks(t, []) == t
  {
  }

  lemma {:induction false} CompatibleBatch(t: Tables, bs: seq<(nat, Block)>)
    requires Compatible(t, Flatten(bs))
    ensures Batch(t, bs) == IndexBlocks(t, bs)
  {
    hide IndexEntries, Flatten, InsertBlocks, BatchEntries;
    BatchIsDirect(t, Flatten(bs));
  }

  /** However the blocks were batched: the history deltas of an address sum to its unspent outputs plus what it lost,
      and to its unspent outputs exactly when it lost nothing. */
  lemma {:induction false} BatchedBalances(bss: seq<seq<(nat, Block)>>, a: string)
    requires BatchesCompatible(EMPTY, bss)
    requires RunSpendsUnspent(EMPTY, Flatten(AllBlocks(bss))) && OncePerHeight(Flatten(AllBlocks(bss)))
    ensures var t, es := Batches(EMPTY, bss), Flatten(AllBlocks(bss));
            && HistoryTotal(t.history, a) == Confirmed(t.outputs, a) + TotalLost(EMPTY, es, a)
            && (Balanced(t, a) <==> RunReplacesNothing(EMPTY, es, a))
            && Confirmed(t.outputs, a) == TotalReceived(t.outputs, a) - TotalSent(t.outputs, a)
  {
    hide Confirmed, HistoryTotal, IndexEntries, Flatten, InsertBlocks, Batches, RunSpendsUnspent, RunReplacesNothing,
         TotalLost;
    var es := Flatten(AllBlocks(bss));
    BatchesAreDirect(EMPTY, bss);
    EmptyBalance(a);
    RunMovesBalance(EMPTY, es, a);
    BalancedIff(EMPTY, es, a);
    ReceivedIsSentPlusConfirmed(Batches(EMPTY, bss).outputs, a);
  }

  // ----- Chains without repeated txids -----

  ghost predicate DistinctInputs(es: seq<Entry>) {
    forall i :: 0 <= i < |es| ==> Distinct(es[i].tx.inputs)
  }

  lemma {:induction false} NextIsFresh(es: seq<Entry>, p: nat)
    requires ValidEntries(es) && DistinctInputs(es) && p < |es|
    ensures SpendsUnspent(Canon(es, p).outputs, es[p])
    ensures forall a :: ReplacesNothing(Canon(es, p), es[p], a)
  {
    forall op | op in Canon(es, p).outputs ensures op.txid != es[p].tx.txid {
      IndexedTxids(EMPTY, es[..p], op);
      assert forall j :: 0 <= j < p ==> es[..p][j] == es[j];
    }
    CanonSettled(es, p);
  }

  lemma {:induction false} ValidRun(es: seq<Entry>, a: string)
    requires ValidEntries(es) && DistinctInputs(es)
    ensures RunSpendsUnspent(EMPTY, es) && RunIsNew(EMPTY, es) && RunReplacesNothing(EMPTY, es, a)
  {
    forall i | 0 <= i < |es|
      ensures SpendsUnspent(IndexEntries(EMPTY, es[..i]).outputs, es[i])
      ensures ReplacesNothing(IndexEntries(EMPTY, es[..i]), es[i], a)
    {
      NextIsFresh(es, i);
    }
  }

  /** Where no txid occurs twice, the sum of an address's history deltas equals the sum of its unspent outputs, and both
      equal what it received less what it sent. */
  lemma {:induction false} BalancesAgree(es: seq<Entry>, a: string)
    requires ValidEntries(es) && DistinctInputs(es)
    ensures var t := IndexEntries(EMPTY, es);
            HistoryTotal(t.history, a) == Confirmed(t.outputs, a) == TotalReceived(t.outputs, a) - TotalSent(t.outputs, a)
  {
    hide ValidEntries, DistinctInputs, IndexEntries, Confirmed, HistoryTotal, RunSpendsUnspent, RunReplacesNothing,
         RunIsNew;
    ValidRun(es, a);
    EmptyBalance(a);
    BalancedIff(EMPTY, es, a);
    ReceivedIsSentPlusConfirmed(IndexEntries(EMPTY, es).outputs, a);
  }
}
