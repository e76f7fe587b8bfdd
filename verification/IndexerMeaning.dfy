/** What the four tables say about a chain without repeated txids, row by row. */
module IndexerMeaning {
  import opened Bitcoin
  import opened IndexerTables
  import opened IndexerBatch
  import opened IndexerChain
  import opened IndexerBalance
  import opened IndexerReceipts

  // ----- Blocks and transactions -----

  ghost predicate ApartBlocks(bs: seq<(nat, Block)>) {
    forall i, j :: 0 <= i < j < |bs| ==> bs[i].0 != bs[j].0 && bs[i].1.hash != bs[j].1.hash
  }

  /** A row per block, with its hash and time. */
  lemma {:induction false} BlockOfChain(bs: seq<(nat, Block)>, i: nat)
    requires ApartBlocks(bs) && i < |bs|
    ensures var blocks := InsertBlocks(map[], bs);
            bs[i].0 in blocks && blocks[bs[i].0] == BlockRow(bs[i].1.hash, bs[i].1.time)
    decreases |bs|
  {
    var n := |bs| - 1;
    if i < n {
      assert bs[i].0 != bs[n].0 && bs[i].1.hash != bs[n].1.hash;
      assert forall j :: 0 <= j < n ==> bs[..n][j] == bs[j];
      BlockOfChain(bs[..n], i);
    }
  }

  /** ... and no other rows. */
  lemma {:induction false} BlockIsOfChain(bs: seq<(nat, Block)>, h: nat)
    requires h in InsertBlocks(map[], bs)
    ensures exists i :: 0 <= i < |bs| && bs[i].0 == h
    decreases |bs|
  {
    var n := |bs| - 1;
    if h != bs[n].0 {
      BlockIsOfChain(bs[..n], h);
      var i :| 0 <= i < n && bs[..n][i].0 == h;
      assert bs[i].0 == h;
    }
  }

  lemma {:induction false} TxsAfter(es: seq<Entry>)
    requires es != []
    ensures var e := es[|es| - 1];
            IndexEntries(EMPTY, es).txs == IndexEntries(EMPTY, es[..|es| - 1]).txs[e.tx.txid := TxRow(e.height, e.index)]
  {
    IndexLast(EMPTY, es);
    hide IndexEntries, AllNewRows, SpendsOf, Addressed, Mark, TxHistory;
  }

  /** A row per transaction, with its block and its place there. */
  lemma {:induction false} TxOfChain(es: seq<Entry>, i: nat)
    requires DistinctEntries(es) && i < |es|
    ensures var txs := IndexEntries(EMPTY, es).txs;
            es[i].tx.txid in txs && txs[es[i].tx.txid] == TxRow(es[i].height, es[i].index)
    decreases |es|
  {
    hide IndexEntries;
    var n := |es| - 1;
    TxsAfter(es);
    if i < n {
      assert es[i].tx.txid != es[n].tx.txid;
      assert forall j :: 0 <= j < n ==> es[..n][j] == es[j];
      TxOfChain(es[..n], i);
    }
  }

  /** ... and no other rows. */
  lemma {:induction false} TxIsOfChain(es: seq<Entry>, txid: Txid)
    requires txid in IndexEntries(EMPTY, es).txs
    ensures exists i :: 0 <= i < |es| && es[i].tx.txid == txid
    decreases |es|
  {
    if es != [] {
      hide IndexEntries;
      var n := |es| - 1;
      TxsAfter(es);
      if txid != es[n].tx.txid {
        TxIsOfChain(es[..n], txid);
        var i :| 0 <= i < n && es[..n][i].tx.txid == txid;
        assert es[i].tx.txid == txid;
      }
    }
  }

  /** The entries of a block list are its transactions, each with the height of its block and its place there. */
  lemma {:induction false} EntriesHave(bs: seq<(nat, Block)>, b: nat, i: nat) returns (p: nat)
    requires b < |bs| && i < |bs[b].1.txs|
    ensures p < |Flatten(bs)| && Flatten(bs)[p] == Entry(bs[b].0, i, bs[b].1.txs[i])
    decreases |bs|
  {
    var n := |bs| - 1;
    if b == n {
      p := |Flatten(bs[..n])| + i;
    } else {
      p := EntriesHave(bs[..n], b, i);
    }
  }

  lemma {:induction false} EntriesAre(bs: seq<(nat, Block)>, p: nat) returns (b: nat, i: nat)
    requires p < |Flatten(bs)|
    ensures b < |bs| && i < |bs[b].1.txs| && Flatten(bs)[p] == Entry(bs[b].0, i, bs[b].1.txs[i])
    decreases |bs|
  {
    var n := |bs| - 1;
    if p < |Flatten(bs[..n])| {
      b, i := EntriesAre(bs[..n], p);
    } else {
      b, i := n, p - |Flatten(bs[..n])|;
    }
  }

  // ----- Spends -----

  lemma {:induction false} SpendAt(known: Known, e: Entry, k: nat, n: nat)
    requires k < n <= |e.tx.inputs| && e.tx.inputs[k] in known && Distinct(e.tx.inputs)
    ensures e.tx.inputs[k] in SpendsUpTo(known, e, n)
    ensures SpendsUpTo(known, e, n)[e.tx.inputs[k]] == Spend(e.tx.txid, k, e.height)
  {
    if k < n - 1 {
      SpendAt(known, e, k, n - 1);
      assert e.tx.inputs[k] != e.tx.inputs[n - 1];
    }
  }

  lemma {:induction false} SettledInChain(es: seq<Entry>, j: nat)
    requires ValidEntries(es) && j < |es|
    ensures Settled(IndexEntries(EMPTY, es), es[j])
  {
    assert es[..|es|] == es;
    CanonSettled(es, |es|);
  }

  lemma {:induction false} MarkIsSpend(t: Tables, e: Entry, op: OutPoint)
    requires Settled(t, e) && op in SpendsUpTo(Addressed(t.outputs), e, |e.tx.inputs|)
    ensures op in t.outputs
    ensures t.outputs[op].spent == Some(SpendsUpTo(Addressed(t.outputs), e, |e.tx.inputs|)[op])
  {
    hide SpendsUpTo, Addressed, TxHistory, Includes;
    assert op in SpendsOf(Addressed(t.outputs), e);
  }

  /** The mark on an output names the transaction that spends it, which of its inputs, and its height. */
  lemma {:induction false} SpendOfChain(es: seq<Entry>, i: nat, op: OutPoint, j: nat, k: nat)
    requires ValidEntries(es) && DistinctInputs(es) && i < |es| && Makes(es[i], op) && !IsNull(op)
    requires es[i].tx.outputs[op.vout].script.address.Some?
    requires j < |es| && k < |es[j].tx.inputs| && es[j].tx.inputs[k] == op
    ensures var t := IndexEntries(EMPTY, es);
            op in t.outputs && t.outputs[op].spent == Some(Spend(es[j].tx.txid, k, es[j].height))
  {
    var t := IndexEntries(EMPTY, es);
    assert Distinct(es[j].tx.inputs);
    hide ValidEntries, DistinctInputs, IndexEntries;
    RowOfChain(es, i, op);
    SettledInChain(es, j);
    SpendAt(Addressed(t.outputs), es[j], k, |es[j].tx.inputs|);
    hide SpendsUpTo;
    MarkIsSpend(t, es[j], op);
  }

  /** The outputs table after the chain: exactly the outputs of the chain, as they are; an output that pays an address is
      marked with the input that spends it, if there is one, and all others are unmarked. */
  lemma {:induction false} OutputsOfChain(es: seq<Entry>, op: OutPoint)
    requires ValidEntries(es) && DistinctInputs(es)
    ensures var outputs := IndexEntries(EMPTY, es).outputs;
            && (op in outputs <==> MadeBy(es, op))
            && forall i :: 0 <= i < |es| && Makes(es[i], op) ==>
                 && outputs[op].(spent := None)
                    == OutputRow(es[i].tx.outputs[op.vout].script.address, es[i].tx.outputs[op.vout].value,
                                 es[i].tx.outputs[op.vout].script, es[i].height, None)
                 && (outputs[op].spent.Some? <==> es[i].tx.outputs[op.vout].script.address.Some? && Named(es, op))
                 && forall j, k :: (&& outputs[op].spent.Some? && 0 <= j < |es| && 0 <= k < |es[j].tx.inputs|
                                    && es[j].tx.inputs[k] == op) ==>
                      outputs[op].spent == Some(Spend(es[j].tx.txid, k, es[j].height))
  {
    hide ValidEntries, DistinctInputs, IndexEntries, Named;
    var outputs := IndexEntries(EMPTY, es).outputs;
    RowsOfChain(es, op);
    forall i | 0 <= i < |es| && Makes(es[i], op)
      ensures op in outputs
      ensures outputs[op].(spent := None)
              == OutputRow(es[i].tx.outputs[op.vout].script.address, es[i].tx.outputs[op.vout].value,
                           es[i].tx.outputs[op.vout].script, es[i].height, None)
      ensures outputs[op].spent.Some? <==> es[i].tx.outputs[op.vout].script.address.Some? && Named(es, op)
      ensures forall j, k :: (&& outputs[op].spent.Some? && 0 <= j < |es| && 0 <= k < |es[j].tx.inputs|
                              && es[j].tx.inputs[k] == op) ==>
                outputs[op].spent == Some(Spend(es[j].tx.txid, k, es[j].height))
    {
      RowOfChain(es, i, op);
      forall j, k | (&& outputs[op].spent.Some? && 0 <= j < |es| && 0 <= k < |es[j].tx.inputs|
                     && es[j].tx.inputs[k] == op)
        ensures outputs[op].spent == Some(Spend(es[j].tx.txid, k, es[j].height))
      {
        assert !IsNull(op) by { NamedIsReal(es, op); }
        SpendOfChain(es, i, op, j, k);
      }
    }
  }

  lemma {:induction false} NamedIsReal(es: seq<Entry>, op: OutPoint)
    requires Named(es, op)
    ensures !IsNull(op)
  {
  }

  // ----- Address history -----

  /** What the chain pays the address with `op`. */
  function ChainPays(es: seq<Entry>, op: OutPoint, a: string): nat {
    if es == [] then 0 else
      var e := es[|es| - 1];
      if Makes(e, op) then if e.tx.outputs[op.vout].script.address == Some(a) then e.tx.outputs[op.vout].value else 0
      else ChainPays(es[..|es| - 1], op, a)
  }

  /** What the inputs take from the address. */
  function InputsTake(es: seq<Entry>, inputs: seq<OutPoint>, a: string): nat {
    if inputs == [] then 0 else
      var op := inputs[|inputs| - 1];
      InputsTake(es, inputs[..|inputs| - 1], a) + if IsNull(op) then 0 else ChainPays(es, op, a)
  }

  lemma {:induction false} ChainPaysAt(es: seq<Entry>, i: nat, op: OutPoint, a: string)
    requires DistinctEntries(es) && i < |es| && Makes(es[i], op)
    ensures ChainPays(es, op, a)
         == if es[i].tx.outputs[op.vout].script.address == Some(a) then es[i].tx.outputs[op.vout].value else 0
    decreases |es|
  {
    var n := |es| - 1;
    if i < n {
      assert es[i].tx.txid != es[n].tx.txid;
      assert forall j :: 0 <= j < n ==> es[..n][j] == es[j];
      ChainPaysAt(es[..n], i, op, a);
    }
  }

  lemma {:induction false} ChainPaysNothing(es: seq<Entry>, op: OutPoint, a: string)
    requires !MadeBy(es, op)
    ensures ChainPays(es, op, a) == 0
    decreases |es|
  {
    if es != [] {
      MadeByPush(es, op);
      ChainPaysNothing(es[..|es| - 1], op, a);
    }
  }

  function KnownPays(known: Known, op: OutPoint, a: string): int {
    if op in known && known[op].0 == a then known[op].1 else 0
  }

  function KnownTake(known: Known, inputs: seq<OutPoint>, a: string): int {
    if inputs == [] then 0 else
      KnownTake(known, inputs[..|inputs| - 1], a) + KnownPays(known, inputs[|inputs| - 1], a)
  }

  lemma {:induction false} KnownIsChain(es: seq<Entry>, op: OutPoint, a: string)
    requires ValidEntries(es)
    ensures KnownPays(Addressed(IndexEntries(EMPTY, es).outputs), op, a) == if IsNull(op) then 0 else ChainPays(es, op, a)
  {
    hide ValidEntries, IndexEntries;
    RowsOfChain(es, op);
    if MadeBy(es, op) {
      var i: nat :| i < |es| && Makes(es[i], op);
      RowOfChain(es, i, op);
      assert DistinctEntries(es) by { ValidIsDistinct(es); }
      ChainPaysAt(es, i, op, a);
    } else {
      ChainPaysNothing(es, op, a);
    }
  }

  lemma {:induction false} ValidIsDistinct(es: seq<Entry>)
    requires ValidEntries(es)
    ensures DistinctEntries(es)
  {
  }

  lemma {:induction false} KnownTakeIsChain(es: seq<Entry>, inputs: seq<OutPoint>, a: string)
    requires ValidEntries(es)
    ensures KnownTake(Addressed(IndexEntries(EMPTY, es).outputs), inputs, a) == InputsTake(es, inputs, a)
    decreases |inputs|
  {
    hide ValidEntries, IndexEntries, KnownPays, ChainPays, Addressed;
    if inputs != [] {
      KnownTakeIsChain(es, inputs[..|inputs| - 1], a);
      KnownIsChain(es, inputs[|inputs| - 1], a);
    }
  }

  function At(h: History, key: HistoryKey): int {
    if key in h then h[key] else 0
  }

  lemma {:induction false} DebitAt(h: History, known: Known, e: Entry, n: nat, a: string)
    requires n <= |e.tx.inputs|
    ensures var key, r := HistoryKey(a, e.height, e.tx.txid), Debit(h, known, e, n);
            && At(r, key) == At(h, key) - KnownTake(known, e.tx.inputs[..n], a)
            && (key in r <==> key in h || exists op :: op in e.tx.inputs[..n] && op in known && known[op].0 == a)
  {
    if n > 0 {
      DebitAt(h, known, e, n - 1, a);
      var op, before, after := e.tx.inputs[n - 1], e.tx.inputs[..n - 1], e.tx.inputs[..n];
      assert after[..n - 1] == before && after == before + [op];
      assert op in after;
      forall x | x in before ensures x in after {}
    }
  }

  lemma {:induction false} CreditAt(h: History, e: Entry, n: nat, a: string)
    requires n <= |e.tx.outputs|
    ensures var key, r := HistoryKey(a, e.height, e.tx.txid), Credit(h, e, n);
            && At(r, key) == At(h, key) + PaidTo(e.tx.outputs[..n], a)
            && (key in r <==> key in h || exists v :: 0 <= v < n && e.tx.outputs[v].script.address == Some(a))
  {
    if n > 0 {
      CreditAt(h, e, n - 1, a);
      assert e.tx.outputs[..n][..n - 1] == e.tx.outputs[..n - 1];
    }
  }

  /** The transaction pays the address or spends an output of the chain that paid it. */
  ghost predicate Touches(es: seq<Entry>, e: Entry, a: string) {
    || (exists v :: 0 <= v < |e.tx.outputs| && e.tx.outputs[v].script.address == Some(a))
    || (exists op, i :: (&& op in e.tx.inputs && !IsNull(op) && 0 <= i < |es| && Makes(es[i], op)
                         && es[i].tx.outputs[op.vout].script.address == Some(a)))
  }

  lemma {:induction false} DeltaAt(known: Known, e: Entry, a: string)
    ensures var key, r := HistoryKey(a, e.height, e.tx.txid), TxHistory(map[], known, e);
            && At(r, key) == PaidTo(e.tx.outputs, a) - KnownTake(known, e.tx.inputs, a)
            && (key in r <==>
                  || (exists v :: 0 <= v < |e.tx.outputs| && e.tx.outputs[v].script.address == Some(a))
                  || (exists op :: op in e.tx.inputs && op in known && known[op].0 == a))
  {
    hide Debit, Credit, PaidTo, KnownTake;
    assert e.tx.inputs[..|e.tx.inputs|] == e.tx.inputs && e.tx.outputs[..|e.tx.outputs|] == e.tx.outputs;
    DebitAt(map[], known, e, |e.tx.inputs|, a);
    CreditAt(Debit(map[], known, e, |e.tx.inputs|), e, |e.tx.outputs|, a);
  }

  /** The history holds nothing for `e` but its own deltas. */
  ghost predicate Exact(t: Tables, e: Entry) {
    forall k :: k in t.history && Own(k, e) ==> k in TxHistory(map[], Addressed(t.outputs), e)
  }

  lemma {:induction false} ExactNow(t: Tables, e: Entry)
    requires NewToHistory(t, e) && forall op :: op in e.tx.inputs ==> !Makes(e, op)
    ensures Exact(IndexTx(t, e), e)
  {
    hide TxHistory, Addressed, Mark, AllNewRows, SpendsOf;
    KnownStays(t, e, e);
    EffectDependsOnInputs(e, Addressed(t.outputs), Addressed(IndexTx(t, e).outputs));
  }

  lemma {:induction false} ExactStays(t: Tables, e: Entry, next: Entry)
    requires Exact(t, e) && next.tx.txid != e.tx.txid && forall op :: op in e.tx.inputs ==> !Makes(next, op)
    ensures Exact(IndexTx(t, next), e)
  {
    hide TxHistory, Addressed, Mark, AllNewRows, SpendsOf;
    KnownStays(t, e, next);
    EffectDependsOnInputs(e, Addressed(t.outputs), Addressed(IndexTx(t, next).outputs));
    HistoryFrame(map[], Addressed(t.outputs), next);
  }

  lemma {:induction false} ExactHistory(es: seq<Entry>, p: nat, i: nat)
    requires ValidEntries(es) && i < p <= |es|
    ensures Exact(Canon(es, p), es[i])
    decreases p
  {
    var k := p - 1;
    CanonNext(es, k);
    hide Canon, Exact;
    if i == k {
      assert NewToHistory(Canon(es, k), es[k]) by { NextHasNoHistory(es, k); }
      ExactNow(Canon(es, k), es[k]);
    } else {
      ExactHistory(es, k, i);
      ExactStays(Canon(es, k), es[i], es[k]);
    }
    assert k + 1 == p;
  }

  lemma {:induction false} NextHasNoHistory(es: seq<Entry>, k: nat)
    requires ValidEntries(es) && k < |es|
    ensures NewToHistory(Canon(es, k), es[k])
  {
    assert RunIsNew(EMPTY, es);
    NextIsNew(EMPTY, es, k);
  }

  lemma {:induction false} KnownTouches(es: seq<Entry>, e: Entry, a: string)
    requires ValidEntries(es)
    ensures var known := Addressed(IndexEntries(EMPTY, es).outputs);
            (exists op :: op in e.tx.inputs && op in known && known[op].0 == a) <==>
            (exists op, i :: (&& op in e.tx.inputs && !IsNull(op) && 0 <= i < |es| && Makes(es[i], op)
                              && es[i].tx.outputs[op.vout].script.address == Some(a)))
  {
    hide ValidEntries, IndexEntries;
    var known := Addressed(IndexEntries(EMPTY, es).outputs);
    if op :| op in e.tx.inputs && op in known && known[op].0 == a {
      RowsOfChain(es, op);
      var i: nat :| i < |es| && Makes(es[i], op);
      RowOfChain(es, i, op);
    }
    if op, i :| (&& op in e.tx.inputs && !IsNull(op) && 0 <= i < |es| && Makes(es[i], op)
                 && es[i].tx.outputs[op.vout].script.address == Some(a)) {
      RowOfChain(es, i, op);
      assert op in known;
    }
  }

  /** The history row of a transaction for an address: there is one exactly when the transaction pays the address or spends
      from it, and its delta is what the outputs pay the address less what the inputs take from it. */
  lemma {:induction false} HistoryOfChain(es: seq<Entry>, i: nat, a: string)
    requires ValidEntries(es) && i < |es|
    ensures var history, key := IndexEntries(EMPTY, es).history, HistoryKey(a, es[i].height, es[i].tx.txid);
            && (key in history <==> Touches(es, es[i], a))
            && At(history, key) == PaidTo(es[i].tx.outputs, a) - InputsTake(es, es[i].tx.inputs, a)
  {
    var t, key := IndexEntries(EMPTY, es), HistoryKey(a, es[i].height, es[i].tx.txid);
    hide ValidEntries, IndexEntries, TxHistory, PaidTo, InputsTake, KnownTake, Addressed, SpendsOf;
    SettledInChain(es, i);
    assert es[..|es|] == es;
    ExactHistory(es, |es|, i);
    assert Own(key, es[i]);
    DeltaAt(Addressed(t.outputs), es[i], a);
    KnownTouches(es, es[i], a);
    KnownTakeIsChain(es, es[i].tx.inputs, a);
  }

  /** There are no other history rows. */
  lemma {:induction false} HistoryIsOfChain(es: seq<Entry>, k: HistoryKey)
    requires k in IndexEntries(EMPTY, es).history
    ensures exists i :: 0 <= i < |es| && k == HistoryKey(k.address, es[i].height, es[i].tx.txid)
  {
    HistoryOrigin(EMPTY, es, k);
    var j :| 0 <= j < |es| && Own(k, es[j]);
    assert k == HistoryKey(k.address, es[j].height, es[j].tx.txid);
  }
}
