/** What the tables hold after a valid chain, and tables that are being indexed a second time. */
module IndexerChain {
  import opened Bitcoin
  import opened IndexerTables
  import opened IndexerBatch

  /** Distinct txids, no outpoint spent twice, and inputs that only name outputs of earlier transactions. */
  ghost predicate ValidEntries(es: seq<Entry>) {
    && DistinctEntries(es)
    && (forall i, j, op :: 0 <= i < j < |es| && op in es[i].tx.inputs && op in es[j].tx.inputs ==> IsNull(op))
    && (forall i, j, op :: 0 <= i <= j < |es| && op in es[i].tx.inputs ==> !Makes(es[j], op))
  }

  lemma {:induction false} ValidPrefix(es: seq<Entry>, p: nat)
    requires ValidEntries(es) && p <= |es|
    ensures ValidEntries(es[..p])
  {
    assert forall i :: 0 <= i < p ==> es[..p][i] == es[i];
  }

  /** The tables after the first `p` transactions of the chain. */
  function Canon(es: seq<Entry>, p: nat): Tables
    requires p <= |es|
  {
    IndexEntries(EMPTY, es[..p])
  }

  lemma {:induction false} CanonNext(es: seq<Entry>, p: nat)
    requires p < |es|
    ensures Canon(es, p + 1) == IndexTx(Canon(es, p), es[p])
  {
    assert es[..p + 1][..p] == es[..p];
  }

  // ----- A transaction that the tables already account for -----

  ghost predicate SameFor(e: Entry, a: Known, b: Known) {
    forall op :: op in e.tx.inputs ==> (op in a <==> op in b) && (op in a ==> a[op] == b[op])
  }

  lemma {:induction false} SpendsDependOnInputs(e: Entry, a: Known, b: Known, n: nat)
    requires SameFor(e, a, b) && n <= |e.tx.inputs|
    ensures SpendsUpTo(a, e, n) == SpendsUpTo(b, e, n)
  {
    if n > 0 { SpendsDependOnInputs(e, a, b, n - 1); }
  }

  lemma {:induction false} DebitDependsOnInputs(e: Entry, a: Known, b: Known, n: nat)
    requires SameFor(e, a, b) && n <= |e.tx.inputs|
    ensures Debit(map[], a, e, n) == Debit(map[], b, e, n)
  {
    if n > 0 { DebitDependsOnInputs(e, a, b, n - 1); }
  }

  /** Spends and history of a transaction depend only on what is known about its own inputs. */
  lemma {:induction false} EffectDependsOnInputs(e: Entry, a: Known, b: Known)
    requires SameFor(e, a, b)
    ensures SpendsOf(a, e) == SpendsOf(b, e) && TxHistory(map[], a, e) == TxHistory(map[], b, e)
  {
    SpendsDependOnInputs(e, a, b, |e.tx.inputs|);
    DebitDependsOnInputs(e, a, b, |e.tx.inputs|);
  }

  ghost predicate Includes(history: History, part: History) {
    forall k :: k in part ==> k in history && history[k] == part[k]
  }

  /** The rows, marks and history of `e` are all in the tables. */
  ghost predicate Settled(t: Tables, e: Entry) {
    var known := Addressed(t.outputs);
    && e.tx.txid in t.txs && t.txs[e.tx.txid] == TxRow(e.height, e.index)
    && (forall op :: Makes(e, op) ==> op in t.outputs && t.outputs[op].(spent := None) == NewRow(e, op.vout))
    && (forall op :: op in SpendsOf(known, e) ==> op in t.outputs && t.outputs[op].spent == Some(SpendsOf(known, e)[op]))
    && Includes(t.history, TxHistory(map[], known, e))
  }

  lemma {:induction false} KnownStays(t: Tables, e: Entry, next: Entry)
    requires forall op :: op in e.tx.inputs ==> !Makes(next, op)
    ensures SameFor(e, Addressed(t.outputs), Addressed(IndexTx(t, next).outputs))
  {
  }

  lemma {:induction false} SettledNow(t: Tables, e: Entry)
    requires forall op :: op in e.tx.inputs ==> !Makes(e, op)
    ensures Settled(IndexTx(t, e), e)
  {
    var after := IndexTx(t, e);
    KnownStays(t, e, e);
    EffectDependsOnInputs(e, Addressed(t.outputs), Addressed(after.outputs));
    forall op | Makes(e, op) ensures op in after.outputs && after.outputs[op].(spent := None) == NewRow(e, op.vout) {
      OutputAfter(t, e, op);
    }
    var spends := SpendsOf(Addressed(t.outputs), e);
    forall op | op in spends ensures op in after.outputs && after.outputs[op].spent == Some(spends[op]) {
      OutputAfter(t, e, op);
    }
  }

  lemma {:induction false} SettledStays(t: Tables, e: Entry, next: Entry)
    requires Settled(t, e) && next.tx.txid != e.tx.txid
    requires forall op :: op in e.tx.inputs ==> !Makes(next, op) && (op in next.tx.inputs ==> IsNull(op))
    ensures Settled(IndexTx(t, next), e)
  {
    var after := IndexTx(t, next);
    KnownStays(t, e, next);
    EffectDependsOnInputs(e, Addressed(t.outputs), Addressed(after.outputs));
    forall op | Makes(e, op) ensures op in after.outputs && after.outputs[op].(spent := None) == NewRow(e, op.vout) {
      OutputAfter(t, next, op);
    }
    var spends := SpendsOf(Addressed(t.outputs), e);
    forall op | op in spends ensures op in after.outputs && after.outputs[op].spent == Some(spends[op]) {
      OutputAfter(t, next, op);
    }
    SettledHistory(t, e, next);
  }

  lemma {:induction false} SettledHistory(t: Tables, e: Entry, next: Entry)
    requires next.tx.txid != e.tx.txid && Includes(t.history, TxHistory(map[], Addressed(t.outputs), e))
    ensures Includes(IndexTx(t, next).history, TxHistory(map[], Addressed(t.outputs), e))
  {
    HistoryFrame(map[], Addressed(t.outputs), e);
    HistoryFrame(map[], Addressed(t.outputs), next);
  }

  /** Marks are only on addressed outputs, and only on outputs that some transaction names. */
  ghost predicate MarksExplained(t: Tables, es: seq<Entry>, p: nat)
    requires p <= |es|
  {
    forall op :: op in t.outputs && t.outputs[op].spent.Some? ==>
      op in Addressed(t.outputs) && exists i :: 0 <= i < p && op in es[i].tx.inputs
  }

  ghost predicate AllSettled(t: Tables, es: seq<Entry>, p: nat)
    requires p <= |es|
  {
    forall q :: 0 <= q < p ==> Settled(t, es[q])
  }

  lemma {:induction false} SettledStep(t: Tables, es: seq<Entry>, p: nat)
    requires ValidEntries(es) && p < |es| && AllSettled(t, es, p)
    ensures AllSettled(IndexTx(t, es[p]), es, p + 1)
  {
    SettledNow(t, es[p]);
    forall q | 0 <= q < p ensures Settled(IndexTx(t, es[p]), es[q]) {
      assert forall op :: op in es[q].tx.inputs ==> !Makes(es[p], op);
      SettledStays(t, es[q], es[p]);
    }
  }

  lemma {:induction false} MarksStep(t: Tables, es: seq<Entry>, p: nat)
    requires p < |es| && MarksExplained(t, es, p)
    ensures MarksExplained(IndexTx(t, es[p]), es, p + 1)
  {
  }

  ghost predicate Accounted(t: Tables, es: seq<Entry>, p: nat)
    requires p <= |es|
  {
    AllSettled(t, es, p) && MarksExplained(t, es, p)
  }

  lemma {:induction false} AccountedStep(t: Tables, es: seq<Entry>, p: nat)
    requires ValidEntries(es) && p < |es| && Accounted(t, es, p)
    ensures Accounted(IndexTx(t, es[p]), es, p + 1)
  {
    SettledStep(t, es, p);
    MarksStep(t, es, p);
  }

  lemma {:induction false} CanonAccounted(es: seq<Entry>, p: nat)
    requires ValidEntries(es) && p <= |es|
    ensures Accounted(Canon(es, p), es, p)
    decreases p
  {
    if p > 0 {
      var k := p - 1;
      CanonAccounted(es, k);
      AccountedStep(Canon(es, k), es, k);
      CanonNext(es, k);
      assert Accounted(Canon(es, k + 1), es, k + 1);
    }
  }

  /** On a valid chain every indexed transaction stays settled, and every mark is explained. */
  lemma {:induction false} CanonSettled(es: seq<Entry>, p: nat)
    requires ValidEntries(es) && p <= |es|
    ensures AllSettled(Canon(es, p), es, p) && MarksExplained(Canon(es, p), es, p)
  {
    CanonAccounted(es, p);
  }

  // ----- Tables that are being indexed a second time -----

  predicate RowAgrees(row: OutputRow, canonical: OutputRow) {
    row == canonical || row == canonical.(spent := None)
  }

  /** No transaction before `q` names the outpoint. */
  ghost predicate UnspentBefore(es: seq<Entry>, q: nat, op: OutPoint)
    requires q <= |es|
  {
    forall i :: 0 <= i < q ==> op !in es[i].tx.inputs
  }

  ghost predicate RowOk(row: OutputRow, canonical: OutputRow, es: seq<Entry>, q: nat, op: OutPoint)
    requires q <= |es|
  {
    RowAgrees(row, canonical) && (row == canonical || UnspentBefore(es, q, op))
  }

  /** The tables `t` agree with the canonical tables `c`, except that an output re-inserted by a second pass may have
      lost its spend mark, and then no transaction before `q`, where the second pass stands, spends it. */
  ghost predicate Agrees(t: Tables, c: Tables, es: seq<Entry>, q: nat)
    requires q <= |es|
  {
    && t.txs == c.txs && t.history == c.history && t.outputs.Keys == c.outputs.Keys
    && forall op :: op in c.outputs ==> RowOk(t.outputs[op], c.outputs[op], es, q, op)
  }

  ghost predicate HalfDone(t: Tables, es: seq<Entry>, q: nat, p: nat)
    requires q <= p <= |es|
  {
    Agrees(t, Canon(es, p), es, q)
  }

  /** A second pass may start over from any earlier point. */
  lemma {:induction false} RestartHalfDone(t: Tables, es: seq<Entry>, q: nat, q': nat, p: nat)
    requires q' <= q <= p <= |es| && HalfDone(t, es, q, p)
    ensures HalfDone(t, es, q', p)
  {
  }

  lemma {:induction false} SameKnown(t: Tables, c: Tables, es: seq<Entry>, q: nat)
    requires q <= |es| && Agrees(t, c, es, q)
    ensures Addressed(t.outputs) == Addressed(c.outputs)
  {
  }

  /** When the second pass has caught up, nothing is missing. */
  lemma {:induction false} NothingLost(t: Tables, c: Tables, es: seq<Entry>, p: nat)
    requires p <= |es| && Agrees(t, c, es, p) && MarksExplained(c, es, p)
    ensures t.outputs == c.outputs
  {
  }

  lemma {:induction false} CaughtUp(t: Tables, es: seq<Entry>, p: nat)
    requires ValidEntries(es) && p <= |es| && HalfDone(t, es, p, p)
    ensures t.(blocks := map[]) == Canon(es, p)
  {
    CanonSettled(es, p);
    NothingLost(t, Canon(es, p), es, p);
    BlocksIndependent(EMPTY, map[], es[..p]);
  }

  ghost predicate NotSpentUpTo(es: seq<Entry>, q: nat)
    requires q < |es|
  {
    forall op :: Makes(es[q], op) ==> UnspentBefore(es, q + 1, op)
  }

  lemma {:induction false} ReindexRow(t: Tables, c: Tables, es: seq<Entry>, q: nat, p: nat, op: OutPoint)
    requires q < p <= |es| && Agrees(t, c, es, q) && op in c.outputs
    requires Settled(c, es[q]) && MarksExplained(c, es, p) && NotSpentUpTo(es, q)
    requires Addressed(t.outputs) == Addressed(c.outputs)
    ensures op in IndexTx(t, es[q]).outputs && RowOk(IndexTx(t, es[q]).outputs[op], c.outputs[op], es, q + 1, op)
  {
    var e := es[q];
    OutputAfter(t, e, op);
    assert RowOk(t.outputs[op], c.outputs[op], es, q, op);
    hide IndexTx, TxHistory, Includes, SpendsOf, NewRow, Agrees;
    if Makes(e, op) {
      assert UnspentBefore(es, q + 1, op);
    } else if op in SpendsOf(Addressed(c.outputs), e) {
      assert IndexTx(t, e).outputs[op] == c.outputs[op];
    } else if t.outputs[op] != c.outputs[op] {
      assert op in Addressed(c.outputs) && op !in e.tx.inputs;
    }
  }

  lemma {:induction false} HistoryUnchanged(history: History, part: History)
    requires Includes(history, part)
    ensures history + part == history
  {
  }

  lemma {:induction false} ReindexTables(t: Tables, c: Tables, es: seq<Entry>, q: nat, p: nat)
    requires q < p <= |es| && Agrees(t, c, es, q)
    requires Settled(c, es[q]) && MarksExplained(c, es, p) && NotSpentUpTo(es, q)
    ensures Agrees(IndexTx(t, es[q]), c, es, q + 1)
  {
    var e := es[q];
    var after := IndexTx(t, e);
    SameKnown(t, c, es, q);
    forall op ensures op in after.outputs <==> op in c.outputs { OutputAfter(t, e, op); }
    forall op | op in c.outputs ensures RowOk(after.outputs[op], c.outputs[op], es, q + 1, op) {
      ReindexRow(t, c, es, q, p, op);
    }
    HistoryUnchanged(c.history, TxHistory(map[], Addressed(c.outputs), e));
  }

  /** Indexing a transaction again moves the second pass one step on. */
  lemma {:induction false} ReindexStep(t: Tables, es: seq<Entry>, q: nat, p: nat)
    requires ValidEntries(es) && q < p <= |es| && HalfDone(t, es, q, p)
    ensures HalfDone(IndexTx(t, es[q]), es, q + 1, p)
  {
    CanonSettled(es, p);
    assert Settled(Canon(es, p), es[q]);
    ReindexTables(t, Canon(es, p), es, q, p);
  }

  /** Indexing past the old end continues the canonical tables. */
  lemma {:induction false} ExtendStep(t: Tables, es: seq<Entry>, p: nat)
    requires ValidEntries(es) && p < |es| && HalfDone(t, es, p, p)
    ensures HalfDone(IndexTx(t, es[p]), es, p + 1, p + 1)
  {
    CaughtUp(t, es, p);
    CanonNext(es, p);
  }

  function Max(a: nat, b: nat): nat {
    if a < b then b else a
  }

  lemma {:induction false} AnyStep(t: Tables, es: seq<Entry>, q: nat, p: nat)
    requires ValidEntries(es) && q < |es| && q <= p <= |es| && HalfDone(t, es, q, p)
    ensures HalfDone(IndexTx(t, es[q]), es, q + 1, Max(p, q + 1))
  {
    if q < p {
      ReindexStep(t, es, q, p);
    } else {
      ExtendStep(t, es, q);
    }
  }

  lemma {:induction false} ExtendRange(t: Tables, es: seq<Entry>, q: nat, k: nat, p: nat)
    requires ValidEntries(es) && q <= k < |es| && k <= p <= |es| && HalfDone(IndexEntries(t, es[q..k]), es, k, p)
    ensures HalfDone(IndexEntries(t, es[q..k + 1]), es, k + 1, Max(p, k + 1))
  {
    AnyStep(IndexEntries(t, es[q..k]), es, k, p);
    IndexSlices(t, es, q, k);
  }

  /** A whole stretch of the chain, part of it for the second time. */
  lemma {:induction false} ReindexRange(t: Tables, es: seq<Entry>, q: nat, q': nat, p: nat)
    requires ValidEntries(es) && q <= q' <= |es| && q <= p <= |es| && HalfDone(t, es, q, p)
    ensures HalfDone(IndexEntries(t, es[q..q']), es, q', Max(p, q'))
    decreases q' - q
  {
    if q == q' {
      IndexNothing(t, es, q);
    } else {
      var k := q' - 1;
      var r := Max(p, k);
      assert Max(r, k + 1) == Max(p, q') && k + 1 == q';
      ReindexRange(t, es, q, k, p);
      ExtendRange(t, es, q, k, r);
      assert HalfDone(IndexEntries(t, es[q..q']), es, q', Max(p, q'));
    }
  }

  lemma {:induction false} IndexSlices(t: Tables, es: seq<Entry>, q: nat, k: nat)
    requires q <= k < |es|
    ensures IndexEntries(t, es[q..k + 1]) == IndexTx(IndexEntries(t, es[q..k]), es[k])
  {
    SlicePush(es, q, k);
    IndexPush(t, es[q..k], es[k]);
  }

  lemma {:induction false} IndexNothing(t: Tables, es: seq<Entry>, q: nat)
    requires q <= |es|
    ensures IndexEntries(t, es[q..q]) == t
  {
  }

  lemma {:induction false} SlicePush<T>(s: seq<T>, q: nat, k: nat)
    requires q <= k < |s|
    ensures s[q..k + 1] == s[q..k] + [s[k]]
  {
  }

  lemma {:induction false} IndexPush(t: Tables, es: seq<Entry>, e: Entry)
    ensures IndexEntries(t, es + [e]) == IndexTx(IndexEntries(t, es), e)
  {
  }

  lemma {:induction false} RowIsOriginal(t: Tables, es: seq<Entry>, q: nat, p: nat, j: nat, op: OutPoint)
    requires ValidEntries(es) && q <= p <= |es| && HalfDone(t, es, q, p)
    requires j < |es| && op in t.outputs && Makes(es[j], op)
    ensures t.outputs[op].address == NewRow(es[j], op.vout).address
    ensures t.outputs[op].value == NewRow(es[j], op.vout).value
  {
    var c := Canon(es, p);
    CanonSettled(es, p);
    IndexedTxids(EMPTY, es[..p], op);
    var i :| 0 <= i < p && op.txid == es[..p][i].tx.txid;
    assert es[..p][i] == es[i];
    assert i == j && Settled(c, es[j]);
    assert RowOk(t.outputs[op], c.outputs[op], es, q, op);
  }

  lemma {:induction false} SpentOnlyLater(es: seq<Entry>, q: nat, q': nat, j: nat, op: OutPoint)
    requires ValidEntries(es) && q <= q' <= |es| && j < q' - q && Makes(es[q..q'][j], op)
    ensures forall i :: 0 <= i <= j ==> op !in es[q..q'][i].tx.inputs
  {
  }

  /** Such a stretch is compatible with the tables it is indexed into, so a batch may do it in one go. */
  lemma {:induction false} RangeIsCompatible(t: Tables, es: seq<Entry>, q: nat, q': nat, p: nat)
    requires ValidEntries(es) && q <= q' <= |es| && q <= p <= |es| && HalfDone(t, es, q, p)
    ensures Compatible(t, es[q..q'])
  {
    hide HalfDone;
    var part := es[q..q'];
    forall j, op | 0 <= j < |part| && op in t.outputs && Makes(part[j], op)
      ensures t.outputs[op].address == NewRow(part[j], op.vout).address
      ensures t.outputs[op].value == NewRow(part[j], op.vout).value
      ensures forall i :: 0 <= i <= j ==> op !in part[i].tx.inputs
    {
      RowIsOriginal(t, es, q, p, q + j, op);
      SpentOnlyLater(es, q, q', j, op);
    }
    forall i, j | 0 <= i < j < |part| ensures part[i].tx.txid != part[j].tx.txid {
      assert part[i] == es[q + i] && part[j] == es[q + j];
    }
    DistinctIsCompatible(t, part);
  }
}
