/** The fees in the pool are backed by the confirmed coins it spends, so their total never overflows. */
module MempoolFees {
  import opened Bitcoin
  import Sanity
  import Verification
  import Conservation
  import opened MempoolArena
  import opened MempoolSums
  import opened MempoolSpends
  import opened MempoolAccept
  import opened Mempool

  type Outputs = Conservation.Outputs

  /** The fee is what the inputs are worth less what the outputs pay. */
  ghost predicate HonestTx(outs: Outputs, tx: Transaction, fee: nat) {
    && tx.outputs == outs(tx.txid) && Distinct(tx.inputs)
    && fee + SumOutputs(tx.outputs) == Conservation.Worth(outs, Elements(tx.inputs))
  }

  ghost predicate Honest(outs: Outputs, entries: Entries) {
    forall i :: i in entries ==> HonestTx(outs, entries[i].tx, entries[i].fee)
  }

  function Paid(e: Entry): nat {
    SumOutputs(e.tx.outputs)
  }

  function Made(tx: Transaction): set<OutPoint> {
    Conservation.OutPointsOf(tx, |tx.outputs|)
  }

  ghost function AllSpent(entries: Entries): set<OutPoint> {
    set i, op | i in entries && op in Elements(entries[i].tx.inputs) :: op
  }

  ghost function AllMade(entries: Entries): set<OutPoint> {
    set i, op | i in entries && op in Made(entries[i].tx) :: op
  }

  /** What the pool spends without making it: coins that must be confirmed. */
  ghost function Confirmed(entries: Entries): set<OutPoint> {
    AllSpent(entries) - AllMade(entries)
  }

  ghost predicate NoConflicts(entries: Entries) {
    forall i, j :: i in entries && j in entries && i != j ==>
      Elements(entries[i].tx.inputs) !! Elements(entries[j].tx.inputs)
  }

  lemma {:induction false} TrackedIsConflictFree(entries: Entries, next: SpendMap)
    requires DistinctLive(entries) && SpendsTracked(entries, next)
    ensures NoConflicts(entries)
  {
    forall i, j | i in entries && j in entries && i != j
      ensures Elements(entries[i].tx.inputs) !! Elements(entries[j].tx.inputs)
    {
      forall op | op in Elements(entries[i].tx.inputs) ensures op !in Elements(entries[j].tx.inputs) {
        if op in entries[j].tx.inputs { NoDoubleSpend(entries, next, i, j, op); }
      }
    }
  }

  lemma {:induction false} WorthDisjoint(outs: Outputs, a: set<OutPoint>, b: set<OutPoint>)
    requires a !! b
    ensures Conservation.Worth(outs, a + b) == Conservation.Worth(outs, a) + Conservation.Worth(outs, b)
  {
    Conservation.WorthSplit(outs, a + b, b);
    assert a + b - b == a;
  }

  lemma {:induction false} SpentSplit(entries: Entries, i: Id)
    requires NoConflicts(entries) && i in entries
    ensures AllSpent(entries) == AllSpent(entries - {i}) + Elements(entries[i].tx.inputs)
    ensures AllSpent(entries - {i}) !! Elements(entries[i].tx.inputs) && NoConflicts(entries - {i})
  {
    hide Elements;
    var rest := entries - {i};
    forall op | op in AllSpent(entries) ensures op in AllSpent(rest) || op in Elements(entries[i].tx.inputs) {
      var j :| j in entries && op in Elements(entries[j].tx.inputs);
      if j != i { assert j in rest && op in Elements(rest[j].tx.inputs); }
    }
    forall op | op in AllSpent(rest) ensures op in AllSpent(entries) && op !in Elements(entries[i].tx.inputs) {
      var j :| j in rest && op in Elements(rest[j].tx.inputs);
      assert j in entries && op in Elements(entries[j].tx.inputs);
    }
  }

  lemma {:induction false} MadeSplit(entries: Entries, i: Id)
    requires DistinctLive(entries) && i in entries
    ensures AllMade(entries) == AllMade(entries - {i}) + Made(entries[i].tx)
    ensures AllMade(entries - {i}) !! Made(entries[i].tx) && DistinctLive(entries - {i})
  {
    var rest := entries - {i};
    forall op | op in AllMade(entries) ensures op in AllMade(rest) || op in Made(entries[i].tx) {
      var j :| j in entries && op in Made(entries[j].tx);
      if j != i { assert j in rest && op in Made(rest[j].tx); }
    }
    forall op | op in AllMade(rest) ensures op in AllMade(entries) && op !in Made(entries[i].tx) {
      var j :| j in rest && op in Made(rest[j].tx);
      assert j in entries && op in Made(entries[j].tx);
    }
  }

  lemma {:induction false} MadeWorth(outs: Outputs, tx: Transaction)
    requires tx.outputs == outs(tx.txid)
    ensures Conservation.Worth(outs, Made(tx)) == SumOutputs(tx.outputs)
  {
    Conservation.OutputsWorth(outs, tx, |tx.outputs|);
    assert tx.outputs[..|tx.outputs|] == tx.outputs;
  }

  /** Everything spent is worth the fees plus the outputs paid. */
  lemma {:induction false} SpentIsFeesAndPaid(outs: Outputs, entries: Entries)
    requires Honest(outs, entries) && NoConflicts(entries)
    ensures Conservation.Worth(outs, AllSpent(entries)) == Total(entries, BaseFee) + Total(entries, Paid)
    decreases |entries|
  {
    if entries == map[] {
      assert AllSpent(entries) == {};
      Conservation.WorthNothing(outs);
      SumEmpty(entries, BaseFee);
      SumEmpty(entries, Paid);
    } else {
      var i :| i in entries;
      var rest := entries - {i};
      assert |rest| == |entries| - 1 by { assert rest.Keys == entries.Keys - {i}; }
      hide Total, AllSpent, Elements, NoConflicts;
      SpentSplit(entries, i);
      SpentIsFeesAndPaid(outs, rest);
      WorthDisjoint(outs, AllSpent(rest), Elements(entries[i].tx.inputs));
      TotalDrop(entries, BaseFee, i);
      TotalDrop(entries, Paid, i);
    }
  }

  lemma {:induction false} MadeIsPaid(outs: Outputs, entries: Entries)
    requires Honest(outs, entries) && DistinctLive(entries)
    ensures Conservation.Worth(outs, AllMade(entries)) == Total(entries, Paid)
    decreases |entries|
  {
    if entries == map[] {
      assert AllMade(entries) == {};
      Conservation.WorthNothing(outs);
      SumEmpty(entries, Paid);
    } else {
      var i :| i in entries;
      HonestRest(outs, entries, i);
      hide Conservation.Worth, Honest, Total, AllMade, DistinctLive, Made, SumOutputs;
      var rest, tx := entries - {i}, entries[i].tx;
      MadeWorth(outs, tx);
      MadeSplit(entries, i);
      MadeIsPaid(outs, rest);
      WorthDisjoint(outs, AllMade(rest), Made(tx));
      TotalDrop(entries, Paid, i);
    }
  }

  lemma {:induction false} HonestRest(outs: Outputs, entries: Entries, i: Id)
    requires Honest(outs, entries) && i in entries
    ensures Honest(outs, entries - {i}) && entries[i].tx.outputs == outs(entries[i].tx.txid)
    ensures |entries - {i}| == |entries| - 1
  {
    assert (entries - {i}).Keys == entries.Keys - {i};
  }

  /** All fees together are at most what the confirmed coins spent by the pool are worth: fees along a chain of
      unconfirmed transactions come out of the same coins. */
  lemma {:induction false} FeesAreBacked(outs: Outputs, entries: Entries)
    requires Honest(outs, entries) && DistinctLive(entries) && NoConflicts(entries)
    ensures Total(entries, BaseFee) <= Conservation.Worth(outs, Confirmed(entries))
  {
    var spent, made := AllSpent(entries), AllMade(entries);
    SpentIsFeesAndPaid(outs, entries);
    MadeIsPaid(outs, entries);
    hide Total, AllSpent, AllMade, NoConflicts, DistinctLive, Honest;
    Conservation.WorthSplit(outs, spent, spent * made);
    Conservation.WorthMonotone(outs, made, spent * made);
    assert spent - spent * made == Confirmed(entries);
  }

  // ----- Adding one more -----

  /** What the pool and a joining transaction spend without making it. */
  ghost function ConfirmedWith(entries: Entries, id: Id, ws: Workspace): set<OutPoint>
    requires AllSized(entries) && VsizeOf(ws.tx) > 1
  {
    Confirmed(Accepted(entries, id, ws))
  }

  lemma {:induction false} JoinedIsHonest(outs: Outputs, entries: Entries, next: SpendMap, id: Id, ws: Workspace)
    requires AllSized(entries) && VsizeOf(ws.tx) > 1 && id !in entries && Honest(outs, entries)
    requires HonestTx(outs, ws.tx, ws.baseFee)
    requires DistinctLive(entries) && SpendsTracked(entries, next) && !LiveTxid(entries, ws.tx.txid)
    requires forall op :: op in ws.tx.inputs ==> op !in next
    ensures var entries' := Accepted(entries, id, ws);
      && Honest(outs, entries') && DistinctLive(entries') && NoConflicts(entries')
      && Total(entries', BaseFee) == Total(entries, BaseFee) + ws.baseFee
  {
    hide Accepted, AllSized, HonestTx, SpendsTracked, NoConflicts, Total;
    var entries' := Accepted(entries, id, ws);
    AcceptedIsOneMore(entries, id, ws);
    assert DistinctLive(entries');
    hide DistinctLive;
    TrackOneMore(entries, entries', next, id);
    TrackedIsConflictFree(entries', next + SpendsOfTx(entries'[id].tx));
    TotalOneMore(entries, entries', id, BaseFee);
  }

  /** While the confirmed coins that the pool would spend are worth no more than all the money, adding a fee never
      overflows the total. */
  lemma {:induction false} FeeTotalFits(outs: Outputs, entries: Entries, next: SpendMap, id: Id, ws: Workspace)
    requires AllSized(entries) && VsizeOf(ws.tx) > 1 && id !in entries && Honest(outs, entries)
    requires HonestTx(outs, ws.tx, ws.baseFee)
    requires DistinctLive(entries) && SpendsTracked(entries, next) && !LiveTxid(entries, ws.tx.txid)
    requires forall op :: op in ws.tx.inputs ==> op !in next
    requires Conservation.Worth(outs, ConfirmedWith(entries, id, ws)) <= MAX_MONEY
    ensures Total(entries, BaseFee) + ws.baseFee <= MAX_MONEY < U64_SIZE
  {
    hide Accepted, AllSized, HonestTx, SpendsTracked, NoConflicts, DistinctLive, Total, Confirmed, Honest, LiveTxid;
    JoinedIsHonest(outs, entries, next, id, ws);
    FeesAreBacked(outs, Accepted(entries, id, ws));
  }

  /** And that is so as long as those coins are unspent on a chain of verified and applied blocks. */
  lemma {:induction false} FeeTotalFitsOnChain(outs: Outputs, f: Sanity.Foreign, rules: Verification.Rules,
                                               blocks: seq<Block>, state: Coins,
                                               entries: Entries, next: SpendMap, id: Id, ws: Workspace)
    requires Conservation.ChainCommits(outs, blocks) && Conservation.ChainState(f, rules, blocks) == Some(state)
    requires AllSized(entries) && VsizeOf(ws.tx) > 1 && id !in entries && Honest(outs, entries)
    requires HonestTx(outs, ws.tx, ws.baseFee)
    requires DistinctLive(entries) && SpendsTracked(entries, next) && !LiveTxid(entries, ws.tx.txid)
    requires forall op :: op in ws.tx.inputs ==> op !in next
    requires ConfirmedWith(entries, id, ws) <= state.Keys
    ensures Total(entries, BaseFee) + ws.baseFee < U64_SIZE
  {
    hide *;
    Conservation.SupplyIsBounded(outs, f, rules, blocks);
    Conservation.TotalIsWorth(outs, state);
    Conservation.WorthMonotone(outs, state.Keys, ConfirmedWith(entries, id, ws));
    FeeTotalFits(outs, entries, next, id, ws);
  }
}
