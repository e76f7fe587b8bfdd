/** Runs of the pool beside a growing chain: fees always come out of coins of the chain, so no call overflows. */
module MempoolBacked {
  import opened Bitcoin
  import opened Pallet
  import opened MempoolArena
  import opened MempoolSums
  import opened MempoolLinks
  import opened MempoolSpends
  import opened MempoolAccept
  import opened Mempool
  import opened MempoolFees

  // ----- Where inputs come from -----

  /** Every input is a coin of the chain or an output of an entry accepted earlier and still live. */
  ghost predicate Fed(entries: Entries, coins: set<OutPoint>) {
    forall i, op :: i in entries && op in entries[i].tx.inputs ==> op in coins || MadeEarlier(entries, i, op)
  }

  ghost predicate MadeEarlier(entries: Entries, i: Id, op: OutPoint) {
    exists j :: j in entries && j < i && op in Made(entries[j].tx)
  }

  lemma {:induction false} FedIsConfirmed(entries: Entries, coins: set<OutPoint>)
    requires Fed(entries, coins)
    ensures Confirmed(entries) <= coins
  {
    forall op | op in AllSpent(entries) ensures op in coins || op in AllMade(entries) {
      var i :| i in entries && op in Elements(entries[i].tx.inputs);
      if op !in coins {
        assert MadeEarlier(entries, i, op);
        var j :| j in entries && j < i && op in Made(entries[j].tx);
      }
    }
  }

  lemma {:induction false} MakerIsParent(entries: Entries, i: Id, j: Id, op: OutPoint)
    requires ParentsExact(entries) && i in entries && j in entries && j < i
    requires op in entries[i].tx.inputs && op in Made(entries[j].tx)
    ensures j in entries[i].parents
  {
    assert op.txid == entries[j].tx.txid;
    var k :| 0 <= k < |entries[i].tx.inputs| && entries[i].tx.inputs[k] == op;
    assert SpendsFrom(entries[i].tx.inputs, entries[j].tx.txid);
  }

  /** A removal that leaves all parents live leaves every entry fed. */
  lemma {:induction false} RemovalKeepsFed(entries: Entries, part: Entries, coins: set<OutPoint>)
    requires ParentsExact(entries) && ParentsLive(part) && PartOf(part, entries) && Fed(entries, coins)
    ensures Fed(part, coins)
  {
    hide ParentsExact;
    forall i, op | i in part && op in part[i].tx.inputs ensures op in coins || MadeEarlier(part, i, op) {
      if op !in coins {
        assert MadeEarlier(entries, i, op);
        var j :| j in entries && j < i && op in Made(entries[j].tx);
        MakerIsParent(entries, i, j, op);
        assert j in part && op in Made(part[j].tx);
      }
    }
  }

  lemma {:induction false} MoreCoinsFeed(entries: Entries, coins: set<OutPoint>, coins': set<OutPoint>)
    requires Fed(entries, coins)
    requires forall i, op :: i in entries && op in entries[i].tx.inputs && op in coins ==> op in coins'
    ensures Fed(entries, coins')
  {
  }

  predicate MadeInPool(entries: Entries, op: OutPoint) {
    exists j :: j in entries && entries[j].tx.txid == op.txid && op.vout < |entries[j].tx.outputs|
  }

  /** What the view of the coins says of a transaction: nothing, unless all its inputs are there. */
  function Seen(state: Coins, entries: Entries, tx: Transaction, facts: Option<Facts>): Option<Facts> {
    if forall op :: op in tx.inputs ==> op in state || MadeInPool(entries, op) then facts else None
  }

  lemma {:induction false} JoinKeepsFed(entries: Entries, id: Id, ws: Workspace, state: Coins)
    requires AllSized(entries) && VsizeOf(ws.tx) > 1 && (forall i :: i in entries ==> i < id)
    requires Fed(entries, state.Keys)
    requires forall op :: op in ws.tx.inputs ==> op in state || MadeInPool(entries, op)
    ensures Fed(Accepted(entries, id, ws), state.Keys)
  {
    hide Accepted, AllSized;
    var entries' := Accepted(entries, id, ws);
    AcceptedIsOneMore(entries, id, ws);
    forall i, op | i in entries' && op in entries'[i].tx.inputs
      ensures op in state.Keys || MadeEarlier(entries', i, op)
    {
      if op !in state {
        var j :| j in entries && j < i && op in Made(entries[j].tx);
        assert j in entries' && op in Made(entries'[j].tx);
      }
    }
  }

  // ----- The chain -----

  lemma {:induction false} UnnamedStays(coins: Coins, txs: seq<Transaction>, height: nat, op: OutPoint)
    requires ApplyTxs(coins, txs, height).Some? && op in coins && forall tx :: tx in txs ==> op !in tx.inputs
    ensures op in ApplyTxs(coins, txs, height).value
    decreases |txs|
  {
    if txs != [] {
      assert txs[0] in txs;
      UnnamedStays(ApplyTx(coins, txs[0], height).value, txs[1..], height, op);
    }
  }

  /** Entries that spend nothing the block spends stay fed when it is connected. */
  lemma {:induction false} BlockKeepsFed(entries: Entries, coins: Coins, txs: seq<Transaction>, height: nat)
    requires Fed(entries, coins.Keys) && ApplyTxs(coins, txs, height).Some?
    requires forall i, tx :: i in entries && tx in txs ==> !Spends(entries[i], tx.inputs)
    ensures Fed(entries, ApplyTxs(coins, txs, height).value.Keys)
  {
    hide Fed, ApplyTxs;
    forall i, op | i in entries && op in entries[i].tx.inputs && op in coins.Keys
      ensures op in ApplyTxs(coins, txs, height).value.Keys
    {
      UnnamedStays(coins, txs, height, op);
    }
    MoreCoinsFeed(entries, coins.Keys, ApplyTxs(coins, txs, height).value.Keys);
  }

  // ----- Fees -----

  /** No fee was modified. */
  ghost predicate FlatFees(entries: Entries) {
    forall i :: i in entries ==> entries[i].modifiedFee == entries[i].fee
  }

  lemma {:induction false} JoinKeepsFlat(entries: Entries, id: Id, ws: Workspace)
    requires AllSized(entries) && VsizeOf(ws.tx) > 1 && id !in entries && FlatFees(entries)
    requires ws.modifiedFee == ws.baseFee
    ensures FlatFees(Accepted(entries, id, ws))
  {
    hide AncestorIds, ParentIds, SumOver, ComputeAncestorKey, ComputeDescendantKey, VsizeOf;
    var entries' := Accepted(entries, id, ws);
    forall i | i in entries' ensures entries'[i].modifiedFee == entries'[i].fee {
    }
  }

  lemma {:induction false} FlatTotal(entries: Entries)
    requires FlatFees(entries)
    ensures Total(entries, ModifiedFee) == Total(entries, BaseFee)
  {
    assert Amounts(entries, entries.Keys, ModifiedFee) == Amounts(entries, entries.Keys, BaseFee);
  }

  lemma {:induction false} PartOfTotal(entries: Entries, ids: set<Id>)
    ensures SumOver(entries, ids, ModifiedFee) <= Total(entries, ModifiedFee)
  {
    hide SumOver;
    SumMonotone(entries, ids * entries.Keys, entries.Keys, ModifiedFee);
    assert SumOver(entries, ids, ModifiedFee) == SumOver(entries, ids * entries.Keys, ModifiedFee) by { LiveSum(entries, ids); }
  }

  lemma {:induction false} LiveSum(entries: Entries, ids: set<Id>)
    ensures SumOver(entries, ids, ModifiedFee) == SumOver(entries, ids * entries.Keys, ModifiedFee)
  {
    assert Amounts(entries, ids, ModifiedFee) == Amounts(entries, ids * entries.Keys, ModifiedFee);
  }

  lemma {:induction false} SmallFeesFit(entries: Entries, fee: nat)
    requires FlatFees(entries) && Total(entries, BaseFee) + fee <= MAX_MONEY
    ensures !FeesExceed(entries, fee)
  {
    hide SumOver, Total, FlatFees;
    FlatTotal(entries);
    forall ids ensures fee + SumOver(entries, ids, ModifiedFee) < U64_SIZE { PartOfTotal(entries, ids); }
  }

  // ----- One call -----

  /** Honest fees, none modified, and inputs that come from the chain or from earlier entries. */
  ghost predicate Backed(outs: Outputs, entries: Entries, coins: Coins) {
    Honest(outs, entries) && FlatFees(entries) && Fed(entries, coins.Keys)
  }

  /** The chain is verified, and txids commit to its outputs. */
  ghost predicate Sound(outs: Outputs, f: Sanity.Foreign, rules: Verification.Rules, blocks: seq<Block>) {
    Conservation.ChainCommits(outs, blocks) && Conservation.ChainState(f, rules, blocks).Some?
  }

  lemma {:induction false} CoinsAreScarce(outs: Outputs, f: Sanity.Foreign, rules: Verification.Rules,
                                          blocks: seq<Block>, s: set<OutPoint>)
    requires Sound(outs, f, rules, blocks) && s <= Conservation.ChainState(f, rules, blocks).value.Keys
    ensures Conservation.Worth(outs, s) <= MAX_MONEY
  {
    hide Conservation.ChainState, Conservation.ChainCommits, Conservation.Worth, Conservation.CoinsMatch,
         Conservation.Total;
    var state := Conservation.ChainState(f, rules, blocks).value;
    Conservation.SupplyIsBounded(outs, f, rules, blocks);
    Conservation.TotalIsWorth(outs, state);
    Conservation.WorthMonotone(outs, state.Keys, s);
  }

  /** The pool as the fee theorems see it. */
  lemma {:induction false} PoolFacts(pool: MemPool)
    requires pool.Valid()
    ensures AllSized(pool.arena.entries) && DistinctLive(pool.arena.entries)
    ensures SpendsTracked(pool.arena.entries, pool.mapNextTx)
    ensures ParentsLive(pool.arena.entries) && ParentsExact(pool.arena.entries)
    ensures forall i :: i in pool.arena.entries ==> i < pool.arena.nextId
    ensures forall t :: t !in pool.arena.byTxid ==> !LiveTxid(pool.arena.entries, t)
  {
    AllEntriesSized(pool.arena);
    pool.arena.TxidsAreDistinct();
    pool.arena.TxidsAreIndexed();
    hide Arena.Valid, AllSized, DistinctLive, SpendsTracked, ChildrenExact, ParentsExact, ParentsLive, Announced;
  }

  lemma {:induction false} PoolFeesFit(pool: MemPool, outs: Outputs, f: Sanity.Foreign, rules: Verification.Rules,
                                       blocks: seq<Block>)
    requires pool.Valid() && Sound(outs, f, rules, blocks)
    requires Backed(outs, pool.arena.entries, Conservation.ChainState(f, rules, blocks).value)
    ensures !FeesExceed(pool.arena.entries, 0)
  {
    hide MemPool.Valid, Conservation.ChainCommits, Conservation.ChainState, Fed, FlatFees, Honest, FeesExceed, Total,
         Confirmed, AllSized, DistinctLive, SpendsTracked, NoConflicts, ParentsLive, ParentsExact;
    var entries := pool.arena.entries;
    PoolFacts(pool);
    TrackedIsConflictFree(entries, pool.mapNextTx);
    FeesAreBacked(outs, entries);
    FedIsConfirmed(entries, Conservation.ChainState(f, rules, blocks).value.Keys);
    CoinsAreScarce(outs, f, rules, blocks, Confirmed(entries));
    SmallFeesFit(entries, 0);
  }

  /** A transaction whose fee is honest, if its coins are all there. */
  ghost predicate HonestOffer(outs: Outputs, tx: Transaction, checks: Checks, state: Coins, entries: Entries) {
    checks.coins.Some? ==>
      && HonestTx(outs, tx, checks.coins.value.fee)
      && forall op :: op in tx.inputs ==> op in state || MadeInPool(entries, op)
  }

  lemma {:induction false} JoinFeesFit(pool: MemPool, outs: Outputs, f: Sanity.Foreign, rules: Verification.Rules,
                                       blocks: seq<Block>,
                                       tx: Transaction, checks: Checks)
    requires pool.Valid() && pool.FeesExact() && Sound(outs, f, rules, blocks) && VsizeOf(tx) > 1
    requires pool.PassesPreChecks(tx, checks)
    requires Backed(outs, pool.arena.entries, Conservation.ChainState(f, rules, blocks).value)
    requires HonestOffer(outs, tx, checks, Conservation.ChainState(f, rules, blocks).value, pool.arena.entries)
    ensures pool.totalFee + checks.coins.value.fee < U64_SIZE && !FeesExceed(pool.arena.entries, checks.coins.value.fee)
  {
    hide MemPool.Valid, Conservation.ChainCommits, Conservation.ChainState, Fed, FlatFees, Honest, HonestTx, FeesExceed,
         Total, Confirmed, AllSized, DistinctLive, SpendsTracked, NoConflicts, ParentsLive, ParentsExact, LiveTxid,
         MadeInPool, VsizeOf, Accepted;
    var entries, id, state := pool.arena.entries, pool.arena.nextId, Conservation.ChainState(f, rules, blocks).value;
    var ws := Joining(tx, checks.coins.value, 0, 0);
    PoolFacts(pool);
    JoinKeepsFed(entries, id, ws, state);
    FedIsConfirmed(Accepted(entries, id, ws), state.Keys);
    CoinsAreScarce(outs, f, rules, blocks, ConfirmedWith(entries, id, ws));
    FeeTotalFits(outs, entries, pool.mapNextTx, id, ws);
    SmallFeesFit(entries, checks.coins.value.fee);
  }

  lemma {:induction false} NeverTooDear(pool: MemPool, outs: Outputs, f: Sanity.Foreign, rules: Verification.Rules,
                                        blocks: seq<Block>,
                                        tx: Transaction, checks: Checks)
    requires pool.Valid() && pool.FeesExact() && Sound(outs, f, rules, blocks) && VsizeOf(tx) > 1
    requires Backed(outs, pool.arena.entries, Conservation.ChainState(f, rules, blocks).value)
    requires HonestOffer(outs, tx, checks, Conservation.ChainState(f, rules, blocks).value, pool.arena.entries)
    ensures !pool.TooDear(tx, checks)
  {
    hide MemPool.Valid, MemPool.FeesExact, Sound, Conservation.ChainState, Backed, HonestOffer, FeesExceed,
         MemPool.PassesPreChecks, VsizeOf;
    PoolFeesFit(pool, outs, f, rules, blocks);
    if pool.PassesPreChecks(tx, checks) { JoinFeesFit(pool, outs, f, rules, blocks, tx, checks); }
  }

  lemma {:induction false} JoinKeepsBacked(outs: Outputs, entries: Entries, id: Id, tx: Transaction, checks: Checks,
                                           time: int, height: nat, state: Coins)
    requires AllSized(entries) && VsizeOf(tx) > 1 && checks.coins.Some? && Backed(outs, entries, state)
    requires (forall i :: i in entries ==> i < id) && HonestOffer(outs, tx, checks, state, entries)
    ensures Backed(outs, Accepted(entries, id, Joining(tx, checks.coins.value, time, height)), state)
  {
    hide Accepted, AllSized, HonestTx, Fed, FlatFees, MadeInPool, VsizeOf;
    var ws := Joining(tx, checks.coins.value, time, height);
    AcceptedIsOneMore(entries, id, ws);
    JoinKeepsFlat(entries, id, ws);
    JoinKeepsFed(entries, id, ws, state);
  }

  lemma {:induction false} RemovalKeepsBacked(outs: Outputs, entries: Entries, part: Entries, state: Coins)
    requires ParentsExact(entries) && ParentsLive(part) && PartOf(part, entries) && Backed(outs, entries, state)
    ensures Backed(outs, part, state)
  {
    hide HonestTx, ParentsExact, ParentsLive, Fed;
    RemovalKeepsFed(entries, part, state.Keys);
  }

  // ----- Runs -----

  /** How many blocks the first `k` calls connect. */
  function Connected(calls: seq<Call>, k: nat): (r: nat)
    requires k <= |calls|
    ensures r <= k
  {
    if k == 0 then 0 else Connected(calls, k - 1) + if calls[k - 1].ConnectBlock? then 1 else 0
  }

  /** Blocks are connected in the order of the chain, and fees offered are honest. */
  ghost predicate Plausible(outs: Outputs, blocks: seq<Block>, start: nat, calls: seq<Call>) {
    forall k :: 0 <= k < |calls| ==> PlausibleCall(outs, blocks, start + Connected(calls, k), calls[k])
  }

  ghost predicate PlausibleCall(outs: Outputs, blocks: seq<Block>, height: nat, call: Call) {
    && RealCall(call) && !call.Reorganise?
    && (call.ConnectBlock? ==> height < |blocks| && call.txs == blocks[height].txs)
    && (call.Accept? && call.checks.coins.Some? ==> HonestTx(outs, call.tx, call.checks.coins.value.fee))
  }

  lemma {:induction false} PlausibleAt(outs: Outputs, blocks: seq<Block>, start: nat, calls: seq<Call>, k: nat)
    requires Plausible(outs, blocks, start, calls) && k < |calls|
    ensures RealCall(calls[k]) && !calls[k].Reorganise?
    ensures calls[k].ConnectBlock? ==>
              start + Connected(calls, k) < |blocks| && calls[k].txs == blocks[start + Connected(calls, k)].txs
    ensures calls[k].Accept? && calls[k].checks.coins.Some? ==>
              HonestTx(outs, calls[k].tx, calls[k].checks.coins.value.fee)
    ensures Connected(calls, k + 1) == Connected(calls, k) + if calls[k].ConnectBlock? then 1 else 0
  {
    hide RealCall, HonestTx;
    assert PlausibleCall(outs, blocks, start + Connected(calls, k), calls[k]);
  }

  lemma {:induction false} NoneConnected(calls: seq<Call>)
    ensures Connected(calls, 0) == 0
  {
  }

  /** What the view of the coins makes of a call. */
  function Viewed(call: Call, state: Coins, entries: Entries): Call {
    if call.Accept? then call.(checks := call.checks.(coins := Seen(state, entries, call.tx, call.checks.coins))) else call
  }

  lemma {:induction false} ViewIsHonest(outs: Outputs, call: Call, state: Coins, entries: Entries)
    requires call.Accept? && (call.checks.coins.Some? ==> HonestTx(outs, call.tx, call.checks.coins.value.fee))
    ensures HonestOffer(outs, call.tx, Viewed(call, state, entries).checks, state, entries)
  {
    hide HonestTx, MadeInPool;
  }

  /** All that holds while no expiry has left an orphan. */
  ghost predicate InOrder(pool: MemPool, outs: Outputs, coins: Coins)
    reads pool, pool.arena
  {
    pool.Valid() && pool.FeesExact() && Backed(outs, pool.arena.entries, coins)
  }

  /** One call beside a verified chain. While things are in order it never overflows, and they stay so unless it is an
      expiry that leaves an orphan. */
  method HonestStep(pool: MemPool, ghost outs: Outputs, f: Sanity.Foreign, rules: Verification.Rules,
                    blocks: seq<Block>, call: Call,
                    ghost inOrder: bool) returns (r: Option<Result<(), Error>>, ghost inOrder': bool)
    requires pool.Consistent() && Sound(outs, f, rules, blocks) && RealCall(call)
    requires call.Accept? && call.checks.coins.Some? ==> HonestTx(outs, call.tx, call.checks.coins.value.fee)
    requires inOrder ==> InOrder(pool, outs, Conservation.ChainState(f, rules, blocks).value)
    modifies pool, pool.arena
    ensures pool.Consistent() && (inOrder && !inOrder' ==> call.DropExpired?)
    ensures inOrder' ==> inOrder && InOrder(pool, outs, Conservation.ChainState(f, rules, blocks).value)
    ensures inOrder' ==> r.Some? && r != Some(Err(FeeOverflow))
    ensures call.ConnectBlock? ==> forall i, tx :: i in pool.arena.entries && tx in call.txs ==>
              !Spends(pool.arena.entries[i], tx.inputs)
  {
    hide MemPool.Valid, MemPool.Consistent, MemPool.FeesExact, Conservation.ChainState, Conservation.ChainCommits,
         Backed, HonestOffer, HonestTx, AllSized, DistinctLive, SpendsTracked, ParentsLive, ParentsExact, Accepted,
         MemPool.TooDear, PartOf, Spends, VsizeOf, Seen, LiveTxid, DescentClosed;
    var state := Conservation.ChainState(f, rules, blocks).value;
    ghost var entries := pool.arena.entries;
    var viewed := Viewed(call, state, pool.arena.entries);
    ViewIsReal(call, state, entries);
    if inOrder {
      PoolFacts(pool);
      if call.Accept? {
        ViewIsHonest(outs, call, state, entries);
        NeverTooDear(pool, outs, f, rules, blocks, call.tx, viewed.checks);
      }
    }
    inOrder' := inOrder && !pool.Orphans(viewed);
    r := pool.Step(viewed);
    if inOrder' {
      PoolFacts(pool);
      if call.Accept? {
        if pool.arena.entries != entries {
          JoinKeepsBacked(outs, entries, old(pool.arena.nextId), call.tx, viewed.checks, call.time, call.height, state);
        }
      } else {
        RemovalKeepsBacked(outs, entries, pool.arena.entries, state);
      }
    }
  }

  lemma {:induction false} ViewIsReal(call: Call, state: Coins, entries: Entries)
    requires RealCall(call)
    ensures RealCall(Viewed(call, state, entries))
  {
    hide MadeInPool, VsizeOf;
  }

  lemma {:induction false} SoundPrefix(outs: Outputs, f: Sanity.Foreign, rules: Verification.Rules, blocks: seq<Block>,
                                       n: nat)
    requires Sound(outs, f, rules, blocks) && n <= |blocks|
    ensures Sound(outs, f, rules, blocks[..n])
  {
    hide Conservation.ChainState, Conservation.Commits;
    Conservation.ChainPrefix(f, rules, blocks, n);
    assert forall h :: 0 <= h < n ==> blocks[..n][h] == blocks[h];
  }

  lemma {:induction false} ConnectKeepsBacked(outs: Outputs, f: Sanity.Foreign, rules: Verification.Rules,
                                              blocks: seq<Block>, entries: Entries)
    requires blocks != [] && Sound(outs, f, rules, blocks) && Sound(outs, f, rules, blocks[..|blocks| - 1])
    requires Backed(outs, entries, Conservation.ChainState(f, rules, blocks[..|blocks| - 1]).value)
    requires forall i, tx :: i in entries && tx in blocks[|blocks| - 1].txs ==> !Spends(entries[i], tx.inputs)
    ensures Backed(outs, entries, Conservation.ChainState(f, rules, blocks).value)
  {
    hide Sanity.BlockSane, Verification.Accepted, ApplyTxs, Fed, Honest, FlatFees, Spends, Conservation.ChainCommits;
    var n := |blocks| - 1;
    BlockKeepsFed(entries, Conservation.ChainState(f, rules, blocks[..n]).value, blocks[n].txs, |blocks|);
  }

  /** Any number of calls while the chain grows: as long as no expiry leaves an orphan, no call ever reports an
      overflow, and the fee total stays exact. */
  method HonestRun(pool: MemPool, ghost outs: Outputs, f: Sanity.Foreign, rules: Verification.Rules, blocks: seq<Block>,
                   start: nat,
                   calls: seq<Call>) returns (overflowed: bool, ghost orphaned: bool)
    requires start <= |blocks| && Sound(outs, f, rules, blocks) && Plausible(outs, blocks, start, calls)
    requires InOrder(pool, outs, ChainCoins(f, rules, blocks[..start]))
    modifies pool, pool.arena
    ensures !orphaned ==> !overflowed && pool.Valid() && pool.FeesExact()
    ensures orphaned ==> exists k :: 0 <= k < |calls| && calls[k].DropExpired?
  {
    hide InOrder, MemPool.Valid, MemPool.FeesExact, MemPool.Consistent, Sound, HonestTx, Spends,
         Conservation.ChainState, RealCall, ChainCoins, Plausible, PlausibleCall, Connected;
    OrderIsValid(pool, outs, ChainCoins(f, rules, blocks[..start]));
    pool.ValidIsConsistent();
    NoneConnected(calls);
    SoundPrefix(outs, f, rules, blocks, start);
    overflowed, orphaned := false, false;
    ghost var coins := ChainCoins(f, rules, blocks[..start]);
    for k := 0 to |calls|
      invariant pool.Consistent() && (!orphaned ==> !overflowed)
      invariant start + Connected(calls, k) <= |blocks| && Sound(outs, f, rules, blocks[..start + Connected(calls, k)])
      invariant coins == ChainCoins(f, rules, blocks[..start + Connected(calls, k)])
      invariant (!orphaned ==> InOrder(pool, outs, coins))
      invariant orphaned ==> exists m :: 0 <= m < k && calls[m].DropExpired?
    {
      var h, call := start + Connected(calls, k), calls[k];
      PlausibleAt(outs, blocks, start, calls, k);
      CoinsOf(outs, f, rules, blocks[..h]);
      ghost var inOrder;
      var r;
      r, inOrder := HonestStep(pool, outs, f, rules, blocks[..h], call, !orphaned);
      overflowed := overflowed || r == Some(Err(FeeOverflow));
      orphaned := !inOrder;
      if call.ConnectBlock? {
        SoundPrefix(outs, f, rules, blocks, h + 1);
        assert blocks[..h + 1][..h] == blocks[..h];
        CoinsOf(outs, f, rules, blocks[..h + 1]);
        if !orphaned { ConnectInOrder(pool, outs, f, rules, blocks[..h + 1]); }
        coins := ChainCoins(f, rules, blocks[..h + 1]);
      }
      if r.None? { break; }
    }
    if !orphaned { OrderIsValid(pool, outs, coins); }
  }

  lemma {:induction false} OrderIsValid(pool: MemPool, outs: Outputs, coins: Coins)
    requires InOrder(pool, outs, coins)
    ensures pool.Valid() && pool.FeesExact()
  {
    hide MemPool.Valid, MemPool.FeesExact, Backed;
  }

  lemma {:induction false} ConnectInOrder(pool: MemPool, outs: Outputs, f: Sanity.Foreign, rules: Verification.Rules,
                                          blocks: seq<Block>)
    requires blocks != [] && Sound(outs, f, rules, blocks) && Sound(outs, f, rules, blocks[..|blocks| - 1])
    requires InOrder(pool, outs, Conservation.ChainState(f, rules, blocks[..|blocks| - 1]).value)
    requires forall i, tx :: i in pool.arena.entries && tx in blocks[|blocks| - 1].txs ==>
               !Spends(pool.arena.entries[i], tx.inputs)
    ensures InOrder(pool, outs, Conservation.ChainState(f, rules, blocks).value)
  {
    hide MemPool.Valid, MemPool.FeesExact, Backed, Spends, Conservation.ChainState;
    ConnectKeepsBacked(outs, f, rules, blocks, pool.arena.entries);
  }

  ghost function ChainCoins(f: Sanity.Foreign, rules: Verification.Rules, blocks: seq<Block>): Coins {
    var state := Conservation.ChainState(f, rules, blocks);
    if state.Some? then state.value else map[]
  }

  lemma {:induction false} CoinsOf(outs: Outputs, f: Sanity.Foreign, rules: Verification.Rules, blocks: seq<Block>)
    requires Sound(outs, f, rules, blocks)
    ensures Conservation.ChainState(f, rules, blocks) == Some(ChainCoins(f, rules, blocks))
  {
    hide Conservation.ChainState, Conservation.ChainCommits;
  }
}
