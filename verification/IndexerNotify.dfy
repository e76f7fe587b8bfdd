/** Live mode: what the indexer does on an import notification, and when that leaves the tables of the new chain. */
module IndexerNotify {
  import opened Bitcoin
  import opened IndexerTables
  import opened IndexerBatch
  import opened IndexerRevert
  import opened IndexerChain
  import opened IndexerCursor
  import opened IndexerDatabase
  import opened IndexerResume
  import opened IndexerLive

  /** Block numbers as the route of a notification lists them. */
  datatype Route = Route(retracted: seq<nat>, enacted: seq<nat>)

  datatype Notification = Notification(number: nat, route: Option<Route>)

  // ----- What the handler does -----

  /** One below the first retracted block that the route lists. */
  function RevertTarget(retracted: seq<nat>): nat
    requires retracted != []
  {
    if retracted[0] == 0 then 0 else retracted[0] - 1
  }

  function Reverted(t: Tables, retracted: seq<nat>): Tables {
    if retracted == [] then t else Revert(t, RevertTarget(retracted))
  }

  /** The canonical block at this height is indexed; a height the chain does not have is skipped. */
  function IndexedAt(t: Tables, chain: seq<Block>, h: nat): Tables {
    if h < |chain| then Batch(t, Numbered(chain, h, h + 1)) else t
  }

  function Enacted(t: Tables, chain: seq<Block>, heights: seq<nat>): Tables {
    if heights == [] then t else IndexedAt(Enacted(t, chain, heights[..|heights| - 1]), chain, heights[|heights| - 1])
  }

  function LastEnacted(last: nat, chain: seq<Block>, heights: seq<nat>): (r: nat)
    ensures r == last || r < |chain|
  {
    if heights == [] then last else
      var h := heights[|heights| - 1];
      if h < |chain| then h else LastEnacted(last, chain, heights[..|heights| - 1])
  }

  function TablesAfter(t: Tables, chain: seq<Block>, n: Notification): Tables {
    match n.route
    case Some(route) => Enacted(Reverted(t, route.retracted), chain, route.enacted)
    case None => IndexedAt(t, chain, n.number)
  }

  function LastAfter(last: nat, chain: seq<Block>, n: Notification): nat {
    match n.route
    case Some(route) => LastEnacted(if route.retracted == [] then last else RevertTarget(route.retracted), chain, route.enacted)
    case None => if n.number < |chain| then n.number else last
  }

  /** A plain import whose block cannot be read leaves the cursor alone. */
  predicate Saves(chain: seq<Block>, n: Notification) {
    n.route.Some? || n.number < |chain|
  }

  predicate InU32(n: Notification) {
    n.route.Some? && n.route.value.retracted != [] ==> n.route.value.retracted[0] < U32_SIZE
  }

  lemma {:induction false} LastOfRoute(last: nat, chain: seq<Block>, n: Notification)
    ensures n.route.Some? && n.route.value.enacted != [] && n.route.value.enacted[|n.route.value.enacted| - 1] < |chain| ==>
              LastAfter(last, chain, n) == n.route.value.enacted[|n.route.value.enacted| - 1]
    ensures n.route.Some? && n.route.value.enacted == [] ==>
              LastAfter(last, chain, n) == if n.route.value.retracted == [] then last
                                           else if n.route.value.retracted[0] == 0 then 0
                                           else n.route.value.retracted[0] - 1
  {
  }

  method Enact(indexer: Indexer, chain: seq<Block>, heights: seq<nat>, last: nat) returns (last': nat)
    modifies indexer.db`blocks, indexer.db`transactions, indexer.db`outputs, indexer.db`addressHistory
    ensures indexer.db.Contents() == Enacted(old(indexer.db.Contents()), chain, heights)
    ensures last' == LastEnacted(last, chain, heights)
  {
    hide Batch;
    last' := last;
    for i := 0 to |heights|
      invariant indexer.db.Contents() == Enacted(old(indexer.db.Contents()), chain, heights[..i])
      invariant last' == LastEnacted(last, chain, heights[..i])
    {
      assert heights[..i + 1][..i] == heights[..i];
      if heights[i] < |chain| {
        indexer.db.IndexBlocksBatch(Numbered(chain, heights[i], heights[i] + 1));
        last' := heights[i];
      }
    }
    assert heights[..|heights|] == heights;
  }

  /** One turn of the live loop, against the canonical chain of that moment. */
  method Notify(indexer: Indexer, chain: seq<Block>, n: Notification, last: nat) returns (last': nat)
    requires |chain| < U32_SIZE && last < U32_SIZE && InU32(n)
    modifies indexer.db
    ensures indexer.db.Contents() == TablesAfter(old(indexer.db.Contents()), chain, n)
    ensures last' == LastAfter(last, chain, n) < U32_SIZE
    ensures Cursor(indexer.db.state) == if Saves(chain, n) then Some(Active(last')) else old(Cursor(indexer.db.state))
    ensures n.route.None? && n.number >= |chain| ==>
              last' == last && indexer.db.Contents() == old(indexer.db.Contents()) && indexer.db.state == old(indexer.db.state)
    ensures n.route.None? && n.number < |chain| ==> last' == n.number && Cursor(indexer.db.state) == Some(Active(n.number))
    ensures n.route.Some? ==> Cursor(indexer.db.state) == Some(Active(last'))
    ensures n.route.Some? && n.route.value.enacted != [] && n.route.value.enacted[|n.route.value.enacted| - 1] < |chain| ==>
              last' == n.route.value.enacted[|n.route.value.enacted| - 1]
    ensures n.route.Some? && n.route.value.enacted == [] ==>
              last' == if n.route.value.retracted == [] then last
                       else if n.route.value.retracted[0] == 0 then 0 else n.route.value.retracted[0] - 1
  {
    LastOfRoute(last, chain, n);
    hide Batch, Enacted, Revert, Cursor, LastEnacted;
    last' := last;
    if n.route.Some? {
      var route := n.route.value;
      if route.retracted != [] {
        last' := RevertTarget(route.retracted);
        indexer.db.RevertToHeight(last');
      }
      last' := Enact(indexer, chain, route.enacted, last');
    } else {
      if n.number >= |chain| { return; }
      last' := n.number;
      indexer.db.IndexBlocksBatch(Numbered(chain, n.number, n.number + 1));
    }
    indexer.SaveState(Active(last'));
  }

  // ----- When that is right -----

  /** The tables and the cursor of one uninterrupted pass over this chain. */
  ghost predicate IsCurrent(t: Tables, cursor: Option<IndexerState>, base: nat, chain: seq<Block>) {
    base <= 1 && 1 <= |chain| && t == Complete(chain, base, |chain|) && cursor == Some(Active(|chain| - 1))
  }

  /** The chains share their blocks up to `fork`. */
  ghost predicate Forks(a: seq<Block>, b: seq<Block>, fork: nat) {
    fork < |a| && fork < |b| && a[..fork + 1] == b[..fork + 1]
  }

  predicate Consecutive(heights: seq<nat>, start: nat) {
    forall i :: 0 <= i < |heights| ==> heights[i] == start + i
  }

  /** A route names blocks of the old chain as retracted and blocks of the new one, from the fork on, as enacted. A
      notification without one belongs to a chain that was extended or left alone. */
  ghost predicate Describes(n: Notification, chain: seq<Block>, chain': seq<Block>, fork: nat) {
    && Forks(chain, chain', fork)
    && match n.route
       case Some(route) =>
         && (route.retracted != [] ==> route.retracted[0] < |chain|)
         && Consecutive(route.enacted, fork + 1) && fork + 1 + |route.enacted| <= |chain'|
       case None => fork + 1 == |chain|
  }

  /** How many blocks of the old chain stay. */
  function Kept(chain: seq<Block>, retracted: seq<nat>): nat {
    if retracted == [] then |chain| else RevertTarget(retracted) + 1
  }

  /** A route must list the lowest retracted block first and enact up to the new tip. A plain import must be the one
      block that is missing, or the tip once more. */
  predicate Faithful(n: Notification, base: nat, chain: seq<Block>, chain': seq<Block>, fork: nat) {
    match n.route
    case Some(route) => Kept(chain, route.retracted) == fork + 1 && fork + 1 + |route.enacted| == |chain'|
    case None => if n.number < |chain'| then base <= n.number && n.number + 1 == |chain'| <= |chain| + 1 else |chain'| == |chain|
  }

  /** The first block that was given up holds a transaction that the new chain does not have, as its coinbase is. */
  ghost predicate Diverges(chain: seq<Block>, chain': seq<Block>, fork: nat) {
    fork + 1 < |chain| ==> exists tx :: tx in chain[fork + 1].txs && Lacks(chain', tx.txid)
  }

  ghost predicate Lacks(chain: seq<Block>, txid: Txid) {
    forall h, i :: 0 <= h < |chain| && 0 <= i < |chain[h].txs| ==> chain[h].txs[i].txid != txid
  }

  /** One more block, or the last one again, indexed as a batch of its own. */
  lemma {:induction false} EnactOne(chain: seq<Block>, base: nat, k: nat, p: nat)
    requires ValidChain(chain) && base <= 1 && base <= k < |chain| && k <= p <= k + 1
    ensures Batch(Complete(chain, base, p), Numbered(chain, k, k + 1)) == Complete(chain, base, k + 1)
  {
    hide *;
    var t := Complete(chain, base, p);
    CompleteIsState(chain, base, p);
    RestartState(t, chain, base, p, k, p);
    BatchKeepsState(t, chain, base, k, k + 1, p);
    MaxIs(p, k + 1);
    FinishedIsComplete(Batch(t, Numbered(chain, k, k + 1)), chain, base, k + 1);
  }

  lemma {:induction false} MaxIs(p: nat, k: nat)
    requires p <= k
    ensures Max(p, k) == k
  {
  }

  lemma {:induction false} EnactRange(chain: seq<Block>, base: nat, start: nat, heights: seq<nat>)
    requires ValidChain(chain) && base <= 1 && base <= start && Consecutive(heights, start)
    requires start + |heights| <= |chain|
    ensures Enacted(Complete(chain, base, start), chain, heights) == Complete(chain, base, start + |heights|)
  {
    hide ValidChain, Complete, Batch, Numbered;
    if heights != [] {
      var n := |heights| - 1;
      EnactRange(chain, base, start, heights[..n]);
      EnactOne(chain, base, start + n, start + n);
    }
  }

  lemma {:induction false} RevertKeepsBlocks(chain: seq<Block>, base: nat, retracted: seq<nat>)
    requires ValidChain(chain) && base <= 1 && |chain| >= 1 && (retracted != [] ==> retracted[0] < |chain|)
    ensures 1 <= Kept(chain, retracted) <= |chain|
    ensures Reverted(Complete(chain, base, |chain|), retracted) == Complete(chain, base, Kept(chain, retracted))
  {
    hide ValidChain, Complete, Revert;
    if retracted != [] { RevertToFork(chain, base, RevertTarget(retracted)); }
  }

  lemma {:induction false} FaithfulRoute(n: Notification, base: nat, chain: seq<Block>, chain': seq<Block>, fork: nat)
    requires ValidChain(chain) && ValidChain(chain') && base <= 1 && n.route.Some?
    requires Describes(n, chain, chain', fork) && Faithful(n, base, chain, chain', fork)
    ensures TablesAfter(Complete(chain, base, |chain|), chain', n) == Complete(chain', base, |chain'|)
  {
    hide ValidChain, Complete, Reverted, Enacted;
    RevertKeepsBlocks(chain, base, n.route.value.retracted);
    SamePrefix(chain, chain', base, fork + 1);
    EnactRange(chain', base, fork + 1, n.route.value.enacted);
  }

  lemma {:induction false} FaithfulImport(n: Notification, base: nat, chain: seq<Block>, chain': seq<Block>, fork: nat)
    requires ValidChain(chain) && ValidChain(chain') && base <= 1 && n.route.None?
    requires Describes(n, chain, chain', fork) && Faithful(n, base, chain, chain', fork)
    ensures TablesAfter(Complete(chain, base, |chain|), chain', n) == Complete(chain', base, |chain'|)
  {
    hide ValidChain, Complete, Batch, Numbered;
    SamePrefix(chain, chain', base, |chain|);
    if n.number < |chain'| { EnactOne(chain', base, n.number, |chain|); }
  }

  // ----- When it is not -----

  lemma {:induction false} RowsOfEntries(t: Tables, es: seq<Entry>, txid: Txid)
    requires txid in t.txs || exists e :: e in es && e.tx.txid == txid
    ensures txid in IndexEntries(t, es).txs
  {
    if es != [] {
      var n := |es| - 1;
      if es[n].tx.txid != txid {
        if txid !in t.txs {
          var e :| e in es && e.tx.txid == txid;
          assert e in es[..n];
        }
        RowsOfEntries(t, es[..n], txid);
      }
    }
  }

  lemma {:induction false} RowsOfBlocks(t: Tables, bs: seq<(nat, Block)>, txid: Txid)
    requires txid in t.txs || exists e :: e in Flatten(bs) && e.tx.txid == txid
    ensures txid in IndexBlocks(t, bs).txs
  {
    hide IndexEntries, Flatten, InsertBlocks;
    RowsOfEntries(t, Flatten(bs), txid);
  }

  lemma {:induction false} CompleteHasRow(chain: seq<Block>, base: nat, h: nat, n: nat, tx: Transaction)
    requires base <= h < n <= |chain| && tx in chain[h].txs
    ensures tx.txid in Complete(chain, base, n).txs
  {
    hide Complete, IndexBlocks;
    CompleteSplits(chain, base, h, h + 1);
    CompleteSplits(chain, base, h + 1, n);
    var i :| 0 <= i < |chain[h].txs| && chain[h].txs[i] == tx;
    FlattenPush([], (h, chain[h]));
    assert Numbered(chain, h, h + 1) == [] + [(h, chain[h])] && Flatten([]) == [];
    assert EntriesOf(h, chain[h])[i] in Flatten(Numbered(chain, h, h + 1));
    RowsOfBlocks(Complete(chain, base, h), Numbered(chain, h, h + 1), tx.txid);
    RowsOfBlocks(Complete(chain, base, h + 1), Numbered(chain, h + 1, n), tx.txid);
  }

  lemma {:induction false} CompleteLacksRow(chain: seq<Block>, base: nat, txid: Txid)
    requires base <= |chain| && Lacks(chain, txid)
    ensures txid !in Complete(chain, base, |chain|).txs
  {
    hide IndexEntries, Flatten, InsertBlocks, Numbered;
    FlattenedEntries(chain, base, |chain|);
    IndexedTxRows(EMPTY, Flatten(Numbered(chain, base, |chain|)), txid);
  }

  lemma {:induction false} RowsStay(t: Tables, chain: seq<Block>, heights: seq<nat>, txid: Txid)
    requires txid in t.txs
    ensures txid in Enacted(t, chain, heights).txs
  {
    hide CollectAll, Mark, InsertBlocks, Flatten;
    if heights != [] { RowsStay(t, chain, heights[..|heights| - 1], txid); }
  }

  lemma {:induction false} OtherBlock(t: Tables, chain: seq<Block>, h: nat, height: nat)
    requires height !in t.blocks && height != h
    ensures height !in IndexedAt(t, chain, h).blocks
  {
    hide BatchEntries, Flatten;
    if h < |chain| {
      var bs := Numbered(chain, h, h + 1);
      assert bs[..|bs| - 1] == [] && bs[0] == (h, chain[h]);
      assert InsertBlocks(t.blocks, bs) == InsertBlock(InsertBlocks(t.blocks, []), h, RowOf(chain[h]));
    }
  }

  lemma {:induction false} BlockStaysMissing(t: Tables, chain: seq<Block>, heights: seq<nat>, height: nat)
    requires height !in t.blocks && height !in heights
    ensures height !in Enacted(t, chain, heights).blocks
  {
    hide IndexedAt;
    if heights != [] {
      BlockStaysMissing(t, chain, heights[..|heights| - 1], height);
      OtherBlock(Enacted(t, chain, heights[..|heights| - 1]), chain, heights[|heights| - 1], height);
    }
  }

  lemma {:induction false} CompleteHasBlock(chain: seq<Block>, base: nat, n: nat, height: nat)
    requires ValidChain(chain) && base <= n <= |chain|
    ensures height in Complete(chain, base, n).blocks <==> base <= height < n
  {
    hide ValidChain, Complete;
    CompleteBlocks(chain, base, n);
  }

  /** Too little was reverted: a transaction of the old chain stays in the tables. */
  lemma {:induction false} StaleRoute(route: Route, base: nat, chain: seq<Block>, chain': seq<Block>, fork: nat)
    requires ValidChain(chain) && base <= 1 && Forks(chain, chain', fork) && Diverges(chain, chain', fork)
    requires (route.retracted != [] ==> route.retracted[0] < |chain|) && Kept(chain, route.retracted) > fork + 1
    ensures Enacted(Reverted(Complete(chain, base, |chain|), route.retracted), chain', route.enacted)
         != Complete(chain', base, |chain'|)
  {
    hide ValidChain, Complete, Reverted, Enacted, Lacks, Kept;
    var kept := Kept(chain, route.retracted);
    RevertKeepsBlocks(chain, base, route.retracted);
    var tx :| tx in chain[fork + 1].txs && Lacks(chain', tx.txid);
    CompleteHasRow(chain, base, fork + 1, kept, tx);
    RowsStay(Complete(chain, base, kept), chain', route.enacted, tx.txid);
    CompleteLacksRow(chain', base, tx.txid);
  }

  /** Too much was reverted: a block that both chains share is gone. */
  lemma {:induction false} GappedRoute(route: Route, base: nat, chain: seq<Block>, chain': seq<Block>, fork: nat)
    requires ValidChain(chain) && ValidChain(chain') && base <= 1 && Forks(chain, chain', fork)
    requires Consecutive(route.enacted, fork + 1)
    requires (route.retracted != [] ==> route.retracted[0] < |chain|) && Kept(chain, route.retracted) < fork + 1
    ensures Enacted(Reverted(Complete(chain, base, |chain|), route.retracted), chain', route.enacted)
         != Complete(chain', base, |chain'|)
  {
    hide ValidChain, Complete, Reverted, Enacted, Kept;
    var kept := Kept(chain, route.retracted);
    RevertKeepsBlocks(chain, base, route.retracted);
    CompleteHasBlock(chain, base, kept, kept);
    BlockStaysMissing(Complete(chain, base, kept), chain', route.enacted, kept);
    CompleteHasBlock(chain', base, |chain'|, kept);
  }

  /** An import past the next block leaves a gap. */
  lemma {:induction false} GappedImport(base: nat, chain: seq<Block>, chain': seq<Block>, number: nat)
    requires ValidChain(chain) && ValidChain(chain') && base <= 1 && 1 <= |chain| < |chain'| && number != |chain|
    ensures IndexedAt(Complete(chain, base, |chain|), chain', number) != Complete(chain', base, |chain'|)
  {
    hide ValidChain, Complete, IndexedAt;
    CompleteHasBlock(chain, base, |chain|, |chain|);
    OtherBlock(Complete(chain, base, |chain|), chain', number, |chain|);
    CompleteHasBlock(chain', base, |chain'|, |chain|);
  }

  /** An import of the genesis block into tables that start at block 1 adds it. */
  lemma {:induction false} GenesisImport(chain: seq<Block>)
    requires ValidChain(chain) && 1 <= |chain|
    ensures IndexedAt(Complete(chain, 1, |chain|), chain, 0) != Complete(chain, 1, |chain|)
  {
    CompleteHasBlock(chain, 1, |chain|, 0);
    hide ValidChain, Complete, BatchEntries, Flatten;
  }

  // ----- The two together -----

  /** The cursor after a notification that saved it or left it. */
  function CursorAfter(chain: seq<Block>, chain': seq<Block>, n: Notification): Option<IndexerState>
    requires |chain| >= 1
  {
    Some(Active(LastAfter(|chain| - 1, chain', n)))
  }

  lemma {:induction false} RouteIff(n: Notification, base: nat, chain: seq<Block>, chain': seq<Block>, fork: nat)
    requires ValidChain(chain) && ValidChain(chain') && base <= 1 && Describes(n, chain, chain', fork) && n.route.Some?
    ensures Faithful(n, base, chain, chain', fork) ==>
              IsCurrent(TablesAfter(Complete(chain, base, |chain|), chain', n), CursorAfter(chain, chain', n), base, chain')
    ensures IsCurrent(TablesAfter(Complete(chain, base, |chain|), chain', n), CursorAfter(chain, chain', n), base, chain') ==>
              Faithful(n, base, chain, chain', fork) || !Diverges(chain, chain', fork)
  {
    hide ValidChain, Complete, Reverted, Enacted, Diverges;
    var route := n.route.value;
    if Faithful(n, base, chain, chain', fork) {
      FaithfulRoute(n, base, chain, chain', fork);
    } else if Kept(chain, route.retracted) > fork + 1 && Diverges(chain, chain', fork) {
      StaleRoute(route, base, chain, chain', fork);
    } else if Kept(chain, route.retracted) < fork + 1 {
      GappedRoute(route, base, chain, chain', fork);
    }
  }

  lemma {:induction false} ImportIff(n: Notification, base: nat, chain: seq<Block>, chain': seq<Block>, fork: nat)
    requires ValidChain(chain) && ValidChain(chain') && base <= 1 && Describes(n, chain, chain', fork) && n.route.None?
    ensures IsCurrent(TablesAfter(Complete(chain, base, |chain|), chain', n), CursorAfter(chain, chain', n), base, chain')
            <==> Faithful(n, base, chain, chain', fork)
  {
    hide ValidChain, Complete, IndexedAt;
    if Faithful(n, base, chain, chain', fork) {
      FaithfulImport(n, base, chain, chain', fork);
    } else if |chain| < |chain'| && n.number != |chain| {
      GappedImport(base, chain, chain', n.number);
    } else if n.number < base && |chain'| == |chain| {
      assert chain[..|chain|] == chain && chain'[..|chain'|] == chain';
      GenesisImport(chain);
    }
  }

  ghost predicate Current(db: Database, base: nat, chain: seq<Block>)
    reads db
  {
    IsCurrent(db.Contents(), Cursor(db.state), base, chain)
  }

  lemma {:induction false} NotifyIff(n: Notification, base: nat, chain: seq<Block>, chain': seq<Block>, fork: nat)
    requires ValidChain(chain) && ValidChain(chain') && base <= 1 && Describes(n, chain, chain', fork)
    ensures Faithful(n, base, chain, chain', fork) ==>
              IsCurrent(TablesAfter(Complete(chain, base, |chain|), chain', n), CursorAfter(chain, chain', n), base, chain')
    ensures IsCurrent(TablesAfter(Complete(chain, base, |chain|), chain', n), CursorAfter(chain, chain', n), base, chain') ==>
              Faithful(n, base, chain, chain', fork) || !Diverges(chain, chain', fork)
  {
    hide ValidChain, IsCurrent, TablesAfter, Diverges, Faithful, Complete;
    if n.route.Some? {
      RouteIff(n, base, chain, chain', fork);
    } else {
      ImportIff(n, base, chain, chain', fork);
    }
  }

  lemma {:induction false} NotSaved(last: nat, chain: seq<Block>, n: Notification)
    ensures !Saves(chain, n) ==> LastAfter(last, chain, n) == last
  {
  }

  lemma {:induction false} DescribesFits(n: Notification, chain: seq<Block>, chain': seq<Block>, fork: nat)
    requires ValidChain(chain) && ValidChain(chain') && Describes(n, chain, chain', fork)
    ensures |chain| < U32_SIZE && |chain'| < U32_SIZE && InU32(n) && 1 <= |chain|
  {
  }

  /** A notification that takes the chain to `chain'`. Afterwards the tables and the cursor are those of `chain'`
      exactly when the notification is faithful, as long as the branch that was given up had a transaction of its own.
      */
  method Follow(indexer: Indexer, ghost base: nat, ghost chain: seq<Block>, chain': seq<Block>, ghost fork: nat,
                n: Notification, last: nat)
    returns (last': nat)
    requires ValidChain(chain) && ValidChain(chain') && Describes(n, chain, chain', fork)
    requires Current(indexer.db, base, chain) && last + 1 == |chain|
    modifies indexer.db
    ensures Faithful(n, base, chain, chain', fork) ==> Current(indexer.db, base, chain') && last' + 1 == |chain'|
    ensures Current(indexer.db, base, chain') ==>
              Faithful(n, base, chain, chain', fork) || !Diverges(chain, chain', fork)
  {
    hide ValidChain, TablesAfter, Diverges, Faithful, Complete, Describes, Cursor, LastAfter;
    DescribesFits(n, chain, chain', fork);
    NotifyIff(n, base, chain, chain', fork);
    NotSaved(last, chain', n);
    last' := Notify(indexer, chain', n, last);
  }

  /** Any number of faithful notifications: the tables are always those of the chain followed last, whatever was
      retracted on the way. */
  method FollowAll(indexer: Indexer, ghost base: nat, chains: seq<seq<Block>>, ghost forks: seq<nat>,
                   ns: seq<Notification>)
    requires |chains| == |ns| + 1 == |forks| + 1 && (forall i :: 0 <= i < |chains| ==> ValidChain(chains[i]))
    requires forall i :: 0 <= i < |ns| ==> Describes(ns[i], chains[i], chains[i + 1], forks[i])
    requires forall i :: 0 <= i < |ns| ==> Faithful(ns[i], base, chains[i], chains[i + 1], forks[i])
    requires Current(indexer.db, base, chains[0])
    modifies indexer.db
    ensures Current(indexer.db, base, chains[|ns|])
  {
    assert |chains[0]| >= 1;
    hide *;
    var last := |chains[0]| - 1;
    for i := 0 to |ns|
      invariant Current(indexer.db, base, chains[i]) && last + 1 == |chains[i]|
    {
      last := Follow(indexer, base, chains[i], chains[i + 1], forks[i], ns[i], last);
    }
  }

  // ----- Routes that list the retracted blocks from the old tip down -----

  predicate Descending(retracted: seq<nat>, top: nat, fork: nat) {
    fork + |retracted| == top && forall i :: 0 <= i < |retracted| ==> retracted[i] == top - i
  }

  /** Such a route is followed exactly when it gives up at most one block. */
  lemma {:induction false} DescendingIff(route: Route, number: nat, base: nat, chain: seq<Block>, chain': seq<Block>,
                                         fork: nat)
    requires ValidChain(chain) && ValidChain(chain') && base <= 1
    requires Describes(Notification(number, Some(route)), chain, chain', fork)
    requires Descending(route.retracted, |chain| - 1, fork) && fork + 1 + |route.enacted| == |chain'|
    requires Diverges(chain, chain', fork)
    ensures var n := Notification(number, Some(route));
            IsCurrent(TablesAfter(Complete(chain, base, |chain|), chain', n), CursorAfter(chain, chain', n), base, chain')
            <==> |route.retracted| <= 1
  {
    hide ValidChain, IsCurrent, TablesAfter, Diverges, Complete;
    RouteIff(Notification(number, Some(route)), base, chain, chain', fork);
  }

  function Coinbase(txid: Txid): Transaction {
    Transaction(txid, txid, [OutPoint(0, 0xFFFF_FFFF)], [], 2, 100, 400)
  }

  /** A chain of blocks with nothing but a coinbase. */
  function Mined(ids: seq<nat>): seq<Block> {
    seq(|ids|, h requires 0 <= h < |ids| => Block(ids[h], 0, None, [Coinbase(ids[h])]))
  }

  lemma {:induction false} MinedEntries(ids: seq<nat>, from: nat, end: nat)
    requires from <= end <= |ids|
    ensures var es := Flatten(Numbered(Mined(ids), from, end));
            |es| == end - from && forall i :: 0 <= i < |es| ==> es[i] == Entry(from + i, 0, Coinbase(ids[from + i]))
    decreases end
  {
    if from < end {
      var chain, n := Mined(ids), end - 1;
      MinedEntries(ids, from, n);
      assert Numbered(chain, from, end) == Numbered(chain, from, n) + [(n, chain[n])];
      FlattenPush(Numbered(chain, from, n), (n, chain[n]));
      assert EntriesOf(n, chain[n]) == [Entry(n, 0, Coinbase(ids[n]))];
    }
  }

  lemma {:induction false} MinedIsValid(ids: seq<nat>)
    requires |ids| < U32_SIZE && forall i, j :: 0 <= i < j < |ids| ==> ids[i] != ids[j]
    ensures ValidChain(Mined(ids))
  {
    var chain := Mined(ids);
    forall base: nat | base <= 1 && base <= |chain| ensures ValidEntries(ChainEntries(chain, base)) {
      MinedEntries(ids, base, |ids|);
    }
  }

  /** For instance: blocks 2 and 1 are given up for blocks 1 to 3 of another branch. */
  lemma {:induction false} DeepReorgFails(chain: seq<Block>, chain': seq<Block>, n: Notification)
    requires chain == Mined([1, 2, 3]) && chain' == Mined([1, 4, 5, 6])
    requires n == Notification(3, Some(Route([2, 1], [1, 2, 3])))
    ensures ValidChain(chain) && ValidChain(chain') && Describes(n, chain, chain', 0)
    ensures !IsCurrent(TablesAfter(Complete(chain, 0, 3), chain', n), CursorAfter(chain, chain', n), 0, chain')
  {
    MinedIsValid([1, 2, 3]);
    MinedIsValid([1, 4, 5, 6]);
    hide ValidChain, IsCurrent, TablesAfter, Complete;
    assert chain[..1] == chain'[..1];
    assert Diverges(chain, chain', 0) by {
      assert chain[1].txs[0] == Coinbase(2) && Lacks(chain', Coinbase(2).txid);
    }
    DescendingIff(n.route.value, n.number, 0, chain, chain', 0);
  }
}
