/** The loop that catches up before the indexer goes live. */
module IndexerRun {
  import opened Bitcoin
  import opened IndexerTables
  import opened IndexerCursor
  import opened IndexerChain
  import opened IndexerResume

  /** The best block as one pass of the loop reads it: before the gap is filled, while, and after. */
  datatype Pass = Pass(before: nat, during: nat, after: nat)

  /** The chain never shrinks from one reading to the next. */
  ghost predicate Growing(passes: seq<Pass>, first: nat, bound: nat) {
    && (forall k :: 0 <= k < |passes| ==> first <= passes[k].before <= passes[k].during <= passes[k].after < bound)
    && forall j, k :: 0 <= j < k < |passes| ==> passes[j].after <= passes[k].before
  }

  /** The cursor belongs to an interrupted pass whose target is not the present best block. */
  predicate ResumesOldTarget(cursor: Option<IndexerState>, best: nat) {
    cursor.Some? && cursor.value.HistoricalIndexing? && cursor.value.targetHeight != best + 1
  }

  lemma {:induction false} TargetIsSeen(indexer: Indexer, chain: seq<Block>, best: nat)
    requires indexer.Sound(chain, best)
    ensures EndOf(Cursor(indexer.db.state), best) <= best + 1
  {
    hide TablesState, Parse;
  }

  lemma {:induction false} StillSound(indexer: Indexer, chain: seq<Block>, best: nat, best': nat)
    requires indexer.Sound(chain, best) && best <= best' < |chain|
    ensures indexer.Sound(chain, best')
  {
    hide *;
    indexer.StaysSound(chain, best, best');
  }

  /** Fills the gap again and again until the best block has not moved meanwhile. `exit` is the pass after which the
      indexer goes live, if it does. It goes live behind the best block exactly when that was its first pass and the
      pass resumed an older target. */
  method CatchUpLoop(indexer: Indexer, chain: seq<Block>, ghost first: nat, passes: seq<Pass>, steps: seq<nat>)
    returns (exit: Option<nat>, last: nat)
    requires ValidChain(chain) && |passes| == |steps| && Growing(passes, first, |chain|)
    requires first < |chain| && indexer.Sound(chain, first)
    modifies indexer, indexer.db
    ensures exit.Some? ==>
      && exit.value < |passes| && passes[exit.value].before == passes[exit.value].after
      && indexer.Finished(chain) && Cursor(indexer.db.state) == Some(Active(last))
      && last <= passes[exit.value].after
      && (last < passes[exit.value].after <==>
            exit.value == 0 && ResumesOldTarget(old(Cursor(indexer.db.state)), passes[0].after))
    ensures exit == Some(0) ==> last + 1 == EndOf(old(Cursor(indexer.db.state)), passes[0].during)
    ensures passes != [] && steps[0] > 2 * |chain| + 1 && passes[0].before == passes[0].after ==> exit == Some(0)
  {
    hide Indexer.Sound, Indexer.Finished, Cursor, ValidChain;
    ghost var best: nat := first;
    ghost var start := Cursor(indexer.db.state);
    for k := 0 to |passes|
      invariant best < |chain| && indexer.Sound(chain, best) && (k < |passes| ==> best <= passes[k].before)
      invariant k == 0 ==> Cursor(indexer.db.state) == start
      invariant k > 0 ==> steps[0] <= 2 * |chain| + 1 || passes[0].before != passes[0].after
      invariant k > 0 ==> Cursor(indexer.db.state).Some? && Cursor(indexer.db.state).value.Active?
    {
      var pass := passes[k];
      StillSound(indexer, chain, best, pass.during);
      TargetIsSeen(indexer, chain, pass.during);
      ghost var cursor := Cursor(indexer.db.state);
      var crashed := indexer.HandleIndexGap(chain, pass.during, steps[k]);
      if crashed { return None, 0; }
      if pass.before == pass.after {
        var state := indexer.LoadState();
        exit, last := Some(k), 0;
        if state.Some? && state.value.Active? { last := state.value.lastIndexed; }
        return;
      }
      best := pass.during;
    }
    return None, 0;
  }

  // ----- An instance -----

  lemma {:induction false} NoTransactions(bs: seq<(nat, Block)>)
    requires forall i :: 0 <= i < |bs| ==> bs[i].1.txs == []
    ensures Flatten(bs) == []
  {
    if bs != [] { NoTransactions(bs[..|bs| - 1]); }
  }

  lemma {:induction false} EmptyBlocksAreValid(chain: seq<Block>)
    requires |chain| < U32_SIZE && (forall i :: 0 <= i < |chain| ==> chain[i].txs == [])
    requires forall i, j :: 0 <= i < j < |chain| ==> chain[i].hash != chain[j].hash
    ensures ValidChain(chain)
  {
    forall base | 0 <= base <= 1 && base <= |chain| ensures ValidEntries(ChainEntries(chain, base)) {
      NoTransactions(Numbered(chain, base, |chain|));
    }
  }

  function ThreeBlocks(): seq<Block> {
    [Block(10, 0, None, []), Block(11, 0, None, []), Block(12, 0, None, [])]
  }

  lemma {:induction false} ThreeBlocksAreValid()
    ensures ValidChain(ThreeBlocks()) && |ThreeBlocks()| == 3
  {
    hide ValidChain;
    EmptyBlocksAreValid(ThreeBlocks());
  }

  /** A first start at best block 1 dies right after saving its cursor. Meanwhile block 2 arrives. The next run finishes
      the old pass, finds that the best block did not move, and goes live one block behind. */
  method GoesLiveBehind() returns (live: bool, last: nat, best: nat)
    ensures live && last == 1 && best == 2
  {
    hide ThreeBlocks, ValidChain, Indexer.Sound, Indexer.Finished, Cursor;
    var chain := ThreeBlocks();
    ThreeBlocksAreValid();
    var indexer := new Indexer();
    indexer.NothingYet(chain, [1], [1]);
    var crashed := indexer.FreshStart(chain, 1, 1);
    best := 2;
    StillSound(indexer, chain, 1, best);
    var exit;
    exit, last := CatchUpLoop(indexer, chain, best, [Pass(best, best, best)], [8]);
    live := exit.Some?;
  }

  /** A first start sees only the genesis block, a later one three blocks. Both complete, and the genesis block is still
      missing. */
  method GenesisStaysOut() returns (indexer: Indexer, completed: bool)
    ensures completed && 0 !in indexer.db.blocks && indexer.base == 1
  {
    hide ThreeBlocks, ValidChain, Indexer.FinishedAtSeen;
    var chain := ThreeBlocks();
    ThreeBlocksAreValid();
    indexer := new Indexer();
    var bests, steps := [0, 2], [8, 8];
    assert StartOf(bests, steps, 1) == Some(1);
    assert StartOf(bests, steps, 2) == Some(1);
    completed := indexer.Restarts(chain, bests, steps);
  }
}
