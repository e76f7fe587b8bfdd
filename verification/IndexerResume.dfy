/** Historical indexing that may crash between any two durable steps and resumes from its saved cursor. */
module IndexerResume {
  import opened Bitcoin
  import opened IndexerTables
  import opened IndexerBatch
  import opened IndexerChain
  import opened IndexerCursor
  import opened IndexerDatabase

  const PROGRESS_SAVE_INTERVAL: nat := 1000
  const BATCH_SIZE: nat := 100

  /** Blocks `from` to `to - 1` with their heights. */
  function Numbered(chain: seq<Block>, from: nat, to: nat): seq<(nat, Block)>
    requires from <= to <= |chain|
  {
    seq(to - from, k requires 0 <= k < to - from => (from + k, chain[from + k]))
  }

  function ChainEntries(chain: seq<Block>, base: nat): seq<Entry>
    requires base <= |chain|
  {
    Flatten(Numbered(chain, base, |chain|))
  }

  /** Where block `h` starts among the transactions of the chain. */
  function Offset(chain: seq<Block>, base: nat, h: nat): nat
    requires base <= h <= |chain|
  {
    |Flatten(Numbered(chain, base, h))|
  }

  lemma {:induction false} RangeIsSlice(chain: seq<Block>, base: nat, from: nat, to: nat)
    requires base <= from <= to <= |chain|
    ensures Offset(chain, base, from) <= Offset(chain, base, to) <= |ChainEntries(chain, base)|
    ensures Flatten(Numbered(chain, base, to)) == ChainEntries(chain, base)[..Offset(chain, base, to)]
    ensures Flatten(Numbered(chain, from, to))
            == ChainEntries(chain, base)[Offset(chain, base, from)..Offset(chain, base, to)]
  {
    assert Numbered(chain, base, to) == Numbered(chain, base, from) + Numbered(chain, from, to);
    assert Numbered(chain, base, |chain|) == Numbered(chain, base, to) + Numbered(chain, to, |chain|);
    FlattenAppend(Numbered(chain, base, from), Numbered(chain, from, to));
    FlattenAppend(Numbered(chain, base, to), Numbered(chain, to, |chain|));
  }

  ghost predicate ValidChain(chain: seq<Block>) {
    && |chain| < U32_SIZE
    && (forall base :: 0 <= base <= 1 && base <= |chain| ==> ValidEntries(ChainEntries(chain, base)))
    && forall i, j :: 0 <= i < j < |chain| ==> chain[i].hash != chain[j].hash
  }

  function BlockTable(chain: seq<Block>, base: nat, n: nat): map<nat, BlockRow>
    requires n <= |chain|
  {
    map h: nat | base <= h < n :: RowOf(chain[h])
  }

  lemma {:induction false} ReinsertBlocks(chain: seq<Block>, base: nat, k: nat, k': nat, p: nat)
    requires ValidChain(chain) && base <= k <= k' <= |chain| && k <= p <= |chain|
    ensures InsertBlocks(BlockTable(chain, base, p), Numbered(chain, k, k')) == BlockTable(chain, base, Max(p, k'))
    decreases k' - k
  {
    hide ValidChain, Numbered, BlockTable, InsertBlock, RowOf;
    if k == k' {
      NumberedNone(chain, k);
    } else {
      var n := k' - 1;
      ReinsertBlocks(chain, base, k, n, p);
      NumberedPush(chain, k, n);
      InsertPush(BlockTable(chain, base, p), Numbered(chain, k, n), (n, chain[n]));
      ReinsertBlock(chain, base, n, Max(p, n));
    }
  }

  lemma {:induction false} NumberedNone(chain: seq<Block>, k: nat)
    requires k <= |chain|
    ensures Numbered(chain, k, k) == []
  {
  }

  lemma {:induction false} NumberedPush(chain: seq<Block>, k: nat, n: nat)
    requires k <= n < |chain|
    ensures Numbered(chain, k, n + 1) == Numbered(chain, k, n) + [(n, chain[n])]
  {
  }

  lemma {:induction false} InsertPush(blocks: map<nat, BlockRow>, bs: seq<(nat, Block)>, b: (nat, Block))
    ensures InsertBlocks(blocks, bs + [b]) == InsertBlock(InsertBlocks(blocks, bs), b.0, RowOf(b.1))
  {
    assert (bs + [b])[..|bs + [b]| - 1] == bs;
  }

  lemma {:induction false} ReinsertBlock(chain: seq<Block>, base: nat, n: nat, p: nat)
    requires ValidChain(chain) && base <= n < |chain| && n <= p <= |chain|
    ensures InsertBlock(BlockTable(chain, base, p), n, RowOf(chain[n])) == BlockTable(chain, base, Max(p, n + 1))
  {
  }

  /** Blocks below `p` have been indexed at least once, and a second pass stands at block `k`. */
  ghost predicate TablesState(t: Tables, chain: seq<Block>, base: nat, k: nat, p: nat) {
    && base <= k <= p <= |chain|
    && t.blocks == BlockTable(chain, base, p)
    && Offset(chain, base, k) <= Offset(chain, base, p) <= |ChainEntries(chain, base)|
    && HalfDone(t, ChainEntries(chain, base), Offset(chain, base, k), Offset(chain, base, p))
  }

  /** What one uninterrupted pass over blocks `base` to `n - 1` leaves, one transaction at a time. */
  function Complete(chain: seq<Block>, base: nat, n: nat): Tables
    requires base <= n <= |chain|
  {
    IndexBlocks(EMPTY, Numbered(chain, base, n))
  }

  /** A batch over part of a chain already indexed so far does what its transactions would do one at a time. */
  lemma {:induction false} BatchOnState(t: Tables, chain: seq<Block>, base: nat, k: nat, k': nat, p: nat)
    requires ValidChain(chain) && base <= 1 && k <= k' <= |chain| && TablesState(t, chain, base, k, p)
    ensures Batch(t, Numbered(chain, k, k')) == IndexBlocks(t, Numbered(chain, k, k'))
  {
    hide IndexEntries, HalfDone, BatchEntries, InsertBlocks;
    RangeIsSlice(chain, base, k, k');
    RangeIsSlice(chain, base, k, p);
    RangeIsCompatible(t, ChainEntries(chain, base), Offset(chain, base, k), Offset(chain, base, k'),
                      Offset(chain, base, p));
    BatchIsDirect(t, Flatten(Numbered(chain, k, k')));
  }

  lemma {:induction false} BatchKeepsState(t: Tables, chain: seq<Block>, base: nat, k: nat, k': nat, p: nat)
    requires ValidChain(chain) && base <= 1 && k <= k' <= |chain| && TablesState(t, chain, base, k, p)
    ensures TablesState(Batch(t, Numbered(chain, k, k')), chain, base, k', Max(p, k'))
  {
    var es, bs := ChainEntries(chain, base), Numbered(chain, k, k');
    var q, q', r := Offset(chain, base, k), Offset(chain, base, k'), Offset(chain, base, p);
    BatchOnState(t, chain, base, k, k', p);
    RangeIsSlice(chain, base, k, k');
    RangeIsSlice(chain, base, k, p);
    if p < k' { RangeIsSlice(chain, base, p, k'); } else { RangeIsSlice(chain, base, k', p); }
    ReindexRange(t, es, q, q', r);
    ReinsertBlocks(chain, base, k, k', p);
    assert Max(r, q') == Offset(chain, base, Max(p, k'));
  }

  lemma {:induction false} RestartState(t: Tables, chain: seq<Block>, base: nat, k: nat, k': nat, p: nat)
    requires base <= k' <= k && TablesState(t, chain, base, k, p)
    ensures TablesState(t, chain, base, k', p)
  {
    RangeIsSlice(chain, base, k', k);
    RestartHalfDone(t, ChainEntries(chain, base), Offset(chain, base, k), Offset(chain, base, k'),
                    Offset(chain, base, p));
  }

  lemma {:induction false} FinishedIsComplete(t: Tables, chain: seq<Block>, base: nat, n: nat)
    requires ValidChain(chain) && base <= 1 && TablesState(t, chain, base, n, n)
    ensures t == Complete(chain, base, n)
  {
    var es, p := ChainEntries(chain, base), Offset(chain, base, n);
    RangeIsSlice(chain, base, n, n);
    CaughtUp(t, es, p);
    ReinsertBlocks(chain, base, base, n, base);
    assert BlockTable(chain, base, base) == map[];
    assert Max(base, n) == n;
  }

  lemma {:induction false} EmptyState(chain: seq<Block>, base: nat)
    requires base <= |chain|
    ensures TablesState(EMPTY, chain, base, base, base)
  {
  }

  // ----- The durable state between starts of the process -----

  ghost function Cursor(cell: Option<string>): Option<IndexerState> {
    match cell case None => None case Some(value) => Parse(value)
  }

  /** What the database promises to the next start. `reach` is how far indexing ever got, `best` the best block seen. */
  ghost predicate Durable(t: Tables, cell: Option<string>, chain: seq<Block>, base: nat, reach: nat, best: nat) {
    && base <= 1 && reach <= best + 1 <= |chain|
    && match Cursor(cell)
       case None => cell == None && t == EMPTY
       case Some(HistoricalIndexing(target, current)) =>
         1 <= target <= best + 1 && reach <= target && TablesState(t, chain, base, current, reach)
       case Some(Active(last)) => TablesState(t, chain, base, last + 1, reach)
  }

  /** The best block only ever moves up. */
  lemma {:induction false} BestMovesUp(t: Tables, cell: Option<string>, chain: seq<Block>, base: nat, reach: nat,
                                       best: nat, best': nat)
    requires Durable(t, cell, chain, base, reach, best) && best <= best' < |chain|
    ensures Durable(t, cell, chain, base, reach, best')
  {
  }

  /** The saved cursor points at or before block `height`, on the way to block `end`. */
  ghost predicate CursorBehind(cell: Option<string>, base: nat, end: nat, height: nat) {
    match Cursor(cell)
    case None => false
    case Some(HistoricalIndexing(target, current)) => target == end && base <= current <= height
    case Some(Active(last)) => base <= last + 1 <= height
  }

  /** The block that a start with this cursor goes on with. */
  function Position(cursor: IndexerState): nat {
    match cursor
    case HistoricalIndexing(_, current) => current
    case Active(last) => last + 1
  }

  /** The cursor is at most a thousand blocks behind what has been indexed. */
  ghost predicate CloseBehind(cell: Option<string>, reach: nat) {
    Cursor(cell).Some? ==> reach <= Position(Cursor(cell).value) + 1000
  }

  /** The saved cursor, if it is still on its way, is on its way to block `end`. */
  predicate Aims(cursor: Option<IndexerState>, end: nat) {
    match cursor
    case None => false
    case Some(HistoricalIndexing(target, _)) => target == end
    case Some(Active(_)) => true
  }

  /** Where a start with this cursor is heading. */
  function EndOf(cursor: Option<IndexerState>, best: nat): nat {
    match cursor
    case Some(HistoricalIndexing(target, _)) => target
    case _ => best + 1
  }

  lemma {:induction false} BehindAims(cell: Option<string>, base: nat, end: nat, height: nat)
    requires CursorBehind(cell, base, end, height)
    ensures Aims(Cursor(cell), end)
  {
  }

  // ----- How often the cursor moves -----

  /** How many batches of a hundred blocks, and how many full thousands. */
  function Hundreds(n: nat): nat {
    (n + 99) / 100
  }

  function Thousands(n: nat): nat {
    n / 1000
  }

  /** After `processed` blocks: one batch for each hundred begun, and the cursor saved after the first batch and after each
      thousand blocks, but not at the very end. */
  ghost predicate OnSchedule(processed: nat, more: bool, batches: nat, saves: nat, saved: nat) {
    && batches == Hundreds(processed)
    && saves <= (if processed == 0 then 0 else 1 + Thousands(processed))
    && saved <= processed <= saved + 1000
    && (more ==> processed == 100 * batches && saved == SavedAt(processed))
  }

  /** What the cursor was saved at while there is more to come. */
  ghost function SavedAt(processed: nat): nat {
    if processed == 0 then 0 else if processed < 1000 then 100 else processed - processed % 1000
  }

  lemma {:induction false} SavedIsNear(processed: nat, batches: nat)
    requires processed == 100 * batches
    ensures SavedAt(processed) <= processed && processed + 100 <= SavedAt(processed) + 1000
  {
    var t, r := processed / 1000, processed % 1000;
    assert processed == 1000 * t + r && r == 100 * (batches - 10 * t);
  }

  lemma {:induction false} SavedNext(processed: nat, batches: nat)
    requires processed == 100 * batches
    ensures var next := processed + 100;
            SavedAt(next) == if next % 1000 == 0 || processed == 0 then next else SavedAt(processed)
  {
    var t, r := processed / 1000, processed % 1000;
    assert processed == 1000 * t + r && r == 100 * (batches - 10 * t);
    if r < 900 {
      Remainder(processed + 100, t, r + 100);
    } else {
      Remainder(processed + 100, t + 1, 0);
    }
  }

  lemma {:induction false} Remainder(n: nat, t: nat, r: nat)
    requires n == 1000 * t + r && r < 1000
    ensures n % 1000 == r
  {
  }

  lemma {:induction false} ThousandsNext(processed: nat, n: nat)
    requires 1 <= n <= 100
    ensures Thousands(processed) <= Thousands(processed + n)
    ensures (processed + n) % 1000 == 0 ==> Thousands(processed) + 1 <= Thousands(processed + n)
  {
  }

  lemma {:induction false} HundredsNext(batches: nat, n: nat)
    requires 1 <= n <= 100
    ensures Hundreds(100 * batches + n) == batches + 1
  {
  }

  lemma {:induction false} ScheduleStep(processed: nat, total: nat, batches: nat, saves: nat, saved: nat, n: nat)
    requires OnSchedule(processed, true, batches, saves, saved) && processed < total
    requires n == if processed + 100 < total then 100 else total - processed
    ensures processed + n <= saved + 1000 && saved <= processed
    ensures var more, next := processed + n < total, processed + n;
            var saving := more && (next % 1000 == 0 || processed == 0);
            OnSchedule(next, more, batches + 1, if saving then saves + 1 else saves, if saving then next else saved)
    ensures batches + 1 <= Hundreds(total) && saves <= Thousands(total) + 1
  {
    SavedIsNear(processed, batches);
    SavedNext(processed, batches);
    ThousandsNext(processed, n);
    HundredsNext(batches, n);
    ScheduleBounds(processed, total, batches, saves);
    hide Hundreds, Thousands, SavedAt;
  }

  lemma {:induction false} ScheduleBounds(processed: nat, total: nat, batches: nat, saves: nat)
    requires processed < total && processed == 100 * batches && saves <= 1 + Thousands(processed)
    ensures batches + 1 <= Hundreds(total) && saves <= Thousands(total) + 1
  {
  }

  lemma {:induction false} ScheduleStarts(more: bool)
    ensures OnSchedule(0, more, 0, 0, 0)
  {
  }

  lemma {:induction false} ScheduleEnds(total: nat, batches: nat, saves: nat, saved: nat)
    requires OnSchedule(total, false, batches, saves, saved)
    ensures batches == Hundreds(total) && saves <= Thousands(total) + 1 && saved <= total
  {
  }

  // ----- Several starts -----

  /** The first block of the pass, fixed by the first of `n` starts that took a durable step. */
  function StartOf(bests: seq<nat>, steps: seq<nat>, n: nat): Option<nat>
    requires n <= |bests| && n <= |steps|
  {
    if n == 0 then None else
      match StartOf(bests, steps, n - 1)
      case Some(base) => Some(base)
      case None => if steps[n - 1] == 0 then None else Some(if bests[n - 1] > 0 then 0 else 1)
  }

  /** One of the first `n` starts saw `end - 1` as the best block. */
  ghost predicate Seen(bests: seq<nat>, n: nat, end: nat)
    requires n <= |bests|
  {
    exists j :: 0 <= j < n && end == bests[j] + 1
  }

  ghost predicate AimsAtSeen(cursor: Option<IndexerState>, bests: seq<nat>, n: nat)
    requires n <= |bests|
  {
    cursor.Some? && cursor.value.HistoricalIndexing? ==> Seen(bests, n, cursor.value.targetHeight)
  }

  lemma {:induction false} AimStep(before: Option<IndexerState>, after: Option<IndexerState>, bests: seq<nat>, i: nat)
    requires i < |bests| && AimsAtSeen(before, bests, i) && (after.Some? ==> Aims(after, EndOf(before, bests[i])))
    ensures AimsAtSeen(after, bests, i + 1) && Seen(bests, i + 1, EndOf(before, bests[i]))
  {
    if before.Some? && before.value.HistoricalIndexing? {
      var j :| 0 <= j < i && before.value.targetHeight == bests[j] + 1;
      assert 0 <= j < i + 1 && EndOf(before, bests[i]) == bests[j] + 1;
    } else {
      assert 0 <= i < i + 1 && EndOf(before, bests[i]) == bests[i] + 1;
    }
  }

  lemma {:induction false} CrashIsSound(t: Tables, cell: Option<string>, chain: seq<Block>, base: nat, reach: nat,
                                        best: nat, end: nat, height: nat)
    requires base <= 1 && TablesState(t, chain, base, height, reach) && reach <= end && 1 <= end <= best + 1 <= |chain|
    requires CursorBehind(cell, base, end, height)
    ensures Durable(t, cell, chain, base, reach, best)
  {
    hide HalfDone, ChainEntries, Offset, BlockTable, Parse;
    match Cursor(cell)
    case Some(HistoricalIndexing(target, current)) => RestartState(t, chain, base, height, current, reach);
    case Some(Active(last)) => RestartState(t, chain, base, height, last + 1, reach);
  }

  /** A pass that started at block 0 and one that started at block 1 never agree: the second lacks the genesis block. */
  lemma {:induction false} GenesisMatters(chain: seq<Block>, n: nat)
    requires ValidChain(chain) && 1 <= n <= |chain|
    ensures 0 in Complete(chain, 0, n).blocks && 0 !in Complete(chain, 1, n).blocks
  {
    ReinsertBlocks(chain, 0, 0, n, 0);
    ReinsertBlocks(chain, 1, 1, n, 1);
    assert BlockTable(chain, 0, 0) == map[] && BlockTable(chain, 1, 1) == map[];
  }

  class Indexer {
    const db: Database
    ghost var base: nat
    ghost var reach: nat

    constructor ()
      ensures fresh(db) && db.Contents() == EMPTY && db.state == None && base == reach == 0
    {
      db := new Database();
      base, reach := 0, 0;
    }

    ghost predicate Sound(chain: seq<Block>, best: nat)
      reads this, db
    {
      Durable(db.Contents(), db.state, chain, base, reach, best)
    }

    method SaveState(s: IndexerState)
      requires FitsU32(s)
      modifies db`state
      ensures Cursor(db.state) == Some(s)
    {
      db.state := Some(Format(s));
      CursorRoundTrip(s);
    }

    method LoadState() returns (s: Option<IndexerState>)
      ensures s == Cursor(db.state)
    {
      if db.state.None? { return None; }
      return Parse(db.state.value);
    }

    /** On the way to block `end`, standing at block `height`. */
    ghost predicate Underway(chain: seq<Block>, end: nat, height: nat)
      reads this, db
    {
      && base <= 1 && reach <= end && 1 <= end <= |chain|
      && TablesState(db.Contents(), chain, base, height, reach) && CursorBehind(db.state, base, end, height)
    }

    ghost predicate StandsAt(position: nat)
      reads db`state
    {
      Cursor(db.state).Some? && Position(Cursor(db.state).value) == position
    }

    lemma {:induction false} StaysClose(position: nat, before: nat, end: nat)
      requires StandsAt(position) && CloseBehind(db.state, before) && end <= position + 1000 && reach == Max(before, end)
      ensures CloseBehind(db.state, reach)
    {
    }

    lemma {:induction false} SavedIsClose(position: nat, height: nat, end: nat)
      requires Cursor(db.state) == Some(HistoricalIndexing(end, height)) && position <= height
      requires reach <= position + 1000
      ensures StandsAt(height) && CloseBehind(db.state, reach)
    {
    }

    lemma {:induction false} FinishIsClose(position: nat, end: nat)
      requires end >= 1 && Cursor(db.state) == Some(Active(end - 1)) && position <= end && reach <= position + 1000
      ensures CloseBehind(db.state, reach)
    {
    }

    lemma {:induction false} CloseBy(position: nat)
      requires StandsAt(position) && CloseBehind(db.state, reach)
      ensures reach <= position + 1000
    {
    }

    lemma {:induction false} UnderwayAims(chain: seq<Block>, end: nat, height: nat)
      requires Underway(chain, end, height)
      ensures Aims(Cursor(db.state), end)
    {
      hide TablesState, Aims, CursorBehind;
      BehindAims(db.state, base, end, height);
    }

    /** Caught up with some block of the chain, with the tables of one uninterrupted pass. */
    ghost predicate Finished(chain: seq<Block>)
      reads this, db
    {
      && Cursor(db.state).Some? && Cursor(db.state).value.Active?
      && var last := Cursor(db.state).value.lastIndexed;
         base <= 1 && base <= last + 1 <= |chain| && db.Contents() == Complete(chain, base, last + 1)
    }

    /** One durable step: a batch committed in a single database transaction. */
    method IndexBlockBatch(chain: seq<Block>, ghost best: nat, ghost goal: nat, start: nat, end: nat)
      requires ValidChain(chain) && start <= end <= goal <= best + 1 <= |chain| && Underway(chain, goal, start)
      modifies this`reach, db`blocks, db`transactions, db`outputs, db`addressHistory
      ensures Underway(chain, goal, end) && Sound(chain, best) && Aims(Cursor(db.state), goal)
      ensures reach == Max(old(reach), end)
    {
      hide HalfDone, ChainEntries, Offset, BlockTable, ValidChain, Complete, Parse;
      BatchKeepsState(db.Contents(), chain, base, start, end, reach);
      db.IndexBlocksBatch(Numbered(chain, start, end));
      reach := Max(reach, end);
      assert Underway(chain, goal, end);
      UnderwayAims(chain, goal, end);
      CrashIsSound(db.Contents(), db.state, chain, base, reach, best, goal, end);
      assert Sound(chain, best);
    }

    /** One durable step: the cursor moves to `height`. */
    method SaveProgress(chain: seq<Block>, ghost best: nat, end: nat, height: nat)
      requires ValidChain(chain) && end <= best + 1 <= |chain| && Underway(chain, end, height)
      modifies db`state
      ensures Underway(chain, end, height) && Sound(chain, best) && Aims(Cursor(db.state), end)
      ensures Cursor(db.state) == Some(HistoricalIndexing(end, height))
    {
      hide HalfDone, ChainEntries, Offset, BlockTable, Complete, Parse;
      SaveState(HistoricalIndexing(end, height));
      assert Underway(chain, end, height);
      UnderwayAims(chain, end, height);
      CrashIsSound(db.Contents(), db.state, chain, base, reach, best, end, height);
      assert Sound(chain, best);
    }

    /** The last durable step: the indexer becomes active. */
    method Finish(chain: seq<Block>, ghost best: nat, end: nat)
      requires ValidChain(chain) && end <= best + 1 <= |chain| && Underway(chain, end, end)
      modifies db`state
      ensures Sound(chain, best) && Finished(chain) && Cursor(db.state) == Some(Active(end - 1))
      ensures Aims(Cursor(db.state), end)
    {
      hide HalfDone, ChainEntries, Offset, BlockTable, Complete, Parse;
      SaveState(Active(end - 1));
      assert Underway(chain, end, end);
      CrashIsSound(db.Contents(), db.state, chain, base, reach, best, end, end);
      assert Sound(chain, best);
      FinishedIsComplete(db.Contents(), chain, base, end);
      assert Finished(chain);
    }

    /** Indexes blocks `start` to `end - 1`. The process survives `steps` durable steps and then crashes; whatever
        the crash point, the database stays sound for the next start. */
    method IndexBlockRange(chain: seq<Block>, ghost best: nat, start: nat, end: nat, steps: nat) returns (crashed: bool)
      requires ValidChain(chain) && start <= end <= best + 1 <= |chain| && Underway(chain, end, start)
      requires Sound(chain, best)
      modifies this`reach, db
      ensures Sound(chain, best) && Aims(Cursor(db.state), end)
      ensures !crashed ==> Finished(chain) && Cursor(db.state) == Some(Active(end - 1))
      ensures steps > 2 * (end - start) ==> !crashed
      ensures !crashed ==> steps > Hundreds(end - start)
      ensures steps > Hundreds(end - start) + Thousands(end - start) + 1 ==> !crashed
      ensures steps == 0 ==> crashed && Cursor(db.state) == old(Cursor(db.state))
      ensures old(StandsAt(start)) && old(CloseBehind(db.state, reach)) ==> CloseBehind(db.state, reach)
    {
      hide Underway, Sound, Finished, Cursor, ValidChain, Aims, CloseBehind, StandsAt, OnSchedule, Max, Hundreds, Thousands;
      ScheduleStarts(start < end);
      UnderwayAims(chain, end, start);
      ghost var close := StandsAt(start) && CloseBehind(db.state, reach);
      ghost var batches: nat, saves: nat, saved: nat := 0, 0, 0;
      var left: nat, processed, height := steps, 0, start;
      while height < end
        invariant start <= height <= end && Underway(chain, end, height) && Sound(chain, best)
        invariant Aims(Cursor(db.state), end)
        invariant left + 2 * (height - start) >= steps
        invariant steps == 0 ==> left == 0 && db.state == old(db.state)
        invariant processed == height - start && left + batches + saves == steps
        invariant OnSchedule(processed, height < end, batches, saves, saved)
        invariant close ==> StandsAt(start + saved) && CloseBehind(db.state, reach)
      {
        ScheduleStep(processed, end - start, batches, saves, saved, if height + 100 < end then 100 else end - height);
        if left == 0 { return true; }
        var batchEnd := if height + BATCH_SIZE < end then height + BATCH_SIZE else end;
        ghost var before := reach;
        IndexBlockBatch(chain, best, end, height, batchEnd);
        if close { StaysClose(start + saved, before, batchEnd); }
        left, batches := left - 1, batches + 1;
        var batchProcessed := batchEnd - height;
        processed := processed + batchProcessed;
        height := batchEnd;
        var isLast := height >= end;
        if processed % PROGRESS_SAVE_INTERVAL == 0 || isLast || processed == batchProcessed {
          if !isLast {
            if left == 0 { return true; }
            if close { CloseBy(start + saved); }
            SaveProgress(chain, best, end, height);
            if close { SavedIsClose(start + saved, height, end); }
            left, saves, saved := left - 1, saves + 1, processed;
          }
        }
      }
      ScheduleEnds(end - start, batches, saves, saved);
      if left == 0 { return true; }
      if close { CloseBy(start + saved); }
      Finish(chain, best, end);
      if close { FinishIsClose(start + saved, end); }
      return false;
    }

    /** First run: the cursor is saved before anything is indexed, unless there is only the genesis block. */
    method FreshStart(chain: seq<Block>, best: nat, steps: nat) returns (crashed: bool)
      requires ValidChain(chain) && best < |chain| && Sound(chain, best) && Cursor(db.state) == None
      modifies this, db
      ensures Sound(chain, best)
      ensures steps > 0 ==> Aims(Cursor(db.state), best + 1) && base == if best > 0 then 0 else 1
      ensures steps == 0 ==> crashed && Cursor(db.state) == None
      ensures steps == 1 && best > 0 ==> crashed && Cursor(db.state) == Some(HistoricalIndexing(best + 1, 0))
      ensures !crashed ==> Finished(chain) && Cursor(db.state) == Some(Active(best))
      ensures steps > 2 * |chain| + 1 ==> !crashed
      ensures old(CloseBehind(db.state, reach)) ==> CloseBehind(db.state, reach)
    {
      hide HalfDone, ChainEntries, Offset, BlockTable, Complete, Parse;
      if steps == 0 { return true; }
      if best > 0 {
        SaveState(HistoricalIndexing(best + 1, 0));
        base, reach := 0, 0;
        EmptyState(chain, 0);
        assert Underway(chain, best + 1, 0);
        CrashIsSound(db.Contents(), db.state, chain, base, reach, best, best + 1, 0);
        assert Sound(chain, best);
        crashed := IndexBlockRange(chain, best, 0, best + 1, steps - 1);
      } else {
        SaveState(Active(0));
        base, reach := 1, 1;
        EmptyState(chain, 1);
        assert Sound(chain, best);
        FinishedIsComplete(db.Contents(), chain, 1, 1);
        crashed := false;
      }
    }

    /** Resumes interrupted historical indexing, up to the target it was started with. */
    method Resume(chain: seq<Block>, ghost best: nat, current: nat, target: nat, steps: nat) returns (crashed: bool)
      requires ValidChain(chain) && best < |chain| && Sound(chain, best)
      requires Cursor(db.state) == Some(HistoricalIndexing(target, current))
      modifies this`reach, db
      ensures Sound(chain, best) && Aims(Cursor(db.state), target)
      ensures !crashed ==> Finished(chain) && Cursor(db.state) == Some(Active(target - 1))
      ensures steps > 2 * |chain| + 1 ==> !crashed
      ensures old(CloseBehind(db.state, reach)) ==> CloseBehind(db.state, reach)
    {
      hide HalfDone, ChainEntries, Offset, BlockTable, ValidChain, Complete, Parse;
      assert Underway(chain, target, current);
      crashed := IndexBlockRange(chain, best, current, target, steps);
    }

    /** Catches up from the last indexed block, if the chain has moved on. */
    method CatchUp(chain: seq<Block>, best: nat, last: nat, steps: nat) returns (crashed: bool)
      requires ValidChain(chain) && best < |chain| && Sound(chain, best) && Cursor(db.state) == Some(Active(last))
      modifies this`reach, db
      ensures Sound(chain, best) && Aims(Cursor(db.state), best + 1)
      ensures !crashed ==> Finished(chain) && Cursor(db.state) == Some(Active(best))
      ensures steps > 2 * |chain| + 1 ==> !crashed
      ensures old(CloseBehind(db.state, reach)) ==> CloseBehind(db.state, reach)
    {
      hide HalfDone, ChainEntries, Offset, BlockTable, ValidChain, Complete, Parse;
      if last < best {
        assert Underway(chain, best + 1, last + 1);
        crashed := IndexBlockRange(chain, best, last + 1, best + 1, steps);
      } else {
        FinishedIsComplete(db.Contents(), chain, base, best + 1);
        assert Finished(chain);
        crashed := false;
      }
    }

    /** Fills whatever gap the cursor shows, when the best block of the chain is `best`. A start that completes leaves
        the tables of one uninterrupted pass; it is caught up with `best` except where it resumed an older target. */
    method HandleIndexGap(chain: seq<Block>, best: nat, steps: nat) returns (crashed: bool)
      requires ValidChain(chain) && best < |chain| && Sound(chain, best)
      modifies this, db
      ensures Sound(chain, best)
      ensures old(Cursor(db.state)).Some? ==> base == old(base)
      ensures old(Cursor(db.state)).None? && steps > 0 ==> base == if best > 0 then 0 else 1
      ensures Cursor(db.state).None? <==> old(Cursor(db.state)).None? && steps == 0
      ensures Cursor(db.state).Some? ==> Aims(Cursor(db.state), EndOf(old(Cursor(db.state)), best))
      ensures !crashed ==> Finished(chain)
      ensures !crashed ==>
                EndOf(old(Cursor(db.state)), best) >= 1
                && Cursor(db.state) == Some(Active(EndOf(old(Cursor(db.state)), best) - 1))
      ensures steps > 2 * |chain| + 1 ==> !crashed
      ensures old(CloseBehind(db.state, reach)) ==> CloseBehind(db.state, reach)
    {
      hide Sound, Finished, ValidChain, Cursor, CloseBehind;
      var state := LoadState();
      match state
      case Some(HistoricalIndexing(target, current)) =>
        crashed := Resume(chain, best, current, target, steps);
      case Some(Active(last)) =>
        crashed := CatchUp(chain, best, last, steps);
      case None =>
        crashed := FreshStart(chain, best, steps);
    }

    /** What `n` starts leave for the next one. */
    ghost predicate Restartable(bests: seq<nat>, steps: seq<nat>, n: nat)
      requires |bests| == |steps| && n <= |bests|
      reads this, db
    {
      && (Cursor(db.state).None? <==> StartOf(bests, steps, n).None?)
      && (Cursor(db.state).Some? ==> StartOf(bests, steps, n) == Some(base))
      && AimsAtSeen(Cursor(db.state), bests, n)
    }

    /** The tables are those of one uninterrupted pass from `base` to a best block that one of the starts saw. */
    ghost predicate FinishedAtSeen(chain: seq<Block>, bests: seq<nat>, n: nat)
      requires n <= |bests|
      reads this, db
    {
      exists j :: 0 <= j < n && base <= 1 && base <= bests[j] + 1 <= |chain|
          && db.Contents() == Complete(chain, base, bests[j] + 1)
    }

    lemma {:induction false} FinishedSomewhere(chain: seq<Block>, bests: seq<nat>, n: nat, end: nat)
      requires n <= |bests| && end >= 1 && Seen(bests, n, end) && Finished(chain)
      requires Cursor(db.state) == Some(Active(end - 1))
      ensures FinishedAtSeen(chain, bests, n)
    {
      hide Complete;
      var j :| 0 <= j < n && end == bests[j] + 1;
      assert db.Contents() == Complete(chain, base, bests[j] + 1);
    }

    lemma {:induction false} GenesisIndexed(chain: seq<Block>, bests: seq<nat>, n: nat)
      requires ValidChain(chain) && n <= |bests| && FinishedAtSeen(chain, bests, n)
      ensures base <= 1 && (0 in db.blocks <==> base == 0)
    {
      hide ValidChain, Complete;
      var j :| 0 <= j < n && base <= 1 && base <= bests[j] + 1 <= |chain|
          && db.Contents() == Complete(chain, base, bests[j] + 1);
      GenesisMatters(chain, bests[j] + 1);
    }

    /** The `i`-th start. */
    method OneStart(chain: seq<Block>, bests: seq<nat>, steps: seq<nat>, i: nat) returns (crashed: bool)
      requires ValidChain(chain) && |bests| == |steps| && i < |bests| && bests[i] < |chain|
      requires Sound(chain, bests[i]) && Restartable(bests, steps, i)
      modifies this, db
      ensures Sound(chain, bests[i]) && Restartable(bests, steps, i + 1)
      ensures !crashed ==> Cursor(db.state).Some? && FinishedAtSeen(chain, bests, i + 1)
      ensures steps[i] > 2 * |chain| + 1 ==> !crashed
      ensures old(CloseBehind(db.state, reach)) ==> CloseBehind(db.state, reach)
    {
      hide CloseBehind;
      hide Sound, Finished, Complete, Cursor, AimsAtSeen, FinishedAtSeen, ValidChain, Aims, EndOf, Seen;
      ghost var before := Cursor(db.state);
      crashed := HandleIndexGap(chain, bests[i], steps[i]);
      AimStep(before, Cursor(db.state), bests, i);
      if !crashed { FinishedSomewhere(chain, bests, i + 1, EndOf(before, bests[i])); }
    }

    /** Any number of starts, each of which may crash anywhere, while the chain's best block moves up. Whenever the
        last start completes, the tables are those of one uninterrupted pass up to a best block that some start saw.
        The pass begins at block 0 exactly when the first start that took a durable step saw more than the genesis
        block; otherwise it begins at block 1 for good. A last start left undisturbed does complete. No start ever leaves the
        cursor more than a thousand blocks behind what has been indexed. */
    method Restarts(chain: seq<Block>, bests: seq<nat>, steps: seq<nat>) returns (completed: bool)
      requires ValidChain(chain) && |bests| == |steps| > 0
      requires forall i, j :: 0 <= i <= j < |bests| ==> bests[i] <= bests[j] < |chain|
      requires db.Contents() == EMPTY && db.state == None
      modifies this, db
      ensures completed ==> StartOf(bests, steps, |bests|) == Some(base) && FinishedAtSeen(chain, bests, |bests|)
      ensures completed ==> (0 in db.blocks <==> StartOf(bests, steps, |bests|) == Some(0))
      ensures steps[|steps| - 1] > 2 * |chain| + 1 ==> completed
      ensures CloseBehind(db.state, reach)
    {
      base, reach, completed := 0, 0, false;
      NothingYet(chain, bests, steps);
      assert CloseBehind(db.state, reach);
      hide CloseBehind;
      hide Sound, Complete, Cursor, AimsAtSeen, FinishedAtSeen, ValidChain, StartOf;
      for i := 0 to |bests|
        invariant i < |bests| ==> Sound(chain, bests[i])
        invariant Restartable(bests, steps, i) && CloseBehind(db.state, reach)
        invariant completed ==> i > 0 && Cursor(db.state).Some? && FinishedAtSeen(chain, bests, i)
        invariant i == |bests| && steps[i - 1] > 2 * |chain| + 1 ==> completed
      {
        var crashed := OneStart(chain, bests, steps, i);
        completed := !crashed;
        if i + 1 < |bests| { StaysSound(chain, bests[i], bests[i + 1]); }
      }
      if completed { GenesisIndexed(chain, bests, |bests|); }
    }

    lemma {:induction false} NothingYet(chain: seq<Block>, bests: seq<nat>, steps: seq<nat>)
      requires |bests| == |steps| > 0 && bests[0] < |chain| && db.Contents() == EMPTY && db.state == None
      requires base == reach == 0
      ensures Sound(chain, bests[0]) && Restartable(bests, steps, 0)
    {
    }

    lemma {:induction false} StaysSound(chain: seq<Block>, best: nat, best': nat)
      requires Sound(chain, best) && best <= best' < |chain|
      ensures Sound(chain, best')
    {
      hide Durable;
      BestMovesUp(db.Contents(), db.state, chain, base, reach, best, best');
    }
  }
}
