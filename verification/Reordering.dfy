/** Applying a block level by level, in any order inside a level, gives what block order gives. */
module Reordering {
  import opened Bitcoin
  import opened Pallet
  import opened ExecutionLevels

  /** No output of the block is already in the UTXO set, and no two transactions share a txid. */
  ghost predicate Fresh(coins: Coins, txs: seq<Transaction>) {
    && DistinctTxids(txs)
    && forall i, op :: 0 <= i < |txs| && op in coins ==> !Creates(txs[i], op)
  }

  function AllCreated(txs: seq<Transaction>, height: nat): Coins {
    if txs == [] then map[] else
      AllCreated(txs[..|txs| - 1], height) + Created(txs[|txs| - 1], height)
  }

  ghost predicate CreatedIn(txs: seq<Transaction>, height: nat, s: set<nat>, op: OutPoint) {
    exists i :: i in s && i < |txs| && op in Created(txs[i], height)
  }

  ghost predicate SpentIn(txs: seq<Transaction>, s: set<nat>, op: OutPoint) {
    exists i :: i in s && i < |txs| && op in Spent(txs[i])
  }

  ghost predicate Present(coins: Coins, txs: seq<Transaction>, height: nat, s: set<nat>, op: OutPoint) {
    (op in coins || CreatedIn(txs, height, s, op)) && !SpentIn(txs, s, op)
  }

  /** The UTXO set once exactly the transactions of `s` have run, whatever their order. */
  ghost function StateAfter(coins: Coins, txs: seq<Transaction>, height: nat, s: set<nat>): Coins {
    var all := coins + AllCreated(txs, height);
    map op | op in all && Present(coins, txs, height, s, op) :: all[op]
  }

  /** An input is available once its creator (if in the block) is in `s`. */
  ghost predicate Ready(coins: Coins, txs: seq<Transaction>, height: nat, s: set<nat>, i: nat)
    requires i < |txs|
  {
    && (IsCoinbase(txs[i]) || Distinct(txs[i].inputs))
    && forall op :: op in Spent(txs[i]) ==> Present(coins, txs, height, s, op)
  }

  lemma {:induction false} AllCreatedAt(txs: seq<Transaction>, height: nat, i: nat, op: OutPoint)
    requires DistinctTxids(txs) && i < |txs| && op in Created(txs[i], height)
    ensures op in AllCreated(txs, height) && AllCreated(txs, height)[op] == Created(txs[i], height)[op]
  {
    var n := |txs| - 1;
    if i < n {
      AllCreatedAt(txs[..n], height, i, op);
      assert op !in Created(txs[n], height);
    }
  }

  /** One transaction, run when its inputs are ready, takes the state of `s` to that of `s + {i}`. */
  lemma {:induction false} StepAfter(coins: Coins, txs: seq<Transaction>, height: nat, s: set<nat>, i: nat)
    requires Fresh(coins, txs) && i < |txs| && i !in s && Ready(coins, txs, height, s, i)
    requires forall op :: op in Created(txs[i], height) ==> !SpentIn(txs, s + {i}, op)
    ensures ApplyTx(StateAfter(coins, txs, height, s), txs[i], height) == Some(StateAfter(coins, txs, height, s + {i}))
  {
    var before, after := StateAfter(coins, txs, height, s), StateAfter(coins, txs, height, s + {i});
    assert Spendable(before, txs[i]) by {
      forall op | op in Spent(txs[i]) ensures op in before { PresentIsStored(coins, txs, height, s, op); }
    }
    StepContents(coins, txs, height, s, i);
  }

  lemma {:induction false} StepContents(coins: Coins, txs: seq<Transaction>, height: nat, s: set<nat>, i: nat)
    requires Fresh(coins, txs) && i < |txs| && i !in s
    requires forall op :: op in Created(txs[i], height) ==> !SpentIn(txs, s + {i}, op)
    ensures StateAfter(coins, txs, height, s + {i})
         == (StateAfter(coins, txs, height, s) - Spent(txs[i])) + Created(txs[i], height)
  {
    var before, after := StateAfter(coins, txs, height, s), StateAfter(coins, txs, height, s + {i});
    var gone, made := Spent(txs[i]), Created(txs[i], height);
    forall op ensures StepAt(before, gone, made, after, op) {
      StepPresence(coins, txs, height, s, i, op);
    }
    StepPointwise(before, gone, made, after);
  }

  ghost predicate StepAt(before: Coins, gone: set<OutPoint>, made: Coins, after: Coins, op: OutPoint) {
    if op in made then op in after && after[op] == made[op]
    else if op in before && op !in gone then op in after && after[op] == before[op]
    else op !in after
  }

  lemma {:induction false} StepPointwise(before: Coins, gone: set<OutPoint>, made: Coins, after: Coins)
    requires forall op :: StepAt(before, gone, made, after, op)
    ensures after == (before - gone) + made
  {
    assert forall op :: StepAt(before, gone, made, (before - gone) + made, op);
    forall op ensures op in after <==> op in (before - gone) + made {
      assert StepAt(before, gone, made, after, op) && StepAt(before, gone, made, (before - gone) + made, op);
    }
    forall op | op in after ensures after[op] == ((before - gone) + made)[op] {
      assert StepAt(before, gone, made, after, op) && StepAt(before, gone, made, (before - gone) + made, op);
    }
  }

  lemma {:induction false} PresentIsStored(coins: Coins, txs: seq<Transaction>, height: nat, s: set<nat>, op: OutPoint)
    requires Fresh(coins, txs)
    ensures op in StateAfter(coins, txs, height, s) <==> Present(coins, txs, height, s, op)
  {
    if CreatedIn(txs, height, s, op) {
      var i :| i in s && i < |txs| && op in Created(txs[i], height);
      AllCreatedAt(txs, height, i, op);
    }
  }

  lemma {:induction false} StepPresence(coins: Coins, txs: seq<Transaction>, height: nat, s: set<nat>, i: nat,
                                        op: OutPoint)
    requires Fresh(coins, txs) && i < |txs| && i !in s
    requires op in Created(txs[i], height) ==> !SpentIn(txs, s + {i}, op)
    ensures StepAt(StateAfter(coins, txs, height, s), Spent(txs[i]), Created(txs[i], height),
                   StateAfter(coins, txs, height, s + {i}), op)
  {
    if op in Created(txs[i], height) { AllCreatedAt(txs, height, i, op); }
    PresentIsStored(coins, txs, height, s, op);
    PresentIsStored(coins, txs, height, s + {i}, op);
    assert i in s + {i};
    assert CreatedIn(txs, height, s + {i}, op) <==> CreatedIn(txs, height, s, op) || op in Created(txs[i], height);
    assert SpentIn(txs, s + {i}, op) <==> SpentIn(txs, s, op) || op in Spent(txs[i]);
  }

  /** Each transaction's inputs are ready once all the transactions before it have run. */
  ghost predicate ReadyInBlockOrder(coins: Coins, txs: seq<Transaction>, height: nat, n: nat)
    requires n <= |txs|
  {
    forall i :: 0 <= i < n ==> Ready(coins, txs, height, Indices(i), i)
  }

  /** A created coin can only be spent by a later transaction that lists its creator as a dependency. */
  lemma {:induction false} SpenderDepends(coins: Coins, txs: seq<Transaction>, height: nat, i: nat, k: nat,
                                          op: OutPoint)
    requires Fresh(coins, txs) && i < |txs| && k < |txs| && op in Created(txs[i], height) && op in Spent(txs[k])
    requires Ready(coins, txs, height, Indices(k), k)
    ensures i < k && i in DependenciesOf(txs, k)
  {
    assert Creates(txs[i], op);
    assert Present(coins, txs, height, Indices(k), op) && op !in coins;
    var j :| j in Indices(k) && j < |txs| && op in Created(txs[j], height);
    assert txs[j].txid == op.txid == txs[i].txid;
    DependsOnCreator(txs, k, i, op);
  }

  lemma {:induction false} DependsOnCreator(txs: seq<Transaction>, k: nat, j: nat, op: OutPoint)
    requires DistinctTxids(txs) && j < k < |txs| && Creates(txs[j], op) && op in txs[k].inputs
    ensures j in DependenciesOf(txs, k)
  {
    var m :| 0 <= m < |txs[k].inputs| && txs[k].inputs[m] == op;
    var c := Creator(txs, k + 1, op);
    assert c.Some? && txs[c.value].txid == txs[j].txid;
    CreatorsAreCreators(txs, k, |txs[k].inputs|, j);
  }

  lemma {:induction false} NextInBlockOrder(coins: Coins, txs: seq<Transaction>, height: nat, i: nat)
    requires Fresh(coins, txs) && i < |txs| && ReadyInBlockOrder(coins, txs, height, i)
    requires ApplyTx(StateAfter(coins, txs, height, Indices(i)), txs[i], height).Some?
    ensures Ready(coins, txs, height, Indices(i), i)
    ensures ApplyTx(StateAfter(coins, txs, height, Indices(i)), txs[i], height)
         == Some(StateAfter(coins, txs, height, Indices(i + 1)))
  {
    forall op | op in Spent(txs[i]) ensures Present(coins, txs, height, Indices(i), op) {
      PresentIsStored(coins, txs, height, Indices(i), op);
    }
    forall op | op in Created(txs[i], height) ensures !SpentIn(txs, Indices(i) + {i}, op) {
      if SpentIn(txs, Indices(i) + {i}, op) {
        var k :| k in Indices(i) + {i} && k < |txs| && op in Spent(txs[k]);
        SpenderDepends(coins, txs, height, i, k, op);
      }
    }
    StepAfter(coins, txs, height, Indices(i), i);
  }

  /** Where block order succeeds, every transaction was ready in its turn. */
  lemma {:induction false} BlockOrderState(coins: Coins, txs: seq<Transaction>, height: nat, n: nat)
    requires Fresh(coins, txs) && n <= |txs| && ApplyTxs(coins, txs[..n], height).Some?
    ensures ReadyInBlockOrder(coins, txs, height, n)
    ensures ApplyTxs(coins, txs[..n], height) == Some(StateAfter(coins, txs, height, Indices(n)))
    decreases n
  {
    hide Fresh, Ready, StateAfter, ApplyTx;
    if n == 0 {
      EmptyState(coins, txs, height);
    } else {
      hide ApplyTxs, Indices;
      var i := n - 1;
      assert txs[..n] == txs[..i] + [txs[i]];
      ApplyTxsPush(coins, txs[..i], txs[i], height);
      BlockOrderState(coins, txs, height, i);
      NextInBlockOrder(coins, txs, height, i);
    }
  }

  lemma {:induction false} EmptyState(coins: Coins, txs: seq<Transaction>, height: nat)
    requires Fresh(coins, txs)
    ensures StateAfter(coins, txs, height, {}) == coins
  {
    forall op | op in coins ensures op !in AllCreated(txs, height) {
      if op in AllCreated(txs, height) { var i := AllCreatedHasCreator(txs, height, op); }
    }
    forall op ensures op in StateAfter(coins, txs, height, {}) <==> op in coins {
      PresentIsStored(coins, txs, height, {}, op);
    }
  }

  lemma {:induction false} AllCreatedHasCreator(txs: seq<Transaction>, height: nat, op: OutPoint) returns (i: nat)
    requires op in AllCreated(txs, height)
    ensures i < |txs| && Creates(txs[i], op)
  {
    var n := |txs| - 1;
    if op in Created(txs[n], height) {
      i := n;
    } else {
      i := AllCreatedHasCreator(txs[..n], height, op);
    }
  }

  // ----- Other orders -----

  /** Every index once, each after everything it depends on. */
  ghost predicate IsSchedule(deps: Deps, order: seq<nat>) {
    && Distinct(order)
    && forall k :: 0 <= k < |order| ==> order[k] < |deps| && deps[order[k]] <= Elements(order[..k])
  }

  ghost predicate DependencyClosed(deps: Deps, s: set<nat>) {
    forall i :: i in s ==> i < |deps| && deps[i] <= s
  }

  function Permuted(txs: seq<Transaction>, order: seq<nat>): seq<Transaction>
    requires forall k :: 0 <= k < |order| ==> order[k] < |txs|
  {
    seq(|order|, k requires 0 <= k < |order| => txs[order[k]])
  }

  /** In a block that succeeds no outpoint is spent twice. */
  lemma {:induction false} NoDoubleSpend(coins: Coins, txs: seq<Transaction>, height: nat, i: nat, k: nat)
    requires i < k < |txs| && Ready(coins, txs, height, Indices(k), k)
    ensures Spent(txs[i]) !! Spent(txs[k])
  {
  }

  lemma {:induction false} ReadyInAnyOrder(coins: Coins, txs: seq<Transaction>, height: nat, s: set<nat>, i: nat)
    requires Fresh(coins, txs) && ReadyInBlockOrder(coins, txs, height, |txs|)
    requires i < |txs| && i !in s && DependenciesOf(txs, i) <= s
    ensures Ready(coins, txs, height, s, i)
  {
    assert Ready(coins, txs, height, Indices(i), i);
    forall k | k in s && k < |txs| ensures Spent(txs[k]) !! Spent(txs[i]) {
      NoDoubleSpend(coins, txs, height, if k < i then k else i, if k < i then i else k);
    }
    forall op | op in Spent(txs[i]) ensures Present(coins, txs, height, s, op) {
      assert Present(coins, txs, height, Indices(i), op);
      if op !in coins {
        var j :| j in Indices(i) && j < |txs| && op in Created(txs[j], height);
        DependsOnCreator(txs, i, j, op);
      }
    }
  }

  lemma {:induction false} CreatedIsUnspent(coins: Coins, txs: seq<Transaction>, height: nat, s: set<nat>, i: nat,
                                            op: OutPoint)
    requires Fresh(coins, txs) && ReadyInBlockOrder(coins, txs, height, |txs|)
    requires i < |txs| && i !in s && DependencyClosed(Dependencies(txs), s) && op in Created(txs[i], height)
    ensures !SpentIn(txs, s + {i}, op)
  {
    if SpentIn(txs, s + {i}, op) {
      var k :| k in s + {i} && k < |txs| && op in Spent(txs[k]);
      assert Dependencies(txs)[k] == DependenciesOf(txs, k);
      SpenderDepends(coins, txs, height, i, k, op);
    }
  }

  lemma {:induction false} ScheduleStep(coins: Coins, txs: seq<Transaction>, height: nat, s: set<nat>, i: nat)
    requires Fresh(coins, txs) && ReadyInBlockOrder(coins, txs, height, |txs|) && DependencyClosed(Dependencies(txs), s)
    requires i < |txs| && i !in s && DependenciesOf(txs, i) <= s
    ensures ApplyTx(StateAfter(coins, txs, height, s), txs[i], height) == Some(StateAfter(coins, txs, height, s + {i}))
  {
    hide Fresh, Ready, ReadyInBlockOrder, StateAfter, ApplyTx, Created, SpentIn, Dependencies, DependenciesOf,
         DependencyClosed;
    ReadyInAnyOrder(coins, txs, height, s, i);
    forall op | op in Created(txs[i], height) ensures !SpentIn(txs, s + {i}, op) {
      CreatedIsUnspent(coins, txs, height, s, i, op);
    }
    StepAfter(coins, txs, height, s, i);
  }

  lemma {:induction false} ScheduleState(coins: Coins, txs: seq<Transaction>, height: nat, order: seq<nat>)
    requires Fresh(coins, txs) && ReadyInBlockOrder(coins, txs, height, |txs|)
    requires IsSchedule(Dependencies(txs), order)
    ensures DependencyClosed(Dependencies(txs), Elements(order))
    ensures ApplyTxs(coins, Permuted(txs, order), height) == Some(StateAfter(coins, txs, height, Elements(order)))
    decreases |order|
  {
    hide Fresh, Ready, ReadyInBlockOrder, StateAfter, ApplyTx, Created, SpentIn;
    if order == [] {
      EmptyState(coins, txs, height);
      assert Permuted(txs, order) == [] && Elements(order) == {};
    } else {
      hide ApplyTxs;
      var n := |order| - 1;
      var first, i := order[..n], order[n];
      SchedulePrefix(Dependencies(txs), order);
      ScheduleState(coins, txs, height, first);
      assert Permuted(txs, order) == Permuted(txs, first) + [txs[i]];
      ApplyTxsPush(coins, Permuted(txs, first), txs[i], height);
      ScheduleStep(coins, txs, height, Elements(first), i);
    }
  }

  lemma {:induction false} SchedulePrefix(deps: Deps, order: seq<nat>)
    requires IsSchedule(deps, order) && order != []
    ensures var n := |order| - 1;
            && IsSchedule(deps, order[..n]) && order[n] !in Elements(order[..n])
            && order[n] < |deps| && deps[order[n]] <= Elements(order[..n])
            && Elements(order) == Elements(order[..n]) + {order[n]}
  {
  }

  /** Any order that respects the dependencies succeeds and ends in the UTXO set of block order. */
  lemma {:induction false} AnyScheduleAgrees(coins: Coins, txs: seq<Transaction>, height: nat, order: seq<nat>)
    requires ApplyTxs(coins, txs, height).Some? && Fresh(coins, txs)
    requires IsSchedule(Dependencies(txs), order) && Elements(order) == Indices(|txs|)
    ensures ApplyTxs(coins, Permuted(txs, order), height) == ApplyTxs(coins, txs, height)
  {
    assert txs[..|txs|] == txs;
    BlockOrderState(coins, txs, height, |txs|);
    ScheduleState(coins, txs, height, order);
  }

  // ----- Level by level -----

  function Flatten(levels: Levels): seq<nat> {
    if levels == [] then [] else Flatten(levels[..|levels| - 1]) + levels[|levels| - 1]
  }

  /** The same levels, each listed in any order. */
  ghost predicate Shuffled(levels: Levels, levels': Levels) {
    |levels| == |levels'| && forall l :: 0 <= l < |levels| ==>
      Distinct(levels'[l]) && Elements(levels'[l]) == Elements(levels[l])
  }

  lemma {:induction false} ShuffleIsLevelling(deps: Deps, levels: Levels, levels': Levels)
    requires IsLevelling(deps, levels) && Shuffled(levels, levels')
    ensures IsLevelling(deps, levels') && Done(levels') == Done(levels)
  {
    if levels != [] {
      var m := |levels| - 1;
      ShuffleIsLevelling(deps, levels[..m], levels'[..m]);
      var level, level' := levels[m], levels'[m];
      forall x | x in level' ensures x in level { assert x in Elements(level'); }
      if m > 0 {
        assert Elements(levels[m - 1]) == Elements(levels'[m - 1]);
      }
    }
  }

  lemma {:induction false} FlattenIsSchedule(deps: Deps, levels: Levels)
    requires IsLevelling(deps, levels)
    ensures IsSchedule(deps, Flatten(levels)) && Elements(Flatten(levels)) == Done(levels)
  {
    if levels != [] {
      var m := |levels| - 1;
      var before, level := Flatten(levels[..m]), levels[m];
      FlattenIsSchedule(deps, levels[..m]);
      assert IsNextLevel(deps, levels[..m], level);
      AppendToSchedule(deps, before, level);
      ElementsAppend(before, level);
    }
  }

  lemma {:induction false} AppendToSchedule(deps: Deps, before: seq<nat>, level: seq<nat>)
    requires IsSchedule(deps, before) && Distinct(level)
    requires forall x :: x in level ==> x < |deps| && x !in Elements(before) && deps[x] <= Elements(before)
    ensures IsSchedule(deps, before + level)
  {
    var order := before + level;
    forall k | 0 <= k < |order| ensures order[k] < |deps| && deps[order[k]] <= Elements(order[..k]) {
      if k < |before| {
        assert order[..k] == before[..k];
      } else {
        assert order[k] in level;
        assert order[..k] == before + level[..k - |before|];
        ElementsAppend(before, level[..k - |before|]);
      }
    }
    forall i, j | 0 <= i < j < |order| ensures order[i] != order[j] {
      if i < |before| <= j {
        assert order[i] in Elements(before) && order[j] in level;
      }
    }
  }

  /** A block that is valid in block order, with fresh txids, is valid level by level: whatever order each
      level runs in, no coin is missed and the final UTXO set is the one block order gives. */
  lemma {:induction false} LevelOrderAgrees(coins: Coins, txs: seq<Transaction>, height: nat, levels: Levels,
                                            levels': Levels)
    requires ApplyTxs(coins, txs, height).Some? && Fresh(coins, txs)
    requires IsLevelling(Dependencies(txs), levels) && Covers(levels, |txs|) && Shuffled(levels, levels')
    ensures forall k :: 0 <= k < |Flatten(levels')| ==> Flatten(levels')[k] < |txs|
    ensures ApplyTxs(coins, Permuted(txs, Flatten(levels')), height) == ApplyTxs(coins, txs, height)
  {
    var deps := Dependencies(txs);
    ShuffleIsLevelling(deps, levels, levels');
    FlattenIsSchedule(deps, levels');
    assert Elements(Flatten(levels')) == Indices(|txs|);
    AnyScheduleAgrees(coins, txs, height, Flatten(levels'));
  }

  /** With fresh, distinct txids no coin is ever overwritten, so `CoinsCount` stays the size of the set. */
  lemma {:induction false} FreshBlockCounts(coins: Coins, txs: seq<Transaction>, height: nat)
    requires Fresh(coins, txs) && ApplyTxs(coins, txs, height).Some?
    ensures FreshRun(coins, txs, height)
    ensures CountAfterAll(|coins|, txs, height) == |ApplyTxs(coins, txs, height).value|
    decreases |txs|
  {
    if txs != [] {
      var made := Created(txs[0], height);
      forall op | op in made ensures op !in coins { assert Creates(txs[0], op); }
      assert made.Keys * (coins.Keys - Spent(txs[0])) == {};
      var next := ApplyTx(coins, txs[0], height).value;
      forall i, op | 0 <= i < |txs[1..]| && op in next ensures !Creates(txs[1..][i], op) {
        assert txs[1..][i] == txs[i + 1];
      }
      FreshBlockCounts(next, txs[1..], height);
    }
    CountTracksRun(coins, txs, height);
  }
}
