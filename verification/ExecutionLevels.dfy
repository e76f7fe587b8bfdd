/** `TxExecutionLevels`: in-block dependencies and the level-by-level sort that groups them. */
module ExecutionLevels {
  import opened Bitcoin
  import opened Graphs

  type Deps = seq<set<nat>>

  type Levels = seq<seq<nat>>

  ghost predicate InRange(deps: Deps) {
    forall i, d :: 0 <= i < |deps| && d in deps[i] ==> d < |deps|
  }

  function DepGraph(deps: Deps): Graph<nat> {
    map i | 0 <= i < |deps| :: deps[i]
  }

  function Done(levels: Levels): set<nat> {
    if levels == [] then {} else Done(levels[..|levels| - 1]) + Elements(levels[|levels| - 1])
  }

  /** What may follow the levels already built: transactions not yet placed, whose dependencies are
      all placed and, after the first level, include one from the level just before. */
  ghost predicate IsNextLevel(deps: Deps, levels: Levels, level: seq<nat>) {
    && Distinct(level)
    && forall x :: x in level ==>
         && x < |deps| && x !in Done(levels) && deps[x] <= Done(levels)
         && (levels != [] ==> exists d :: d in deps[x] && d in levels[|levels| - 1])
  }

  ghost predicate IsLevelling(deps: Deps, levels: Levels) {
    levels != [] ==>
      && IsLevelling(deps, levels[..|levels| - 1])
      && IsNextLevel(deps, levels[..|levels| - 1], levels[|levels| - 1])
  }

  /** Every index below `n` is placed. */
  ghost predicate Covers(levels: Levels, n: nat) {
    forall i: nat :: i in Done(levels) <==> i < n
  }

  /** The longest dependency chain starting at `x` has exactly `k` edges. */
  ghost predicate HasDepth(g: Graph<nat>, x: nat, k: nat) {
    && (exists p :: WalkFrom(g, x, p) && |p| == k + 1)
    && (forall p :: WalkFrom(g, x, p) ==> |p| <= k + 1)
  }

  lemma {:induction false} LevellingPrefix(deps: Deps, levels: Levels, k: nat)
    requires IsLevelling(deps, levels) && k <= |levels|
    ensures IsLevelling(deps, levels[..k]) && Done(levels[..k]) <= Done(levels)
    ensures k < |levels| ==> IsNextLevel(deps, levels[..k], levels[k])
  {
    var m := |levels| - 1;
    if k < m {
      LevellingPrefix(deps, levels[..m], k);
      assert levels[..m][..k] == levels[..k];
    } else if k == |levels| {
      assert levels[..k] == levels;
    }
  }

  /** Everything placed sits in one of the levels. */
  lemma {:induction false} DoneIsPlaced(levels: Levels, x: nat) returns (l: nat)
    requires x in Done(levels)
    ensures l < |levels| && x in levels[l]
  {
    var m := |levels| - 1;
    if x in levels[m] {
      l := m;
    } else {
      l := DoneIsPlaced(levels[..m], x);
    }
  }

  lemma {:induction false} PlacedIsDone(levels: Levels, l: nat, x: nat)
    requires l < |levels| && x in levels[l]
    ensures x in Done(levels)
  {
    var m := |levels| - 1;
    if l < m { PlacedIsDone(levels[..m], l, x); }
  }

  /** Every dependency sits in a strictly earlier level. */
  lemma {:induction false} DependencyIsEarlier(deps: Deps, levels: Levels, l: nat, x: nat, d: nat) returns (k: nat)
    requires IsLevelling(deps, levels) && l < |levels| && x in levels[l] && x < |deps| && d in deps[x]
    ensures k < l && d in levels[k]
  {
    LevellingPrefix(deps, levels, l);
    k := DoneIsPlaced(levels[..l], d);
  }

  /** No transaction is in two levels. */
  lemma {:induction false} LevelsAreDisjoint(deps: Deps, levels: Levels, k: nat, l: nat, x: nat)
    requires IsLevelling(deps, levels) && k < l < |levels| && x in levels[k]
    ensures x !in levels[l]
  {
    LevellingPrefix(deps, levels, l);
    PlacedIsDone(levels[..l], k, x);
  }

  lemma {:induction false} ChainReachesDown(deps: Deps, levels: Levels, l: nat, x: nat) returns (p: seq<nat>)
    requires IsLevelling(deps, levels) && l < |levels| && x in levels[l]
    ensures WalkFrom(DepGraph(deps), x, p) && |p| == l + 1
    decreases l
  {
    LevellingPrefix(deps, levels, l);
    if l == 0 {
      p := [x];
    } else {
      var d :| d in deps[x] && d in levels[..l][l - 1];
      var q := ChainReachesDown(deps, levels, l - 1, d);
      p := [x] + q;
      assert forall k :: 0 <= k < |p| - 1 ==> p[k + 1] in Successors(DepGraph(deps), p[k]) by {
        forall k | 0 <= k < |p| - 1 ensures p[k + 1] in Successors(DepGraph(deps), p[k]) {
          if k > 0 { assert p[k] == q[k - 1] && p[k + 1] == q[k]; }
        }
      }
    }
  }

  lemma {:induction false} ChainIsNoLonger(deps: Deps, levels: Levels, l: nat, x: nat, p: seq<nat>)
    requires IsLevelling(deps, levels) && l < |levels| && x in levels[l]
    requires WalkFrom(DepGraph(deps), x, p)
    ensures |p| <= l + 1
    decreases |p|
  {
    if |p| > 1 {
      LevellingPrefix(deps, levels, l);
      assert p[0 + 1] in Successors(DepGraph(deps), p[0]);
      var k := DependencyIsEarlier(deps, levels, l, x, p[1]);
      ChainIsNoLonger(deps, levels, k, p[1], p[1..]);
    }
  }

  /** The level of a transaction is the length of its longest in-block dependency chain. */
  lemma {:induction false} LevelIsDepth(deps: Deps, levels: Levels, l: nat, x: nat)
    requires IsLevelling(deps, levels) && l < |levels| && x in levels[l]
    ensures HasDepth(DepGraph(deps), x, l)
  {
    var p := ChainReachesDown(deps, levels, l, x);
    forall q | WalkFrom(DepGraph(deps), x, q) ensures |q| <= l + 1 {
      ChainIsNoLonger(deps, levels, l, x, q);
    }
  }

  /** Dependencies that can be fully levelled have no cycle. */
  lemma {:induction false} LevelledIsAcyclic(deps: Deps, levels: Levels)
    requires IsLevelling(deps, levels) && Covers(levels, |deps|)
    ensures Acyclic(DepGraph(deps))
  {
    var g := DepGraph(deps);
    forall p ensures !IsCycle(g, p) {
      if IsCycle(g, p) {
        assert p[0 + 1] in Successors(g, p[0]);
        var l := DoneIsPlaced(levels, p[0]);
        var q := Unroll(g, p, l + 2);
        ChainIsNoLonger(deps, levels, l, p[0], q);
      }
    }
  }

  /** Going round a cycle gives walks of any length. */
  lemma {:induction false} Unroll(g: Graph<nat>, p: seq<nat>, n: nat) returns (q: seq<nat>)
    requires IsCycle(g, p)
    ensures WalkFrom(g, p[0], q) && q[|q| - 1] == p[0] && |q| > n
    decreases n
  {
    q := p;
    if n > 0 {
      var r := Unroll(g, p, n - 1);
      q := r + p[1..];
      forall k | 0 <= k < |q| - 1 ensures q[k + 1] in Successors(g, q[k]) {
        if k + 1 >= |r| {
          var j := k + 1 - |r|;
          assert q[k + 1] == p[j + 1] && q[k] == p[j];
        }
      }
    }
  }

  // ----- The sort itself -----

  ghost predicate IsDependents(deps: Deps, dependents: Levels) {
    && |dependents| == |deps|
    && forall d :: 0 <= d < |deps| ==>
         Distinct(dependents[d]) && forall i: nat :: i in dependents[d] <==> i < |deps| && d in deps[i]
  }

  /** Dependents recorded for the first `n` transactions and for `part` of the next one. */
  ghost predicate DependentsSoFar(deps: Deps, n: nat, part: set<nat>, dependents: Levels) {
    && |dependents| == |deps|
    && forall d :: 0 <= d < |deps| ==>
         Distinct(dependents[d]) &&
         forall i: nat :: i in dependents[d] <==> i < |deps| && ((i < n && d in deps[i]) || (i == n && d in part))
  }

  method RecordDependencies(deps: Deps, i: nat, before: Levels) returns (dependents: Levels)
    requires InRange(deps) && i < |deps| && DependentsSoFar(deps, i, {}, before)
    ensures DependentsSoFar(deps, i + 1, {}, dependents)
  {
    dependents := before;
    var todo := deps[i];
    while todo != {}
      invariant todo <= deps[i] && DependentsSoFar(deps, i, deps[i] - todo, dependents)
      decreases |todo|
    {
      var d :| d in todo;
      todo := todo - {d};
      dependents := dependents[d := dependents[d] + [i]];
    }
  }

  /** `dependents[d]` lists, once each, the transactions that depend on `d`. */
  method CollectDependents(deps: Deps) returns (dependents: Levels)
    requires InRange(deps)
    ensures IsDependents(deps, dependents)
  {
    dependents := seq(|deps|, _ => []);
    for i := 0 to |deps|
      invariant DependentsSoFar(deps, i, {}, dependents)
    {
      dependents := RecordDependencies(deps, i, dependents);
    }
  }

  /** How many dependencies of `i` are outside `placed`. */
  function Unplaced(deps: Deps, placed: set<nat>, i: nat): nat
    requires i < |deps|
  {
    |deps[i] - placed|
  }

  ghost predicate DegreesAgree(deps: Deps, remaining: set<nat>, placed: set<nat>, inDegree: seq<nat>) {
    && |inDegree| == |deps|
    && (forall i :: i in remaining ==> i < |deps|)
    && forall i {:trigger inDegree[i]} :: i in remaining ==> inDegree[i] == Unplaced(deps, placed, i)
  }

  lemma {:induction false} UnplacedStep(deps: Deps, placed: set<nat>, x: nat, i: nat)
    requires i < |deps| && x !in placed
    ensures Unplaced(deps, placed + {x}, i)
            == if x in deps[i] then Unplaced(deps, placed, i) - 1 else Unplaced(deps, placed, i)
  {
    var before, after := deps[i] - placed, deps[i] - (placed + {x});
    if x in deps[i] {
      assert before == after + {x};
    } else {
      assert before == after;
    }
  }

  lemma {:induction false} UnplacedZero(deps: Deps, placed: set<nat>, i: nat)
    requires i < |deps|
    ensures Unplaced(deps, placed, i) == 0 <==> deps[i] <= placed
  {
    var open := deps[i] - placed;
    assert deps[i] <= open + placed;
  }

  /** Lowers the in-degree of everything that depends on `x`. No decrement meets a zero, so the
      saturating subtraction of the source never saturates. */
  method ReleaseDependents(deps: Deps, remaining: set<nat>, placed: set<nat>, x: nat, dependents: seq<nat>,
                           before: seq<nat>)
      returns (inDegree: seq<nat>)
    requires DegreesAgree(deps, remaining, placed, before) && x !in placed
    requires Distinct(dependents) && forall i: nat :: i in dependents <==> i < |deps| && x in deps[i]
    requires forall i :: i in dependents ==> i in remaining
    ensures DegreesAgree(deps, remaining, placed + {x}, inDegree)
  {
    inDegree := before;
    for k := 0 to |dependents|
      invariant |inDegree| == |before|
      invariant forall i :: i in remaining ==> before[i] == inDegree[i] + if i in dependents[..k] then 1 else 0
    {
      var i := dependents[k];
      assert i in dependents && i in remaining && i !in dependents[..k];
      assert x in deps[i] - placed;
      assert inDegree[i] > 0;
      inDegree := inDegree[i := inDegree[i] - 1];
      assert dependents[..k + 1] == dependents[..k] + [i];
    }
    assert dependents[..|dependents|] == dependents;
    forall i | i in remaining ensures inDegree[i] == Unplaced(deps, placed + {x}, i) {
      UnplacedStep(deps, placed, x, i);
    }
  }

  /** The remaining transactions without unplaced dependencies, in whatever order the hash set yields. */
  method CollectLevel(remaining: set<nat>, inDegree: seq<nat>) returns (level: seq<nat>)
    requires forall i :: i in remaining ==> i < |inDegree|
    ensures Distinct(level)
    ensures forall i: nat :: i in level <==> i in remaining && inDegree[i] == 0
  {
    level := [];
    var todo := remaining;
    while todo != {}
      invariant todo <= remaining && Distinct(level)
      invariant forall i: nat :: i in level <==> i in remaining && i !in todo && inDegree[i] == 0
      decreases |todo|
    {
      var i :| i in todo;
      todo := todo - {i};
      if inDegree[i] == 0 {
        level := level + [i];
      }
    }
  }

  function Indices(n: nat): (r: set<nat>)
    ensures forall i: nat :: i in r <==> i < n
  {
    if n == 0 then {} else Indices(n - 1) + {n - 1}
  }

  ghost predicate Splits(deps: Deps, levels: Levels, remaining: set<nat>) {
    forall i: nat :: i in remaining <==> i < |deps| && i !in Done(levels)
  }

  /** Everything still waiting was already waiting one level ago. */
  ghost predicate Waiting(deps: Deps, levels: Levels, remaining: set<nat>) {
    levels != [] ==> forall i :: i in remaining && i < |deps| ==> !(deps[i] <= Done(levels[..|levels| - 1]))
  }

  ghost predicate PlacedIsClosed(deps: Deps, placed: set<nat>) {
    forall i :: i in placed && i < |deps| ==> deps[i] <= placed
  }

  lemma {:induction false} DoneIsClosed(deps: Deps, levels: Levels)
    requires IsLevelling(deps, levels)
    ensures PlacedIsClosed(deps, Done(levels)) && forall i :: i in Done(levels) ==> i < |deps|
  {
    if levels != [] {
      var m := |levels| - 1;
      DoneIsClosed(deps, levels[..m]);
      assert IsNextLevel(deps, levels[..m], levels[m]);
    }
  }

  lemma {:induction false} ReadyIsNextLevel(deps: Deps, levels: Levels, remaining: set<nat>, inDegree: seq<nat>,
                                            level: seq<nat>)
    requires Splits(deps, levels, remaining) && Waiting(deps, levels, remaining)
    requires DegreesAgree(deps, remaining, Done(levels), inDegree)
    requires Distinct(level) && forall i: nat :: i in level <==> i in remaining && inDegree[i] == 0
    ensures IsNextLevel(deps, levels, level)
    ensures Waiting(deps, levels + [level], remaining - Elements(level))
  {
    forall x | x in remaining ensures inDegree[x] == 0 <==> deps[x] <= Done(levels) {
      UnplacedZero(deps, Done(levels), x);
    }
    assert (levels + [level])[..|levels|] == levels;
    forall x | x in level && levels != [] ensures exists d :: d in deps[x] && d in levels[|levels| - 1] {
      var m := |levels| - 1;
      assert x in remaining && deps[x] <= Done(levels) && !(deps[x] <= Done(levels[..m]));
      var d :| d in deps[x] && d !in Done(levels[..m]);
      assert d in Elements(levels[m]);
    }
  }

  /** If nothing is ready, the waiting transactions hold a cycle. */
  lemma {:induction false} StuckIsCyclic(deps: Deps, levels: Levels, remaining: set<nat>, inDegree: seq<nat>)
    requires InRange(deps) && Splits(deps, levels, remaining) && remaining != {}
    requires DegreesAgree(deps, remaining, Done(levels), inDegree)
    requires forall i {:trigger inDegree[i]} :: i in remaining ==> inDegree[i] != 0
    ensures !Acyclic(DepGraph(deps))
  {
    var g := DepGraph(deps);
    forall x | x in remaining ensures HasNext(g, remaining, x) {
      assert inDegree[x] != 0;
      UnplacedZero(deps, Done(levels), x);
      var d: nat :| d in deps[x] && d !in Done(levels);
      assert d < |deps| && d in remaining;
      assert d in Successors(g, x);
    }
    NoSourceHasCycle(g, remaining);
  }

  method PlaceLevel(deps: Deps, dependents: Levels, placed: set<nat>, waiting: set<nat>, level: seq<nat>,
                    before: seq<nat>)
      returns (remaining: set<nat>, inDegree: seq<nat>)
    requires IsDependents(deps, dependents) && DegreesAgree(deps, waiting, placed, before)
    requires forall i: nat :: i in waiting <==> i < |deps| && i !in placed
    requires PlacedIsClosed(deps, placed)
    requires Distinct(level) && forall x :: x in level ==> x in waiting
    ensures remaining == waiting - Elements(level)
    ensures DegreesAgree(deps, remaining, placed + Elements(level), inDegree)
  {
    remaining, inDegree := waiting, before;
    for k := 0 to |level|
      invariant remaining == waiting - Elements(level[..k])
      invariant DegreesAgree(deps, waiting, placed + Elements(level[..k]), inDegree)
    {
      var x := level[k];
      assert level[..k + 1] == level[..k] + [x] && x !in level[..k];
      assert Elements(level[..k + 1]) == Elements(level[..k]) + {x};
      assert placed + Elements(level[..k + 1]) == placed + Elements(level[..k]) + {x};
      remaining := remaining - {x};
      inDegree := ReleaseDependents(deps, waiting, placed + Elements(level[..k]), x, dependents[x], inDegree);
    }
    assert level[..|level|] == level;
  }

  lemma {:induction false} LevellingPush(deps: Deps, levels: Levels, level: seq<nat>)
    requires IsLevelling(deps, levels) && IsNextLevel(deps, levels, level)
    ensures IsLevelling(deps, levels + [level]) && Done(levels + [level]) == Done(levels) + Elements(level)
  {
  }

  ghost predicate SortState(deps: Deps, levels: Levels, remaining: set<nat>, inDegree: seq<nat>) {
    && IsLevelling(deps, levels) && Splits(deps, levels, remaining) && Waiting(deps, levels, remaining)
    && DegreesAgree(deps, remaining, Done(levels), inDegree)
  }

  /** One round of the loop; `stuck` when no remaining transaction is ready. */
  method PlaceNext(deps: Deps, dependents: Levels, levels: Levels, remaining: set<nat>, inDegree: seq<nat>)
      returns (stuck: bool, levels': Levels, remaining': set<nat>, inDegree': seq<nat>)
    requires InRange(deps) && IsDependents(deps, dependents)
    requires SortState(deps, levels, remaining, inDegree) && remaining != {}
    ensures stuck ==> !Acyclic(DepGraph(deps))
    ensures !stuck ==> SortState(deps, levels', remaining', inDegree') && remaining' < remaining
  {
    levels', remaining', inDegree' := levels, remaining, inDegree;
    var level := CollectLevel(remaining, inDegree);
    if level == [] {
      StuckIsCyclic(deps, levels, remaining, inDegree);
      return true, levels, remaining, inDegree;
    }
    ReadyIsNextLevel(deps, levels, remaining, inDegree, level);
    DoneIsClosed(deps, levels);
    LevellingPush(deps, levels, level);
    assert level[0] in remaining && level[0] in Elements(level);
    remaining', inDegree' := PlaceLevel(deps, dependents, Done(levels), remaining, level, inDegree);
    return false, levels + [level], remaining', inDegree';
  }

  /** The level-by-level sort: `None` is its panic, raised exactly on cyclic dependencies. */
  method TopologicalLevels(deps: Deps) returns (r: Option<Levels>)
    requires InRange(deps)
    ensures r.Some? <==> Acyclic(DepGraph(deps))
    ensures r.Some? ==> IsLevelling(deps, r.value) && Covers(r.value, |deps|)
  {
    var inDegree: seq<nat> := seq(|deps|, i requires 0 <= i < |deps| => |deps[i]|);
    var dependents := CollectDependents(deps);
    var levels: Levels := [];
    var remaining := Indices(|deps|);
    assert forall i :: 0 <= i < |deps| ==> deps[i] - {} == deps[i];
    while remaining != {}
      invariant SortState(deps, levels, remaining, inDegree)
      decreases remaining
    {
      var stuck;
      stuck, levels, remaining, inDegree := PlaceNext(deps, dependents, levels, remaining, inDegree);
      if stuck {
        return None;
      }
    }
    DoneIsClosed(deps, levels);
    LevelledIsAcyclic(deps, levels);
    return Some(levels);
  }

  // ----- Dependencies of a block -----

  predicate Creates(tx: Transaction, op: OutPoint) {
    op.txid == tx.txid && op.vout < |tx.outputs|
  }

  /** The last of the first `n` transactions with an output at `op`. */
  function Creator(txs: seq<Transaction>, n: nat, op: OutPoint): (r: Option<nat>)
    requires n <= |txs|
    ensures r.Some? ==> r.value < n && Creates(txs[r.value], op)
    ensures forall j :: (r.Some? ==> r.value < j) && 0 <= j < n ==> !Creates(txs[j], op)
  {
    if n == 0 then None else if Creates(txs[n - 1], op) then Some(n - 1) else Creator(txs, n - 1, op)
  }

  /** The creators of the first `k` inputs of transaction `i`. */
  function CreatorsOfInputs(txs: seq<Transaction>, i: nat, k: nat): set<nat>
    requires i < |txs| && k <= |txs[i].inputs|
  {
    if k == 0 then {} else
      var r := CreatorsOfInputs(txs, i, k - 1);
      match Creator(txs, i + 1, txs[i].inputs[k - 1])
      case None => r
      case Some(d) => r + {d}
  }

  lemma {:induction false} CreatorsAreCreators(txs: seq<Transaction>, i: nat, k: nat, d: nat)
    requires i < |txs| && k <= |txs[i].inputs|
    ensures d in CreatorsOfInputs(txs, i, k) <==>
              exists m :: 0 <= m < k && Creator(txs, i + 1, txs[i].inputs[m]) == Some(d)
  {
    if k > 0 { CreatorsAreCreators(txs, i, k - 1, d); }
  }

  /** The transactions whose outputs transaction `i` spends; the first one is never asked. */
  function DependenciesOf(txs: seq<Transaction>, i: nat): set<nat>
    requires i < |txs|
  {
    if i == 0 then {} else CreatorsOfInputs(txs, i, |txs[i].inputs|)
  }

  function Dependencies(txs: seq<Transaction>): Deps {
    seq(|txs|, i requires 0 <= i < |txs| => DependenciesOf(txs, i))
  }

  predicate SpendsItself(tx: Transaction) {
    exists op :: op in tx.inputs && Creates(tx, op)
  }

  /** Transaction `d` has an output at `op`, and none after it up to `i` does. */
  ghost predicate MadeLast(txs: seq<Transaction>, i: nat, op: OutPoint, d: nat)
    requires i < |txs|
  {
    && d <= i && op.txid == txs[d].txid && op.vout < |txs[d].outputs|
    && forall e :: d < e <= i ==> op.txid != txs[e].txid || op.vout >= |txs[e].outputs|
  }

  /** Transaction `i`, if it is not the first, spends an output of transaction `d`. */
  ghost predicate DependsOn(txs: seq<Transaction>, i: nat, d: nat)
    requires i < |txs|
  {
    i > 0 && exists k :: 0 <= k < |txs[i].inputs| && MadeLast(txs, i, txs[i].inputs[k], d)
  }

  lemma {:induction false} CreatorIff(txs: seq<Transaction>, i: nat, op: OutPoint, d: nat)
    requires i < |txs|
    ensures Creator(txs, i + 1, op) == Some(d) <==> MadeLast(txs, i, op, d)
  {
    var r := Creator(txs, i + 1, op);
    if MadeLast(txs, i, op, d) {
      assert Creates(txs[d], op);
      assert r.Some? && d <= r.value;
    }
  }

  lemma {:induction false} DependenciesAre(txs: seq<Transaction>, i: nat, d: nat)
    requires i < |txs|
    ensures d in DependenciesOf(txs, i) <==> DependsOn(txs, i, d)
  {
    hide MadeLast;
    CreatorsAreCreators(txs, i, |txs[i].inputs|, d);
    forall k | 0 <= k < |txs[i].inputs|
      ensures Creator(txs, i + 1, txs[i].inputs[k]) == Some(d) <==> MadeLast(txs, i, txs[i].inputs[k], d)
    {
      CreatorIff(txs, i, txs[i].inputs[k], d);
    }
  }

  ghost predicate CreatorsAre(txs: seq<Transaction>, n: nat, creators: map<OutPoint, nat>)
    requires n <= |txs|
  {
    forall op :: Creator(txs, n, op) == if op in creators then Some(creators[op]) else None
  }

  /** The first `vout` outputs of transaction `i` have been recorded over `before`. */
  ghost predicate RecordedOver(before: map<OutPoint, nat>, creators: map<OutPoint, nat>, txid: Txid, i: nat, vout: nat) {
    && (forall op :: op in creators <==> op in before || (op.txid == txid && op.vout < vout))
    && forall op :: op in creators ==> creators[op] == if op.txid == txid && op.vout < vout then i else before[op]
  }

  lemma {:induction false} RecordOne(before: map<OutPoint, nat>, creators: map<OutPoint, nat>, txid: Txid, i: nat,
                                     vout: nat)
    requires RecordedOver(before, creators, txid, i, vout)
    ensures RecordedOver(before, creators[OutPoint(txid, vout) := i], txid, i, vout + 1)
  {
  }

  lemma {:induction false} RecordedAll(txs: seq<Transaction>, i: nat, before: map<OutPoint, nat>,
                                       creators: map<OutPoint, nat>)
    requires i < |txs| && CreatorsAre(txs, i, before)
    requires RecordedOver(before, creators, txs[i].txid, i, |txs[i].outputs|)
    ensures CreatorsAre(txs, i + 1, creators)
  {
  }

  method RecordOutputs(txs: seq<Transaction>, i: nat, before: map<OutPoint, nat>) returns (creators: map<OutPoint, nat>)
    requires i < |txs| && CreatorsAre(txs, i, before)
    ensures CreatorsAre(txs, i + 1, creators)
  {
    creators := before;
    assert RecordedOver(before, creators, txs[i].txid, i, 0);
    hide RecordedOver, CreatorsAre;
    for vout := 0 to |txs[i].outputs|
      invariant RecordedOver(before, creators, txs[i].txid, i, vout)
    {
      RecordOne(before, creators, txs[i].txid, i, vout);
      creators := creators[OutPoint(txs[i].txid, vout) := i];
    }
    RecordedAll(txs, i, before, creators);
  }

  method LookUpInputs(txs: seq<Transaction>, i: nat, creators: map<OutPoint, nat>) returns (deps: set<nat>)
    requires 0 < i < |txs| && CreatorsAre(txs, i + 1, creators)
    ensures deps == DependenciesOf(txs, i)
  {
    deps := {};
    for k := 0 to |txs[i].inputs|
      invariant deps == CreatorsOfInputs(txs, i, k)
    {
      var op := txs[i].inputs[k];
      assert Creator(txs, i + 1, op) == if op in creators then Some(creators[op]) else None;
      if op in creators {
        deps := deps + {creators[op]};
      }
    }
  }

  method CollectDependencies(txs: seq<Transaction>) returns (deps: Deps)
    ensures deps == Dependencies(txs)
    ensures |deps| == |txs| && forall i, d :: 0 <= i < |txs| ==> (d in deps[i] <==> d >= 0 && DependsOn(txs, i, d))
  {
    hide DependsOn;
    forall i: nat, d: nat | i < |txs| ensures d in Dependencies(txs)[i] <==> DependsOn(txs, i, d) {
      DependenciesAre(txs, i, d);
    }
    var creators := map[];
    deps := [];
    for i := 0 to |txs|
      invariant CreatorsAre(txs, i, creators) && deps == Dependencies(txs)[..i]
    {
      creators := RecordOutputs(txs, i, creators);
      var own := {};
      if i > 0 {
        own := LookUpInputs(txs, i, creators);
      }
      deps := deps + [own];
    }
  }

  /** Dependencies point backwards, except that a transaction spending its own output waits for itself. */
  lemma {:induction false} DependencyBounds(txs: seq<Transaction>, i: nat, d: nat)
    requires i < |txs| && d in DependenciesOf(txs, i)
    ensures d <= i && (d == i ==> SpendsItself(txs[i]))
  {
    CreatorsAreCreators(txs, i, |txs[i].inputs|, d);
    var m :| 0 <= m < |txs[i].inputs| && Creator(txs, i + 1, txs[i].inputs[m]) == Some(d);
  }

  lemma {:induction false} BlockIsAcyclic(txs: seq<Transaction>)
    ensures InRange(Dependencies(txs))
    ensures Acyclic(DepGraph(Dependencies(txs))) <==> !exists i :: 0 < i < |txs| && SpendsItself(txs[i])
  {
    var deps := Dependencies(txs);
    var g := DepGraph(deps);
    forall i, d | 0 <= i < |deps| && d in deps[i] ensures d < |deps| {
      DependencyBounds(txs, i, d);
    }
    if i: nat :| 0 < i < |txs| && SpendsItself(txs[i]) {
      var m :| 0 <= m < |txs[i].inputs| && Creates(txs[i], txs[i].inputs[m]);
      assert Creator(txs, i + 1, txs[i].inputs[m]) == Some(i);
      CreatorsAreCreators(txs, i, |txs[i].inputs|, i);
      assert i in deps[i];
      assert IsCycle(g, [i, i]);
    } else {
      var rank: map<nat, int> := map i: nat | i in Indices(|txs|) :: i;
      forall x: nat, y: nat | y in Successors(g, x) ensures x in rank && y in rank && rank[y] < rank[x] {
        DependencyBounds(txs, x, y);
      }
      RankedIsAcyclic<nat>(g, rank);
      assert Acyclic(g);
    }
  }

  /** Groups a block's transactions into execution levels. `None` is the panic, raised exactly when
      some transaction after the first spends one of its own outputs. */
  method Build(txs: seq<Transaction>) returns (r: Option<Levels>)
    ensures r.None? <==> exists i :: 0 < i < |txs| && SpendsItself(txs[i])
    ensures r.Some? ==> IsLevelling(Dependencies(txs), r.value) && Covers(r.value, |txs|)
  {
    BlockIsAcyclic(txs);
    if |txs| == 0 {
      return Some([]);
    }
    var deps := CollectDependencies(txs);
    r := TopologicalLevels(deps);
  }
}
