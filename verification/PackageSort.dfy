/** Sorting a package of transactions so that parents come before children (Kahn's algorithm over txids). */
module PackageSort {
  import opened Bitcoin
  import opened Sums
  import opened Graphs

  type Kids = map<Txid, seq<Txid>>

  /** The children recorded for a parent, one for each output spent. */
  function KidsOf(kids: Kids, p: Txid): seq<Txid> {
    if p in kids then kids[p] else []
  }

  function Count(s: seq<Txid>, t: Txid): nat {
    multiset(s)[t]
  }

  lemma {:induction false} CountHas(s: seq<Txid>, t: Txid)
    ensures Count(s, t) > 0 <==> t in s
  {
  }

  lemma {:induction false} CountPush(s: seq<Txid>, x: Txid, t: Txid)
    ensures Count(s + [x], t) == Count(s, t) + if t == x then 1 else 0
  {
  }

  lemma {:induction false} CountPop(s: seq<Txid>, k: nat, t: Txid)
    requires k < |s|
    ensures Count(s[k..], t) == Count(s[k + 1..], t) + if t == s[k] then 1 else 0
  {
    assert s[k..] == [s[k]] + s[k + 1..];
  }

  ghost function Shares(kids: Kids, left: set<Txid>, t: Txid): map<Txid, int> {
    map p | p in left :: Count(KidsOf(kids, p), t)
  }

  /** How many edges lead into `t` from the parents that are left. */
  ghost function Pending(kids: Kids, left: set<Txid>, t: Txid): int {
    MapSum(Shares(kids, left, t))
  }

  lemma {:induction false} PendingTake(kids: Kids, left: set<Txid>, p: Txid, t: Txid)
    requires p in left
    ensures Pending(kids, left, t) == Count(KidsOf(kids, p), t) + Pending(kids, left - {p}, t)
  {
    MapSumTake(Shares(kids, left, t), p);
    assert Shares(kids, left, t) - {p} == Shares(kids, left - {p}, t);
  }

  function PushKid(kids: Kids, p: Txid, c: Txid): Kids {
    kids[p := KidsOf(kids, p) + [c]]
  }

  lemma {:induction false} PendingLocal(kids: Kids, kids': Kids, left: set<Txid>, t: Txid)
    requires forall p :: p in left ==> KidsOf(kids, p) == KidsOf(kids', p)
    ensures Pending(kids, left, t) == Pending(kids', left, t)
  {
    hide KidsOf;
    assert Shares(kids', left, t) == Shares(kids, left, t);
  }

  lemma {:induction false} PendingPush(kids: Kids, left: set<Txid>, p: Txid, c: Txid, t: Txid)
    requires p in left
    ensures Pending(PushKid(kids, p, c), left, t) == Pending(kids, left, t) + if t == c then 1 else 0
  {
    hide Count, Pending;
    var kids' := PushKid(kids, p, c);
    PendingTake(kids, left, p, t);
    PendingTake(kids', left, p, t);
    PendingLocal(kids, kids', left - {p}, t);
    CountPush(KidsOf(kids, p), c, t);
  }

  lemma {:induction false} PendingZero(kids: Kids, left: set<Txid>, t: Txid)
    ensures Pending(kids, left, t) >= 0
    ensures Pending(kids, left, t) == 0 <==> forall p :: p in left ==> t !in KidsOf(kids, p)
  {
    var shares := Shares(kids, left, t);
    MapSumNonNegative(shares);
    if p :| p in left && t in KidsOf(kids, p) {
      PendingTake(kids, left, p, t);
      MapSumNonNegative(Shares(kids, left - {p}, t));
      CountHas(KidsOf(kids, p), t);
    } else {
      forall p | p in shares ensures shares[p] == 0 { CountHas(KidsOf(kids, p), t); }
      MapSumZero(shares);
    }
  }

  ghost predicate Degrees(kids: Kids, ids: set<Txid>, left: set<Txid>, inDegree: map<Txid, int>) {
    inDegree.Keys == ids && forall t :: t in ids ==> inDegree[t] == Pending(kids, left, t)
  }

  // ----- Building the edges -----

  lemma {:induction false} DegreesPush(kids: Kids, ids: set<Txid>, inDegree: map<Txid, int>, p: Txid, c: Txid)
    requires Degrees(kids, ids, ids, inDegree) && p in ids && c in ids
    ensures Degrees(PushKid(kids, p, c), ids, ids, inDegree[c := inDegree[c] + 1])
  {
    hide Pending, PushKid;
    forall t | t in ids ensures inDegree[c := inDegree[c] + 1][t] == Pending(PushKid(kids, p, c), ids, t) {
      PendingPush(kids, ids, p, c, t);
    }
  }

  /** How many of the inputs spend an output of `p`. */
  function SpentFrom(ops: seq<OutPoint>, p: Txid): nat {
    if ops == [] then 0 else SpentFrom(ops[..|ops| - 1], p) + if ops[|ops| - 1].txid == p then 1 else 0
  }

  lemma {:induction false} SpentFromSome(ops: seq<OutPoint>, p: Txid)
    ensures SpentFrom(ops, p) > 0 <==> SpendsFrom(ops, p)
  {
    if ops != [] {
      hide SpendsFrom;
      var n := |ops| - 1;
      SpentFromSome(ops[..n], p);
      SpendsFromPush(ops[..n], ops[n], p);
      assert ops == ops[..n] + [ops[n]];
    } else {
      assert !SpendsFrom(ops, p);
    }
  }

  function Added(ids: set<Txid>, c: Txid, ops: seq<OutPoint>, p: Txid, t: Txid): nat {
    if p in ids && t == c then SpentFrom(ops, p) else 0
  }

  /** `kids'` records `c` below every in-package parent once for each of its outputs among `ops`, and nothing else
      new. */
  ghost predicate Records(kids: Kids, kids': Kids, ids: set<Txid>, c: Txid, ops: seq<OutPoint>) {
    forall p, t :: Count(KidsOf(kids', p), t) == Count(KidsOf(kids, p), t) + Added(ids, c, ops, p, t)
  }

  lemma {:induction false} RecordsNothing(kids: Kids, ids: set<Txid>, c: Txid)
    ensures Records(kids, kids, ids, c, [])
  {
    hide Count, KidsOf;
    assert forall p, t :: Added(ids, c, [], p, t) == 0;
  }

  lemma {:induction false} PushedCount(kids: Kids, q: Txid, c: Txid, p: Txid, t: Txid)
    ensures Count(KidsOf(PushKid(kids, q, c), p), t) == Count(KidsOf(kids, p), t) + if p == q && t == c then 1 else 0
  {
    hide Count;
    CountPush(KidsOf(kids, q), c, t);
  }

  lemma {:induction false} RecordsPush(kids: Kids, kids': Kids, ids: set<Txid>, c: Txid, ops: seq<OutPoint>,
                                       op: OutPoint)
    requires Records(kids, kids', ids, c, ops)
    ensures Records(kids, if op.txid in ids then PushKid(kids', op.txid, c) else kids', ids, c, ops + [op])
  {
    hide Count, KidsOf, PushKid;
    var kids'' := if op.txid in ids then PushKid(kids', op.txid, c) else kids';
    assert (ops + [op])[..|ops|] == ops;
    forall p, t ensures Count(KidsOf(kids'', p), t) == Count(KidsOf(kids, p), t) + Added(ids, c, ops + [op], p, t) {
      PushedCount(kids', op.txid, c, p, t);
    }
  }

  method AddEdges(ids: set<Txid>, tx: Transaction, kids: Kids, inDegree: map<Txid, int>)
    returns (kids': Kids, inDegree': map<Txid, int>)
    requires tx.txid in ids && Degrees(kids, ids, ids, inDegree)
    ensures Degrees(kids', ids, ids, inDegree') && Records(kids, kids', ids, tx.txid, tx.inputs)
  {
    hide Pending, Records, PushKid;
    kids', inDegree' := kids, inDegree;
    RecordsNothing(kids, ids, tx.txid);
    for k := 0 to |tx.inputs|
      invariant Degrees(kids', ids, ids, inDegree') && Records(kids, kids', ids, tx.txid, tx.inputs[..k])
    {
      var p := tx.inputs[k].txid;
      RecordsPush(kids, kids', ids, tx.txid, tx.inputs[..k], tx.inputs[k]);
      assert tx.inputs[..k + 1] == tx.inputs[..k] + [tx.inputs[k]];
      if p in ids {
        DegreesPush(kids', ids, inDegree', p, tx.txid);
        kids' := PushKid(kids', p, tx.txid);
        inDegree' := inDegree'[tx.txid := inDegree'[tx.txid] + 1];
      }
    }
    assert tx.inputs[..|tx.inputs|] == tx.inputs;
  }

  function Txids(txs: seq<Transaction>): set<Txid> {
    set tx | tx in txs :: tx.txid
  }

  ghost predicate Spender(txs: seq<Transaction>, p: Txid, t: Txid) {
    exists tx :: tx in txs && tx.txid == t && SpendsFrom(tx.inputs, p)
  }

  /** Each txid of the package with the in-package txids it spends from. */
  ghost function Parents(txs: seq<Transaction>): Graph<Txid> {
    map t | t in Txids(txs) :: set p | p in Txids(txs) && Spender(txs, p, t)
  }

  /** How many edges the package has from `p` to `t`: one for each output of `p` that `t` spends. */
  function Edges(txs: seq<Transaction>, p: Txid, t: Txid): nat {
    if txs == [] then 0 else
      var tx := txs[|txs| - 1];
      Edges(txs[..|txs| - 1], p, t) + if tx.txid == t then SpentFrom(tx.inputs, p) else 0
  }

  lemma {:induction false} SpenderPush(txs: seq<Transaction>, tx: Transaction, p: Txid, t: Txid)
    ensures Spender(txs + [tx], p, t) <==> Spender(txs, p, t) || (tx.txid == t && SpendsFrom(tx.inputs, p))
  {
    hide SpendsFrom;
    if x :| x in txs && x.txid == t && SpendsFrom(x.inputs, p) { assert x in txs + [tx]; }
    assert tx in txs + [tx];
  }

  lemma {:induction false} EdgesSome(txs: seq<Transaction>, p: Txid, t: Txid)
    ensures Edges(txs, p, t) > 0 <==> Spender(txs, p, t)
  {
    if txs != [] {
      hide Spender, SpendsFrom, SpentFrom;
      var n := |txs| - 1;
      EdgesSome(txs[..n], p, t);
      SpentFromSome(txs[n].inputs, p);
      SpenderPush(txs[..n], txs[n], p, t);
      assert txs == txs[..n] + [txs[n]];
    }
  }

  ghost predicate Counted(txs: seq<Transaction>, ids: set<Txid>, kids: Kids) {
    forall p, t :: Count(KidsOf(kids, p), t) == if p in ids then Edges(txs, p, t) else 0
  }

  ghost predicate Built(txs: seq<Transaction>, ids: set<Txid>, kids: Kids) {
    forall p, t :: t in KidsOf(kids, p) <==> p in ids && Spender(txs, p, t)
  }

  lemma {:induction false} CountedIsBuilt(txs: seq<Transaction>, ids: set<Txid>, kids: Kids)
    requires Counted(txs, ids, kids)
    ensures Built(txs, ids, kids)
  {
    hide Count, Spender, Edges, KidsOf;
    forall p, t ensures t in KidsOf(kids, p) <==> p in ids && Spender(txs, p, t) {
      CountHas(KidsOf(kids, p), t);
      EdgesSome(txs, p, t);
    }
  }

  lemma {:induction false} CountedPush(txs: seq<Transaction>, ids: set<Txid>, kids: Kids, kids': Kids, tx: Transaction)
    requires Counted(txs, ids, kids) && Records(kids, kids', ids, tx.txid, tx.inputs)
    ensures Counted(txs + [tx], ids, kids')
  {
    hide Count, KidsOf, SpentFrom;
    assert (txs + [tx])[..|txs|] == txs;
  }

  lemma {:induction false} NoEdges(ids: set<Txid>, inDegree: map<Txid, int>)
    requires inDegree.Keys == ids && forall t :: t in ids ==> inDegree[t] == 0
    ensures Counted([], ids, map[]) && Degrees(map[], ids, ids, inDegree)
  {
    forall t | t in ids ensures Pending(map[], ids, t) == 0 {
      PendingZero(map[], ids, t);
    }
  }

  method BuildEdges(txs: seq<Transaction>) returns (kids: Kids, inDegree: map<Txid, int>)
    ensures Counted(txs, Txids(txs), kids) && Built(txs, Txids(txs), kids)
    ensures Degrees(kids, Txids(txs), Txids(txs), inDegree)
  {
    hide Counted, Built, Degrees, Records;
    var ids := Txids(txs);
    kids, inDegree := map[], map t | t in ids :: 0;
    NoEdges(ids, inDegree);
    for k := 0 to |txs|
      invariant Counted(txs[..k], ids, kids) && Degrees(kids, ids, ids, inDegree)
    {
      var kids';
      kids', inDegree := AddEdges(ids, txs[k], kids, inDegree);
      CountedPush(txs[..k], ids, kids, kids', txs[k]);
      assert txs[..k + 1] == txs[..k] + [txs[k]];
      kids := kids';
    }
    assert txs[..|txs|] == txs;
    CountedIsBuilt(txs, ids, kids);
  }

  // ----- The queue loop -----

  /** Every parent of an element stands earlier in the order. */
  ghost predicate ParentsFirst(kids: Kids, ids: set<Txid>, order: seq<Txid>) {
    forall i, p :: 0 <= i < |order| && p in ids && order[i] in KidsOf(kids, p) ==> p in order[..i]
  }

  /** Txids without pending parents are exactly those in the order or the queue, each once. */
  ghost predicate Queued(ids: set<Txid>, inDegree: map<Txid, int>, order: seq<Txid>, queue: seq<Txid>) {
    && inDegree.Keys == ids && Distinct(order + queue)
    && forall t :: t in order + queue <==> t in ids && inDegree[t] == 0
  }

  lemma {:induction false} ParentsAreDone(kids: Kids, ids: set<Txid>, inDegree: map<Txid, int>, order: seq<Txid>,
                                          t: Txid)
    requires Degrees(kids, ids, ids - Elements(order), inDegree) && t in ids && inDegree[t] == 0
    ensures forall p :: p in ids && t in KidsOf(kids, p) ==> p in order
  {
    PendingZero(kids, ids - Elements(order), t);
    forall p | p in ids && t in KidsOf(kids, p) ensures p in order {
      assert p !in ids - Elements(order);
    }
  }

  lemma {:induction false} OrderPush(kids: Kids, ids: set<Txid>, order: seq<Txid>, t: Txid)
    requires ParentsFirst(kids, ids, order) && forall p :: p in ids && t in KidsOf(kids, p) ==> p in order
    ensures ParentsFirst(kids, ids, order + [t])
  {
    var order' := order + [t];
    forall i, p | 0 <= i < |order'| && p in ids && order'[i] in KidsOf(kids, p) ensures p in order'[..i] {
      assert order'[..i] == order[..i];
    }
  }

  /** While the children of a finished txid are being released, `rest` are those still to come. */
  ghost predicate Releasing(kids: Kids, ids: set<Txid>, left: set<Txid>, rest: seq<Txid>, inDegree: map<Txid, int>) {
    inDegree.Keys == ids && forall t :: t in ids ==> inDegree[t] == Pending(kids, left, t) + Count(rest, t)
  }

  lemma {:induction false} ReleaseStarts(kids: Kids, ids: set<Txid>, left: set<Txid>, inDegree: map<Txid, int>, t: Txid)
    requires Degrees(kids, ids, left, inDegree) && t in left
    ensures Releasing(kids, ids, left - {t}, KidsOf(kids, t), inDegree)
  {
    hide Pending, Count;
    forall x | x in ids ensures inDegree[x] == Pending(kids, left - {t}, x) + Count(KidsOf(kids, t), x) {
      PendingTake(kids, left, t, x);
    }
  }

  lemma {:induction false} ReleaseOne(kids: Kids, ids: set<Txid>, left: set<Txid>, s: seq<Txid>, k: nat,
                                      inDegree: map<Txid, int>)
    requires k < |s| && Releasing(kids, ids, left, s[k..], inDegree) && s[k] in ids
    ensures inDegree[s[k]] > 0 && Releasing(kids, ids, left, s[k + 1..], inDegree[s[k] := inDegree[s[k]] - 1])
  {
    hide Pending, Count;
    PendingZero(kids, left, s[k]);
    forall x | x in ids
      ensures inDegree[s[k] := inDegree[s[k]] - 1][x] == Pending(kids, left, x) + Count(s[k + 1..], x)
    {
      CountPop(s, k, x);
    }
    CountPop(s, k, s[k]);
  }

  lemma {:induction false} ReleaseEnds(kids: Kids, ids: set<Txid>, left: set<Txid>, inDegree: map<Txid, int>)
    requires Releasing(kids, ids, left, [], inDegree)
    ensures Degrees(kids, ids, left, inDegree)
  {
  }

  lemma {:induction false} QueuedStep(ids: set<Txid>, inDegree: map<Txid, int>, order: seq<Txid>, queue: seq<Txid>,
                                      c: Txid)
    requires Queued(ids, inDegree, order, queue) && c in ids && inDegree[c] > 0
    ensures Queued(ids, inDegree[c := inDegree[c] - 1], order, if inDegree[c] == 1 then queue + [c] else queue)
  {
    if inDegree[c] == 1 {
      assert order + (queue + [c]) == (order + queue) + [c];
      assert c !in order + queue;
    }
  }

  /** Releases the children of the txid just taken: each edge lowers a degree, and a child whose last edge goes joins
      the queue. */
  method Release(kids: Kids, ids: set<Txid>, ghost left: set<Txid>, s: seq<Txid>, order: seq<Txid>, queue: seq<Txid>,
                 inDegree: map<Txid, int>)
    returns (queue': seq<Txid>, inDegree': map<Txid, int>)
    requires Releasing(kids, ids, left, s, inDegree) && Queued(ids, inDegree, order, queue)
    requires forall k :: 0 <= k < |s| ==> s[k] in ids
    ensures Degrees(kids, ids, left, inDegree') && Queued(ids, inDegree', order, queue')
  {
    queue', inDegree' := queue, inDegree;
    assert s[0..] == s;
    hide Releasing, Degrees, Queued, KidsOf, Count;
    for k := 0 to |s|
      invariant inDegree'.Keys == ids
      invariant Releasing(kids, ids, left, s[k..], inDegree') && Queued(ids, inDegree', order, queue')
    {
      ReleaseOne(kids, ids, left, s, k, inDegree');
      QueuedStep(ids, inDegree', order, queue', s[k]);
      inDegree' := inDegree'[s[k] := inDegree'[s[k]] - 1];
      if inDegree'[s[k]] == 0 { queue' := queue' + [s[k]]; }
    }
    assert s[|s|..] == [];
    ReleaseEnds(kids, ids, left, inDegree');
  }

  lemma {:induction false} QueueIsInitial(ids: set<Txid>, inDegree: map<Txid, int>, queue: seq<Txid>)
    requires inDegree.Keys == ids && Distinct(queue) && Elements(queue) == set t | t in ids && inDegree[t] == 0
    ensures Queued(ids, inDegree, [], queue)
  {
    assert [] + queue == queue;
    assert forall t :: t in queue <==> t in Elements(queue);
  }

  /** The txids without parents, in any order. */
  method InitialQueue(ids: set<Txid>, inDegree: map<Txid, int>) returns (queue: seq<Txid>)
    requires inDegree.Keys == ids
    ensures Queued(ids, inDegree, [], queue)
  {
    var todo := set t | t in ids && inDegree[t] == 0;
    ghost var all := todo;
    queue := [];
    while todo != {}
      invariant Distinct(queue) && todo !! Elements(queue) && todo + Elements(queue) == all
      decreases todo
    {
      hide Distinct, Elements;
      var t :| t in todo;
      DistinctPush(queue, t);
      queue, todo := queue + [t], todo - {t};
    }
    QueueIsInitial(ids, inDegree, queue);
  }

  lemma {:induction false} OrderBound(ids: set<Txid>, inDegree: map<Txid, int>, order: seq<Txid>, queue: seq<Txid>)
    requires Queued(ids, inDegree, order, queue)
    ensures |order| + |queue| <= |ids|
  {
    DistinctSize(order + queue);
    assert Elements(order + queue) <= ids;
    SubsetSize(Elements(order + queue), ids);
  }

  ghost predicate WaitsFor(kids: Kids, ids: set<Txid>, order: seq<Txid>, t: Txid) {
    exists p :: p in ids && p !in order && t in KidsOf(kids, p)
  }

  lemma {:induction false} LeftOverWaits(kids: Kids, ids: set<Txid>, inDegree: map<Txid, int>, order: seq<Txid>,
                                         t: Txid)
    requires Degrees(kids, ids, ids - Elements(order), inDegree) && Queued(ids, inDegree, order, []) && t in ids
    requires t !in order
    ensures WaitsFor(kids, ids, order, t)
  {
    hide Pending, KidsOf, Distinct;
    assert order + [] == order;
    assert inDegree[t] != 0;
    PendingZero(kids, ids - Elements(order), t);
    hide Queued, Degrees;
    var p :| p in ids - Elements(order) && t in KidsOf(kids, p);
    assert p in ids && p !in order && t in KidsOf(kids, p);
  }

  lemma {:induction false} DegreesKeys(kids: Kids, ids: set<Txid>, left: set<Txid>, inDegree: map<Txid, int>)
    requires Degrees(kids, ids, left, inDegree)
    ensures inDegree.Keys == ids
  {
  }

  lemma {:induction false} NothingOrdered(kids: Kids, ids: set<Txid>)
    ensures ParentsFirst(kids, ids, []) && ids - Elements([]) == ids
  {
  }

  lemma {:induction false} LeftAfter(ids: set<Txid>, order: seq<Txid>, t: Txid)
    requires t in ids && t !in order
    ensures t in ids - Elements(order) && ids - Elements(order) - {t} == ids - Elements(order + [t])
  {
  }

  lemma {:induction false} KidsAreInside(kids: Kids, ids: set<Txid>, t: Txid)
    requires KidsInside(kids, ids)
    ensures forall k :: 0 <= k < |KidsOf(kids, t)| ==> KidsOf(kids, t)[k] in ids
  {
    forall k | 0 <= k < |KidsOf(kids, t)| ensures KidsOf(kids, t)[k] in ids {
      assert KidsOf(kids, t)[k] in KidsOf(kids, t);
    }
  }

  lemma {:induction false} TakeFirst(ids: set<Txid>, inDegree: map<Txid, int>, order: seq<Txid>, queue: seq<Txid>)
    requires Queued(ids, inDegree, order, queue) && queue != []
    ensures queue[0] in ids && inDegree[queue[0]] == 0 && queue[0] !in order
    ensures Queued(ids, inDegree, order + [queue[0]], queue[1..])
  {
    var all := order + queue;
    assert all[|order|] == queue[0] && order + [queue[0]] + queue[1..] == all;
    forall k | 0 <= k < |order| ensures order[k] != queue[0] {
      assert all[k] == order[k] && all[k] != all[|order|];
    }
  }

  lemma {:induction false} OrderIsSound(ids: set<Txid>, inDegree: map<Txid, int>, order: seq<Txid>)
    requires Queued(ids, inDegree, order, [])
    ensures Distinct(order) && Elements(order) <= ids
  {
    assert order + [] == order;
  }

  ghost predicate KidsInside(kids: Kids, ids: set<Txid>) {
    forall p, t :: t in KidsOf(kids, p) ==> p in ids && t in ids
  }

  method Kahn(ids: set<Txid>, kids: Kids, degrees: map<Txid, int>) returns (order: seq<Txid>)
    requires Degrees(kids, ids, ids, degrees) && KidsInside(kids, ids)
    ensures Distinct(order) && Elements(order) <= ids && ParentsFirst(kids, ids, order)
    ensures forall t :: t in ids && t !in order ==> WaitsFor(kids, ids, order, t)
  {
    hide Degrees, Queued, ParentsFirst, WaitsFor, KidsInside, KidsOf, Releasing, Elements;
    order := [];
    var inDegree := degrees;
    DegreesKeys(kids, ids, ids, inDegree);
    var queue := InitialQueue(ids, inDegree);
    NothingOrdered(kids, ids);
    while queue != []
      invariant Degrees(kids, ids, ids - Elements(order), inDegree) && Queued(ids, inDegree, order, queue)
      invariant ParentsFirst(kids, ids, order)
      decreases |ids| - |order|
    {
      var t := queue[0];
      OrderBound(ids, inDegree, order, queue);
      TakeFirst(ids, inDegree, order, queue);
      ParentsAreDone(kids, ids, inDegree, order, t);
      OrderPush(kids, ids, order, t);
      LeftAfter(ids, order, t);
      KidsAreInside(kids, ids, t);
      ReleaseStarts(kids, ids, ids - Elements(order), inDegree, t);
      order := order + [t];
      queue, inDegree := Release(kids, ids, ids - Elements(order), KidsOf(kids, t), order, queue[1..], inDegree);
    }
    forall t | t in ids && t !in order ensures WaitsFor(kids, ids, order, t) {
      LeftOverWaits(kids, ids, inDegree, order, t);
    }
    OrderIsSound(ids, inDegree, order);
  }

  // ----- What the order means for the package -----

  lemma {:induction false} BuiltIsInside(txs: seq<Transaction>, kids: Kids)
    requires Built(txs, Txids(txs), kids)
    ensures KidsInside(kids, Txids(txs))
  {
    hide SpendsFrom;
    forall p, t | t in KidsOf(kids, p) ensures p in Txids(txs) && t in Txids(txs) {
      assert Spender(txs, p, t);
    }
  }

  lemma {:induction false} WaiterHasNext(txs: seq<Transaction>, kids: Kids, order: seq<Txid>, x: Txid)
    requires Built(txs, Txids(txs), kids) && x in Txids(txs) && WaitsFor(kids, Txids(txs), order, x)
    ensures HasNext(Parents(txs), Txids(txs) - Elements(order), x)
  {
    hide Spender;
    var p :| p in Txids(txs) && p !in order && x in KidsOf(kids, p);
    assert p in Successors(Parents(txs), x) && p in Txids(txs) - Elements(order);
  }

  /** If anything is left over, the package has a cycle. */
  lemma {:induction false} LeftOverIsCyclic(txs: seq<Transaction>, kids: Kids, order: seq<Txid>, t: Txid)
    requires Built(txs, Txids(txs), kids) && t in Txids(txs) && t !in order
    requires forall t :: t in Txids(txs) && t !in order ==> WaitsFor(kids, Txids(txs), order, t)
    ensures !Acyclic(Parents(txs))
  {
    hide Built, WaitsFor, Txids, Parents, HasNext, Acyclic;
    var g, rest := Parents(txs), Txids(txs) - Elements(order);
    forall x | x in rest ensures HasNext(g, rest, x) {
      WaiterHasNext(txs, kids, order, x);
    }
    assert t in rest;
    NoSourceHasCycle(g, rest);
  }

  function Position(order: seq<Txid>, t: Txid): (k: nat)
    requires t in order
    ensures k < |order| && order[k] == t
  {
    var n := |order| - 1;
    if order[n] == t then n else Position(order[..n], t)
  }

  lemma {:induction false} ParentIsEarlier(kids: Kids, ids: set<Txid>, order: seq<Txid>, p: Txid, t: Txid)
    requires Distinct(order) && ParentsFirst(kids, ids, order) && p in ids && p in order && t in order
    requires t in KidsOf(kids, p)
    ensures Position(order, p) < Position(order, t)
  {
    var k := Position(order, t);
    assert order[k] in KidsOf(kids, p);
    var j :| 0 <= j < k && order[..k][j] == p;
    assert order[j] == p && order[Position(order, p)] == p;
  }

  /** An order of everything with parents first rules cycles out. */
  lemma {:induction false} OrderedIsAcyclic(txs: seq<Transaction>, kids: Kids, order: seq<Txid>)
    requires Built(txs, Txids(txs), kids) && Distinct(order) && Elements(order) == Txids(txs)
    requires ParentsFirst(kids, Txids(txs), order)
    ensures Acyclic(Parents(txs))
  {
    hide Spender, Acyclic, ParentsFirst, Position, Txids;
    var g, ids := Parents(txs), Txids(txs);
    var rank: map<Txid, int> := map t | t in Elements(order) :: Position(order, t);
    forall x, y | y in Successors(g, x) ensures x in rank && y in rank && rank[y] < rank[x] {
      assert x in ids && y in ids && x in Elements(order) && y in Elements(order);
      ParentIsEarlier(kids, ids, order, y, x);
    }
    RankedIsAcyclic<Txid>(g, rank);
  }

  lemma {:induction false} DistinctTxidsPush(txs: seq<Transaction>, tx: Transaction)
    ensures DistinctTxids(txs + [tx]) <==> DistinctTxids(txs) && tx.txid !in Txids(txs)
  {
    var all := txs + [tx];
    if DistinctTxids(all) {
      forall i, j | 0 <= i < j < |txs| ensures txs[i].txid != txs[j].txid { assert all[i].txid != all[j].txid; }
      forall x | x in txs ensures x.txid != tx.txid {
        var i :| 0 <= i < |txs| && txs[i] == x;
        assert all[i].txid != all[|txs|].txid;
      }
    }
    if DistinctTxids(txs) && tx.txid !in Txids(txs) {
      forall i | 0 <= i < |txs| ensures txs[i].txid != tx.txid { assert txs[i] in txs; }
    }
  }

  lemma {:induction false} TxidCount(txs: seq<Transaction>)
    ensures |Txids(txs)| <= |txs| && (|Txids(txs)| == |txs| <==> DistinctTxids(txs))
  {
    if txs != [] {
      hide Txids, DistinctTxids;
      var n := |txs| - 1;
      TxidCount(txs[..n]);
      assert txs == txs[..n] + [txs[n]];
      TxidsPush(txs[..n], txs[n]);
      DistinctTxidsPush(txs[..n], txs[n]);
    }
  }

  lemma {:induction false} TxidsPush(txs: seq<Transaction>, tx: Transaction)
    ensures Txids(txs + [tx]) == Txids(txs) + {tx.txid}
  {
    forall t | t in Txids(txs) + {tx.txid} ensures t in Txids(txs + [tx]) {
      if t in Txids(txs) {
        var x :| x in txs && x.txid == t;
        assert x in txs + [tx];
      } else {
        assert tx in txs + [tx];
      }
    }
  }

  /** Everything is sorted exactly when the order holds as many txids as there are transactions. */
  lemma {:induction false} SortedAll(txs: seq<Transaction>, order: seq<Txid>)
    requires Distinct(order) && Elements(order) <= Txids(txs)
    ensures |order| == |txs| <==> DistinctTxids(txs) && Elements(order) == Txids(txs)
  {
    hide Txids, Distinct;
    DistinctSize(order);
    SubsetSize(Elements(order), Txids(txs));
    TxidCount(txs);
  }

  type TxMap = map<Txid, Transaction>

  ghost predicate Maps(txs: seq<Transaction>, m: TxMap) {
    m.Keys == Txids(txs) && forall t :: t in m ==> m[t] in txs && m[t].txid == t
  }

  method BuildMap(txs: seq<Transaction>) returns (m: TxMap)
    ensures Maps(txs, m)
  {
    m := map[];
    for k := 0 to |txs|
      invariant Maps(txs[..k], m)
    {
      assert txs[..k + 1] == txs[..k] + [txs[k]];
      TxidsPush(txs[..k], txs[k]);
      m := m[txs[k].txid := txs[k]];
    }
    assert txs[..|txs|] == txs;
  }

  function Picked(order: seq<Txid>, m: TxMap): seq<Transaction>
    requires forall k :: 0 <= k < |order| ==> order[k] in m
  {
    seq(|order|, k requires 0 <= k < |order| => m[order[k]])
  }

  lemma {:induction false} DistinctMultiset<T>(s: seq<T>)
    requires Distinct(s)
    ensures multiset(s) == multiset(Elements(s))
  {
    if s != [] {
      var n := |s| - 1;
      DistinctMultiset(s[..n]);
      assert s == s[..n] + [s[n]];
      assert Elements(s) == Elements(s[..n]) + {s[n]} && s[n] !in Elements(s[..n]);
    }
  }

  lemma {:induction false} PickedIsPermutation(txs: seq<Transaction>, order: seq<Txid>, m: TxMap)
    requires DistinctTxids(txs) && Distinct(order) && Elements(order) == Txids(txs) && Maps(txs, m)
    requires forall k :: 0 <= k < |order| ==> order[k] in m
    ensures multiset(Picked(order, m)) == multiset(txs)
  {
    var sorted := Picked(order, m);
    forall tx | tx in txs ensures tx in sorted {
      assert tx.txid in Txids(txs) && tx.txid in Elements(order);
      var k :| 0 <= k < |order| && order[k] == tx.txid;
      UniqueTxid(txs, tx, m[tx.txid]);
      assert sorted[k] == tx;
    }
    assert Elements(sorted) == Elements(txs);
    DistinctMultiset(sorted);
    DistinctMultiset(txs);
  }

  lemma {:induction false} UniqueTxid(txs: seq<Transaction>, a: Transaction, b: Transaction)
    requires DistinctTxids(txs) && a in txs && b in txs && a.txid == b.txid
    ensures a == b
  {
  }

  /** No transaction spends from itself or from a later one. */
  ghost predicate ParentsBefore(sorted: seq<Transaction>) {
    forall i, j :: 0 <= i < |sorted| && 0 <= j < |sorted| && SpendsFrom(sorted[i].inputs, sorted[j].txid) ==> j < i
  }

  lemma {:induction false} PickedIsOrdered(txs: seq<Transaction>, kids: Kids, order: seq<Txid>, m: TxMap)
    requires Built(txs, Txids(txs), kids) && Distinct(order) && Elements(order) <= Txids(txs) && Maps(txs, m)
    requires ParentsFirst(kids, Txids(txs), order) && forall k :: 0 <= k < |order| ==> order[k] in m
    ensures ParentsBefore(Picked(order, m))
  {
    hide SpendsFrom;
    var sorted := Picked(order, m);
    forall i, j | 0 <= i < |sorted| && 0 <= j < |sorted| && SpendsFrom(sorted[i].inputs, sorted[j].txid) ensures j < i {
      assert order[j] in Elements(order);
      assert Spender(txs, order[j], order[i]) by { assert sorted[i] in txs; }
      assert order[i] in KidsOf(kids, order[j]);
      var k :| 0 <= k < i && order[..i][k] == order[j];
      assert order[k] == order[j];
    }
  }

  datatype PackageError = PackageCyclicDependencies

  /** Succeeds exactly on packages with distinct txids and no cycle of spends, and then returns the same transactions
      with every parent before all its children. */
  method TopologicalSortPackage(txs: seq<Transaction>) returns (r: Result<seq<Transaction>, PackageError>)
    ensures r.Ok? <==> DistinctTxids(txs) && Acyclic(Parents(txs))
    ensures r.Ok? ==> multiset(r.value) == multiset(txs) && ParentsBefore(r.value)
  {
    hide *;
    var txMap := BuildMap(txs);
    var kids, inDegree := BuildEdges(txs);
    BuiltIsInside(txs, kids);
    var order := Kahn(Txids(txs), kids, inDegree);
    OrderInMap(txs, order, txMap);
    var sorted := Picked(order, txMap);
    SortedAll(txs, order);
    if |order| != |txs| {
      UnsortedIsBad(txs, kids, order);
      return Err(PackageCyclicDependencies);
    }
    OrderedIsAcyclic(txs, kids, order);
    PickedIsPermutation(txs, order, txMap);
    PickedIsOrdered(txs, kids, order, txMap);
    return Ok(sorted);
  }

  lemma {:induction false} OrderInMap(txs: seq<Transaction>, order: seq<Txid>, m: TxMap)
    requires Maps(txs, m) && Elements(order) <= Txids(txs)
    ensures forall k :: 0 <= k < |order| ==> order[k] in m
  {
    forall k | 0 <= k < |order| ensures order[k] in m {
      assert order[k] in Elements(order);
    }
  }

  lemma {:induction false} UnsortedIsBad(txs: seq<Transaction>, kids: Kids, order: seq<Txid>)
    requires Built(txs, Txids(txs), kids) && Elements(order) <= Txids(txs)
    requires forall t :: t in Txids(txs) && t !in order ==> WaitsFor(kids, Txids(txs), order, t)
    requires !(DistinctTxids(txs) && Elements(order) == Txids(txs))
    ensures !(DistinctTxids(txs) && Acyclic(Parents(txs)))
  {
    hide Built, WaitsFor, Acyclic, Parents, DistinctTxids, Txids;
    if Elements(order) != Txids(txs) {
      var t :| t in Txids(txs) && t !in Elements(order);
      LeftOverIsCyclic(txs, kids, order, t);
    }
  }
}
