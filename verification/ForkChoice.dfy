/** Most-work fork choice over every order in which a block tree may be imported. */
module ForkChoice {
  import opened Bitcoin

  datatype Header = Header(hash: nat, prev: nat, work: nat)

  /** The known blocks by hash, with their heights. */
  datatype Chain = Chain(genesis: Header, headers: map<nat, Header>, numbers: map<nat, nat>)

  /** A known block other than genesis builds on a known block one lower, and proves some work. */
  ghost predicate Attached(c: Chain, h: nat) {
    && h in c.headers && c.headers[h].prev in c.headers && c.headers[h].work > 0
    && c.headers.Keys == c.numbers.Keys && c.numbers[h] == c.numbers[c.headers[h].prev] + 1
  }

  ghost predicate Tree(c: Chain) {
    && c.headers.Keys == c.numbers.Keys && c.genesis.hash in c.headers
    && c.headers[c.genesis.hash] == c.genesis && c.numbers[c.genesis.hash] == 0
    && forall h {:trigger Attached(c, h)} :: h in c.headers && h != c.genesis.hash ==> Attached(c, h)
  }

  /** The sum of the header works from a block back to genesis. */
  ghost function ChainWork(c: Chain, h: nat): nat
    requires Tree(c) && h in c.headers
    decreases c.numbers[h]
  {
    if h == c.genesis.hash then c.genesis.work else
      assert Attached(c, h);
      c.headers[h].work + ChainWork(c, c.headers[h].prev)
  }

  ghost predicate Extends(c: Chain, b: Header) {
    Tree(c) && b.hash !in c.headers && b.prev in c.headers && b.work > 0
  }

  ghost function Grown(c: Chain, b: Header): (c': Chain)
    requires Extends(c, b)
    ensures Tree(c')
  {
    var c' := Chain(c.genesis, c.headers[b.hash := b], c.numbers[b.hash := c.numbers[b.prev] + 1]);
    TreeGrows(c, b, c');
    c'
  }

  lemma {:induction false} TreeGrows(c: Chain, b: Header, c': Chain)
    requires Extends(c, b) && c' == Chain(c.genesis, c.headers[b.hash := b], c.numbers[b.hash := c.numbers[b.prev] + 1])
    ensures Tree(c')
  {
    forall h | h in c'.headers && h != c'.genesis.hash ensures Attached(c', h) {
      if h != b.hash { assert Attached(c, h); }
    }
  }

  /** One more block changes nobody else's work. */
  lemma {:induction false} ChainWorkStays(c: Chain, b: Header, h: nat)
    requires Extends(c, b) && h in c.headers
    ensures ChainWork(Grown(c, b), h) == ChainWork(c, h)
    decreases c.numbers[h]
  {
    if h != c.genesis.hash {
      assert Attached(c, h) && Attached(Grown(c, b), h);
      ChainWorkStays(c, b, c.headers[h].prev);
    }
  }

  lemma {:induction false} NewWork(c: Chain, b: Header)
    requires Extends(c, b)
    ensures ChainWork(Grown(c, b), b.hash) == ChainWork(c, b.prev) + b.work
  {
    assert Attached(Grown(c, b), b.hash);
    ChainWorkStays(c, b, b.prev);
  }

  lemma {:induction false} GenesisHasLeastWork(c: Chain, h: nat)
    requires Tree(c) && h in c.headers
    ensures ChainWork(c, h) >= c.genesis.work && (h != c.genesis.hash ==> ChainWork(c, h) > c.genesis.work)
    decreases c.numbers[h]
  {
    if h != c.genesis.hash {
      assert Attached(c, h);
      GenesisHasLeastWork(c, c.headers[h].prev);
    }
  }

  /** The store holds the cumulative work of every block but genesis. */
  ghost predicate Recorded(c: Chain, works: map<nat, nat>)
    requires Tree(c)
  {
    works.Keys == c.headers.Keys - {c.genesis.hash} && forall h :: h in works ==> works[h] == ChainWork(c, h)
  }

  lemma {:induction false} RecordedGrows(c: Chain, works: map<nat, nat>, b: Header)
    requires Extends(c, b) && Recorded(c, works)
    ensures Recorded(Grown(c, b), works[b.hash := ChainWork(c, b.prev) + b.work])
  {
    NewWork(c, b);
    forall h | h in works ensures works[h] == ChainWork(Grown(c, b), h) {
      ChainWorkStays(c, b, h);
    }
  }

  /** `order` lists the known blocks as they were imported, and `order[k]` is the first among those of most work. */
  ghost predicate Ranked(c: Chain, order: seq<nat>, k: nat)
    requires Tree(c)
  {
    && Distinct(order) && Elements(order) == c.headers.Keys && k < |order|
    && (forall i :: 0 <= i < |order| ==> order[i] in c.headers)
    && (forall i :: 0 <= i < k ==> ChainWork(c, order[i]) < ChainWork(c, order[k]))
    && (forall i :: 0 <= i < |order| ==> ChainWork(c, order[i]) <= ChainWork(c, order[k]))
  }

  lemma {:induction false} RankedGrows(c: Chain, order: seq<nat>, k: nat, b: Header)
    requires Extends(c, b) && Ranked(c, order, k)
    ensures Ranked(Grown(c, b), order + [b.hash], if ChainWork(c, b.prev) + b.work > ChainWork(c, order[k]) then |order| else k)
  {
    var c', order' := Grown(c, b), order + [b.hash];
    assert c'.headers == c.headers[b.hash := b];
    hide Elements, Distinct, ChainWork, Tree, Grown;
    NewWork(c, b);
    DistinctPush(order, b.hash);
    forall i | 0 <= i < |order| ensures order'[i] in c'.headers && ChainWork(c', order'[i]) == ChainWork(c, order[i]) {
      ChainWorkStays(c, b, order[i]);
    }
  }

  /** As soon as anything but genesis is known, genesis is not the best block. */
  lemma {:induction false} BestIsRecorded(c: Chain, order: seq<nat>, k: nat, h: nat)
    requires Tree(c) && Ranked(c, order, k) && h in c.headers && h != order[k]
    ensures order[k] != c.genesis.hash
  {
    GenesisHasLeastWork(c, h);
    assert h in Elements(order);
    var i :| 0 <= i < |order| && order[i] == h;
    assert ChainWork(c, order[i]) <= ChainWork(c, order[k]);
  }

  /** Whatever the import order, the best block of the same tree carries the same work. */
  lemma {:induction false} BestWorkIsOrderFree(c: Chain, order: seq<nat>, k: nat, order': seq<nat>, k': nat)
    requires Tree(c) && Ranked(c, order, k) && Ranked(c, order', k')
    ensures ChainWork(c, order[k]) == ChainWork(c, order'[k'])
  {
    assert order[k] in Elements(order') && order'[k'] in Elements(order);
    var i :| 0 <= i < |order'| && order'[i] == order[k];
    var j :| 0 <= j < |order| && order[j] == order'[k'];
    assert ChainWork(c, order'[i]) <= ChainWork(c, order'[k']);
    assert ChainWork(c, order[j]) <= ChainWork(c, order[k]);
  }

  datatype StoreError = WorkNotFound(hash: nat)

  function LoadChainWork(works: map<nat, nat>, h: nat): Result<nat, StoreError> {
    if h in works then Ok(works[h]) else Err(WorkNotFound(h))
  }

  /** The total work of a new block, and whether it becomes the best. */
  function CalculateChainWorkAndForkChoice(genesis: Header, works: map<nat, nat>, best: nat, b: Header, number: nat)
    : Result<(nat, bool), StoreError>
  {
    var parentWork := if number == 1 then Ok(genesis.work) else LoadChainWork(works, b.prev);
    if parentWork.Err? then Err(parentWork.error) else
      var totalWork := parentWork.value + b.work;
      var lastBestWork := if best == b.prev then parentWork else LoadChainWork(works, best);
      if lastBestWork.Err? then Err(lastBestWork.error) else Ok((totalWork, totalWork > lastBestWork.value))
  }

  /** No lookup fails, and the outcome compares true cumulative works. */
  lemma {:induction false} LookupsNeverFail(c: Chain, works: map<nat, nat>, order: seq<nat>, k: nat, b: Header)
    requires Tree(c) && Recorded(c, works) && Ranked(c, order, k) && b.prev in c.headers
    ensures var total := ChainWork(c, b.prev) + b.work;
            CalculateChainWorkAndForkChoice(c.genesis, works, order[k], b, c.numbers[b.prev] + 1)
            == Ok((total, total > ChainWork(c, order[k])))
  {
    if b.prev != c.genesis.hash { assert Attached(c, b.prev); }
    if order[k] != b.prev { BestIsRecorded(c, order, k, b.prev); }
  }

  ghost predicate Sound(c: Chain, works: map<nat, nat>, order: seq<nat>, k: nat, best: nat) {
    Tree(c) && Recorded(c, works) && Ranked(c, order, k) && order[k] == best
  }

  lemma {:induction false} SoundGrows(c: Chain, works: map<nat, nat>, order: seq<nat>, k: nat, best: nat, b: Header,
                                      choice: (nat, bool))
    requires Sound(c, works, order, k, best) && Extends(c, b)
    requires CalculateChainWorkAndForkChoice(c.genesis, works, best, b, c.numbers[b.prev] + 1) == Ok(choice)
    ensures Sound(Grown(c, b), works[b.hash := choice.0], order + [b.hash],
                  if choice.1 then |order| else k, if choice.1 then b.hash else best)
  {
    hide Recorded, CalculateChainWorkAndForkChoice, ChainWork;
    LookupsNeverFail(c, works, order, k, b);
    RecordedGrows(c, works, b);
    RankedGrows(c, order, k, b);
  }

  lemma {:induction false} KnownIsTree(c: Chain, works: map<nat, nat>, order: seq<nat>, k: nat, best: nat)
    requires Sound(c, works, order, k, best)
    ensures Tree(c) && c.headers.Keys == c.numbers.Keys
  {
  }

  lemma {:induction false} ChoiceIsMade(c: Chain, works: map<nat, nat>, order: seq<nat>, k: nat, best: nat, b: Header)
    requires Sound(c, works, order, k, best) && Extends(c, b)
    ensures CalculateChainWorkAndForkChoice(c.genesis, works, best, b, c.numbers[b.prev] + 1).Ok?
  {
    LookupsNeverFail(c, works, order, k, b);
  }

  lemma {:induction false} MostWork(c: Chain, works: map<nat, nat>, order: seq<nat>, k: nat, best: nat)
    requires Sound(c, works, order, k, best)
    ensures forall h :: h in c.headers ==> ChainWork(c, h) <= ChainWork(c, best)
  {
  }

  // ----- Two orders of the same blocks -----

  /** The known headers after these imports: a block is added when its hash is new, its parent is known and the verifier
      accepts it. */
  function Joined(known: map<nat, Header>, blocks: seq<Header>, accepted: Header -> bool): map<nat, Header> {
    if blocks == [] then known else
      var before, b := Joined(known, blocks[..|blocks| - 1], accepted), blocks[|blocks| - 1];
      if b.hash in before || b.prev !in before || !accepted(b) then before else before[b.hash := b]
  }

  ghost predicate DistinctHashes(blocks: seq<Header>) {
    forall i, j :: 0 <= i < j < |blocks| ==> blocks[i].hash != blocks[j].hash
  }

  ghost predicate ParentFirst(genesis: Header, blocks: seq<Header>) {
    forall i :: 0 <= i < |blocks| ==> blocks[i].prev == genesis.hash || ComesBefore(blocks, i, blocks[i].prev)
  }

  ghost predicate ComesBefore(blocks: seq<Header>, i: nat, hash: nat)
    requires i <= |blocks|
  {
    exists m :: 0 <= m < i && blocks[m].hash == hash
  }

  /** A block that was added was added at its place in the list. */
  lemma {:induction false} AddedAt(known: map<nat, Header>, blocks: seq<Header>, accepted: Header -> bool, hash: nat)
    requires hash in Joined(known, blocks, accepted)
    ensures hash in known ||
            exists m :: 0 <= m < |blocks| && blocks[m].hash == hash && hash in Joined(known, blocks[..m + 1], accepted)
  {
    if blocks != [] {
      var n := |blocks| - 1;
      if hash in Joined(known, blocks[..n], accepted) {
        AddedAt(known, blocks[..n], accepted, hash);
        if hash !in known {
          var m :| 0 <= m < n && blocks[..n][m].hash == hash && hash in Joined(known, blocks[..n][..m + 1], accepted);
          assert blocks[..n][..m + 1] == blocks[..m + 1];
          assert blocks[m].hash == hash;
        }
      } else {
        assert blocks[..n + 1] == blocks && blocks[n].hash == hash;
      }
    }
  }

  lemma {:induction false} JoinedGrows(known: map<nat, Header>, blocks: seq<Header>, accepted: Header -> bool, m: nat,
                                       hash: nat)
    requires m <= |blocks| && hash in Joined(known, blocks[..m], accepted)
    ensures hash in Joined(known, blocks, accepted)
    ensures Joined(known, blocks, accepted)[hash] == Joined(known, blocks[..m], accepted)[hash]
  {
    if m == |blocks| {
      assert blocks[..m] == blocks;
    } else {
      var n := |blocks| - 1;
      assert blocks[..n][..m] == blocks[..m];
      JoinedGrows(known, blocks[..n], accepted, m, hash);
    }
  }

  lemma {:induction false} GenesisStays(genesis: Header, blocks: seq<Header>, accepted: Header -> bool)
    ensures var after := Joined(map[genesis.hash := genesis], blocks, accepted);
            genesis.hash in after && after[genesis.hash] == genesis
  {
    assert blocks[..0] == [];
    JoinedGrows(map[genesis.hash := genesis], blocks, accepted, 0, genesis.hash);
  }

  /** In a parent-first list the parent of a block is known when the block comes, if it is ever known. */
  lemma {:induction false} ParentInTime(genesis: Header, blocks: seq<Header>, accepted: Header -> bool, j: nat)
    requires DistinctHashes(blocks) && ParentFirst(genesis, blocks) && j < |blocks|
    requires blocks[j].prev in Joined(map[genesis.hash := genesis], blocks, accepted)
    ensures blocks[j].prev in Joined(map[genesis.hash := genesis], blocks[..j], accepted)
  {
    hide Joined;
    var known, hash := map[genesis.hash := genesis], blocks[j].prev;
    if hash == genesis.hash {
      GenesisStays(genesis, blocks[..j], accepted);
    } else {
      AddedAt(known, blocks, accepted, hash);
      var m :| 0 <= m < |blocks| && blocks[m].hash == hash && hash in Joined(known, blocks[..m + 1], accepted);
      assert ComesBefore(blocks, j, hash);
      assert m < j;
      assert blocks[..j][..m + 1] == blocks[..m + 1];
      JoinedGrows(known, blocks[..j], accepted, m + 1, hash);
    }
  }

  /** A block in the list joins when its parent does and it is accepted. */
  lemma {:induction false} ChildJoins(genesis: Header, blocks: seq<Header>, accepted: Header -> bool, b: Header)
    requires DistinctHashes(blocks) && ParentFirst(genesis, blocks) && b in blocks && accepted(b)
    requires b.hash != genesis.hash
    requires b.prev in Joined(map[genesis.hash := genesis], blocks, accepted)
    ensures b.hash in Joined(map[genesis.hash := genesis], blocks, accepted)
    ensures Joined(map[genesis.hash := genesis], blocks, accepted)[b.hash] == b
  {
    var known := map[genesis.hash := genesis];
    var j :| 0 <= j < |blocks| && blocks[j] == b;
    ParentInTime(genesis, blocks, accepted, j);
    NotYet(known, blocks, accepted, j);
    assert blocks[..j + 1][..j] == blocks[..j];
    JoinedGrows(known, blocks, accepted, j + 1, b.hash);
  }

  lemma {:induction false} NotYet(known: map<nat, Header>, blocks: seq<Header>, accepted: Header -> bool, j: nat)
    requires DistinctHashes(blocks) && j < |blocks| && blocks[j].hash !in known
    ensures blocks[j].hash !in Joined(known, blocks[..j], accepted)
  {
    if blocks[j].hash in Joined(known, blocks[..j], accepted) {
      AddedAt(known, blocks[..j], accepted, blocks[j].hash);
      assert false;
    }
  }

  ghost predicate Within(a: map<nat, Header>, b: map<nat, Header>) {
    forall h :: h in a ==> h in b && b[h] == a[h]
  }

  lemma {:induction false} JoinedWithin(genesis: Header, a: seq<Header>, b: seq<Header>, accepted: Header -> bool)
    requires DistinctHashes(b) && ParentFirst(genesis, b) && forall x :: x in a ==> x in b
    ensures Within(Joined(map[genesis.hash := genesis], a, accepted), Joined(map[genesis.hash := genesis], b, accepted))
  {
    var known := map[genesis.hash := genesis];
    if a == [] {
      GenesisStays(genesis, b, accepted);
    } else {
      var n := |a| - 1;
      var before := Joined(known, a[..n], accepted);
      JoinedWithin(genesis, a[..n], b, accepted);
      GenesisStays(genesis, a[..n], accepted);
      if a[n].hash !in before && a[n].prev in before && accepted(a[n]) {
        ChildJoins(genesis, b, accepted, a[n]);
      }
    }
  }

  /** The same blocks in two parent-first orders leave the same headers. */
  lemma {:induction false} JoinedIsOrderFree(genesis: Header, a: seq<Header>, b: seq<Header>, accepted: Header -> bool)
    requires DistinctHashes(a) && DistinctHashes(b) && ParentFirst(genesis, a) && ParentFirst(genesis, b)
    requires forall x :: x in a <==> x in b
    ensures Joined(map[genesis.hash := genesis], a, accepted) == Joined(map[genesis.hash := genesis], b, accepted)
  {
    JoinedWithin(genesis, a, b, accepted);
    JoinedWithin(genesis, b, a, accepted);
  }

  /** The headers determine the heights. */
  lemma {:induction false} NumbersAgree(c: Chain, c': Chain, h: nat)
    requires Tree(c) && Tree(c') && c.genesis == c'.genesis && c.headers == c'.headers && h in c.headers
    ensures c.numbers[h] == c'.numbers[h]
    decreases c.numbers[h]
  {
    if h != c.genesis.hash {
      assert Attached(c, h) && Attached(c', h);
      NumbersAgree(c, c', c.headers[h].prev);
    }
  }

  lemma {:induction false} HeadersDecide(c: Chain, c': Chain)
    requires Tree(c) && Tree(c') && c.genesis == c'.genesis && c.headers == c'.headers
    ensures c == c'
  {
    forall h | h in c.headers ensures c.numbers[h] == c'.numbers[h] { NumbersAgree(c, c', h); }
    assert c.numbers == c'.numbers;
  }

  datatype ImportStatus = Imported(number: nat) | AlreadyInChain(number: nat) | UnknownParent | Refused

  class Importer {
    const genesis: Header
    var headers: map<nat, Header>
    var numbers: map<nat, nat>
    /** Cumulative work by block hash. Genesis has no record. */
    var works: map<nat, nat>
    var best: nat
    /** Known blocks in the order of their import, and the place of the best one. */
    ghost var order: seq<nat>
    ghost var bestAt: nat

    ghost function Known(): Chain
      reads this
    {
      Chain(genesis, headers, numbers)
    }

    ghost predicate Valid()
      reads this
    {
      Sound(Known(), works, order, bestAt, best)
    }

    constructor (genesis: Header)
      ensures Valid() && this.genesis == genesis && headers == map[genesis.hash := genesis] && best == genesis.hash
    {
      this.genesis := genesis;
      headers, numbers, works := map[genesis.hash := genesis], map[genesis.hash := 0], map[];
      best, order, bestAt := genesis.hash, [genesis.hash], 0;
    }

    /** Stores a block on a known parent together with its work, and makes it the best if it has more work. */
    method StoreBlock(b: Header, number: nat, choice: (nat, bool))
      requires Valid() && Extends(Known(), b) && number == numbers[b.prev] + 1
      requires CalculateChainWorkAndForkChoice(genesis, works, best, b, number) == Ok(choice)
      modifies this
      ensures Valid() && Known() == Grown(old(Known()), b) && order == old(order) + [b.hash]
    {
      hide Sound, CalculateChainWorkAndForkChoice, Tree;
      SoundGrows(Known(), works, order, bestAt, best, b, choice);
      headers, numbers, works := headers[b.hash := b], numbers[b.hash := number], works[b.hash := choice.0];
      order := order + [b.hash];
      if choice.1 { best, bestAt := b.hash, |order| - 1; }
    }

    /** Imports a block that the verifier accepts. Afterwards the best block is again the first imported among the
        blocks of most work. */
    method ImportBlock(b: Header, accepted: bool) returns (r: Result<ImportStatus, StoreError>)
      requires Valid() && b.work > 0
      modifies this
      ensures Valid()
      ensures r == Ok(if b.hash in old(headers) then AlreadyInChain(old(numbers)[b.hash])
                      else if b.prev !in old(headers) then UnknownParent
                      else if !accepted then Refused
                      else Imported(old(numbers)[b.prev] + 1))
      ensures headers == if r.value.Imported? then old(headers)[b.hash := b] else old(headers)
      ensures order == if r.value.Imported? then old(order) + [b.hash] else old(order)
    {
      KnownIsTree(Known(), works, order, bestAt, best);
      hide Sound, CalculateChainWorkAndForkChoice, Tree;
      if b.hash in headers { return Ok(AlreadyInChain(numbers[b.hash])); }
      if b.prev !in headers { return Ok(UnknownParent); }
      if !accepted { return Ok(Refused); }
      var number := numbers[b.prev] + 1;
      var choice := CalculateChainWorkAndForkChoice(genesis, works, best, b, number);
      ChoiceIsMade(Known(), works, order, bestAt, best, b);
      StoreBlock(b, number, choice.value);
      return Ok(Imported(number));
    }

    /** Every order of imports, orphans and repeats included: the best block has the most work of all known blocks. */
    method ImportAll(blocks: seq<Header>, accepted: Header -> bool)
      requires Valid() && forall i :: 0 <= i < |blocks| ==> blocks[i].work > 0
      modifies this
      ensures Valid() && forall h :: h in headers ==> ChainWork(Known(), h) <= ChainWork(Known(), best)
      ensures headers == Joined(old(headers), blocks, accepted)
    {
      for i := 0 to |blocks|
        invariant Valid() && headers == Joined(old(headers), blocks[..i], accepted)
      {
        hide Sound;
        assert blocks[..i + 1][..i] == blocks[..i];
        var r := ImportBlock(blocks[i], accepted(blocks[i]));
      }
      assert blocks[..|blocks|] == blocks;
      MostWork(Known(), works, order, bestAt, best);
    }
  }

  /** Two nodes that see the same blocks in two orders, each block after its parent, end with the same block tree and
      with best blocks of the same work. */
  method ImportBothWays(genesis: Header, a: seq<Header>, b: seq<Header>, accepted: Header -> bool)
    returns (x: Importer, y: Importer)
    requires DistinctHashes(a) && DistinctHashes(b) && ParentFirst(genesis, a) && ParentFirst(genesis, b)
    requires (forall h :: h in a <==> h in b) && forall i :: 0 <= i < |a| ==> a[i].work > 0
    ensures x.Valid() && y.Valid() && x.Known() == y.Known()
    ensures Tree(x.Known()) && x.best in x.headers && y.best in x.headers
    ensures ChainWork(x.Known(), x.best) == ChainWork(x.Known(), y.best)
  {
    hide *;
    forall i | 0 <= i < |b| ensures b[i].work > 0 { assert b[i] in a; }
    x := new Importer(genesis);
    x.ImportAll(a, accepted);
    y := new Importer(genesis);
    y.ImportAll(b, accepted);
    JoinedIsOrderFree(genesis, a, b, accepted);
    SameOutcome(x, y);
  }

  lemma {:induction false} SameOutcome(x: Importer, y: Importer)
    requires x.Valid() && y.Valid() && x.genesis == y.genesis && x.headers == y.headers
    ensures x.Known() == y.Known() && Tree(x.Known()) && x.best in x.headers && y.best in x.headers
    ensures ChainWork(x.Known(), x.best) == ChainWork(x.Known(), y.best)
  {
    HeadersDecide(x.Known(), y.Known());
    BestWorkIsOrderFree(x.Known(), x.order, x.bestAt, y.order, y.bestAt);
  }
}
