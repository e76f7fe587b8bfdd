/** Totals of a quantity over a set of live entries. */
module MempoolSums {
  import opened Sums
  import opened MempoolArena

  function Weight(e: Entry): nat { e.tx.weight }
  function BaseFee(e: Entry): nat { e.fee }
  function ModifiedFee(e: Entry): nat { e.modifiedFee }

  function Sigops(e: Entry): nat { e.sigopCost }

  ghost function Amounts(entries: Entries, s: set<Id>, f: Entry -> nat): map<Id, int> {
    map i | i in entries && i in s :: f(entries[i])
  }

  ghost function SumOver(entries: Entries, s: set<Id>, f: Entry -> nat): (r: int)
  {
    MapSum(Amounts(entries, s, f))
  }

  lemma {:induction false} SumEmpty(entries: Entries, f: Entry -> nat)
    ensures SumOver(entries, {}, f) == 0
  {
  }

  lemma {:induction false} SumAdd(entries: Entries, s: set<Id>, f: Entry -> nat, i: Id)
    requires i in entries && i !in s
    ensures SumOver(entries, s + {i}, f) == SumOver(entries, s, f) + f(entries[i])
  {
    MapSumTake(Amounts(entries, s + {i}, f), i);
    assert Amounts(entries, s + {i}, f) - {i} == Amounts(entries, s, f);
  }

  lemma {:induction false} SumSkips(entries: Entries, s: set<Id>, f: Entry -> nat, i: Id)
    requires i !in entries
    ensures SumOver(entries, s + {i}, f) == SumOver(entries, s, f)
  {
    assert Amounts(entries, s + {i}, f) == Amounts(entries, s, f);
  }

  lemma {:induction false} SumLocal(entries: Entries, entries': Entries, s: set<Id>, f: Entry -> nat)
    requires s <= entries.Keys && s <= entries'.Keys && forall i :: i in s ==> f(entries[i]) == f(entries'[i])
    ensures SumOver(entries, s, f) == SumOver(entries', s, f)
  {
    assert Amounts(entries, s, f) == Amounts(entries', s, f);
  }

  lemma {:induction false} SumMonotone(entries: Entries, s: set<Id>, t: set<Id>, f: Entry -> nat)
    requires s <= t
    ensures 0 <= SumOver(entries, s, f) <= SumOver(entries, t, f)
  {
    var all := Amounts(entries, t, f);
    MapSumSplit(all, s);
    assert (map k | k in all && k in s :: all[k]) == Amounts(entries, s, f);
    MapSumNonNegative(all - s);
    MapSumNonNegative(Amounts(entries, s, f));
  }

  ghost function Total(entries: Entries, f: Entry -> nat): int {
    SumOver(entries, entries.Keys, f)
  }

  lemma {:induction false} TotalPut(entries: Entries, f: Entry -> nat, id: Id, e: Entry)
    requires id !in entries
    ensures Total(entries[id := e], f) == Total(entries, f) + f(e)
  {
    hide SumOver;
    var after := entries[id := e];
    SumAdd(after, entries.Keys, f, id);
    assert after.Keys == entries.Keys + {id};
    SumLocal(entries, after, entries.Keys, f);
  }

  lemma {:induction false} TotalDrop(entries: Entries, f: Entry -> nat, id: Id)
    requires id in entries
    ensures Total(entries - {id}, f) == Total(entries, f) - f(entries[id]) && Total(entries - {id}, f) >= 0
  {
    hide SumOver;
    var rest := entries.Keys - {id};
    SumAdd(entries, rest, f, id);
    assert rest + {id} == entries.Keys && (entries - {id}).Keys == rest;
    SumLocal(entries, entries - {id}, rest, f);
    SumMonotone(entries, rest, rest, f);
  }

  lemma {:induction false} TotalSame(entries: Entries, entries': Entries, f: Entry -> nat)
    requires entries.Keys == entries'.Keys && forall i :: i in entries ==> f(entries[i]) == f(entries'[i])
    ensures Total(entries, f) == Total(entries', f)
  {
    SumLocal(entries, entries', entries.Keys, f);
  }
}
