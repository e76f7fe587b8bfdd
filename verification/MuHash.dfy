/** MuHash: a set hash as a fraction modulo a prime. */
module MuHash {
  import opened Residues

  /** The number that `digest` hashes: the numerator times the inverse of the denominator. */
  function Value(p: nat, numerator: nat, denominator: nat): nat
    requires p >= 2
  {
    (numerator * (Pow(denominator, p - 2) % p)) % p
  }

  lemma {:induction false} PowerIsInverse(p: nat, d: nat)
    requires IsPrime(p) && d % p != 0
    ensures (d * (Pow(d, p - 2) % p)) % p == 1
  {
    Fermat(p, d);
    assert Pow(d, p - 1) == d * Pow(d, p - 2);
    hide Pow;
    MulModRight(d, Pow(d, p - 2), p);
  }

  lemma {:induction false} MulModRight(a: nat, b: nat, p: nat)
    requires p > 0
    ensures (a * (b % p)) % p == (a * b) % p
  {
    ModTwice(b, p);
    MulCong(b % p, b, a, p);
  }

  lemma {:induction false} ModTwice(x: nat, p: nat)
    requires p > 0
    ensures x % p % p == x % p
  {
  }

  /** One step of an accumulator. */
  function Step(p: nat, acc: nat, x: nat): nat
    requires p > 0
  {
    acc * x % p
  }

  lemma {:induction false} ValueTimesDenominator(p: nat, n: nat, d: nat)
    requires IsPrime(p) && d % p != 0
    ensures (Value(p, n, d) * d) % p == n % p
  {
    var inverse := Pow(d, p - 2) % p;
    PowerIsInverse(p, d);
    MulMod(n * inverse, d, p);
    assert n * inverse * d == (d * inverse) * n;
    ModUnique(p, 0, 1, 1);
    MulCong(d * inverse, 1, n, p);
  }

  lemma {:induction false} ValueIsReduced(p: nat, n: nat, d: nat)
    requires p >= 2
    ensures Value(p, n, d) < p && Value(p, n, d) % p == Value(p, n, d)
  {
    ModUnique(p, 0, Value(p, n, d), Value(p, n, d));
  }

  /** Two fractions have the same value exactly when they agree crosswise. */
  lemma {:induction false} CrossMultiply(p: nat, n: nat, d: nat, d': nat)
    requires IsPrime(p) && d % p != 0
    ensures (Value(p, n, d) * (d * d')) % p == (n * d') % p
  {
    var v := Value(p, n, d);
    ValueTimesDenominator(p, n, d);
    hide *;
    MulCong(v * d, n, d', p);
    assert v * d * d' == v * (d * d');
  }

  lemma {:induction false} SameFraction(p: nat, n: nat, d: nat, n': nat, d': nat)
    requires IsPrime(p) && d % p != 0 && d' % p != 0
    ensures Value(p, n, d) == Value(p, n', d') <==> (n * d') % p == (n' * d) % p
  {
    var v, v' := Value(p, n, d), Value(p, n', d');
    CrossMultiply(p, n, d, d');
    CrossMultiply(p, n', d', d);
    Commute(d, d');
    hide *;
    if (n * d') % p == (n' * d) % p {
      if (d * d') % p == 0 { Euclid(p, d, d'); }
      ValueIsReduced(p, n, d);
      ValueIsReduced(p, n', d');
      Cancel(p, v, v', d * d');
    }
  }

  lemma {:induction false} Commute(a: int, b: int)
    ensures a * b == b * a
  {
  }

  lemma {:induction false} PowerOfZero(p: nat, d: nat, e: nat)
    requires p >= 2 && d % p == 0 && e > 0
    ensures Pow(d, e) % p == 0
  {
    MulMod(d, Pow(d, e - 1), p);
  }

  /** A denominator that vanishes makes the value vanish (for an odd prime). */
  lemma {:induction false} ZeroDenominator(p: nat, n: nat, d: nat)
    requires p >= 3 && d % p == 0
    ensures Value(p, n, d) == 0
  {
    PowerOfZero(p, d, p - 2);
  }

  // ----- Runs -----

  datatype Op = Insert(x: nat) | Remove(x: nat)

  function Inserted(ops: seq<Op>): multiset<nat> {
    if ops == [] then multiset{} else
      var last := ops[|ops| - 1];
      Inserted(ops[..|ops| - 1]) + if last.Insert? then multiset{last.x} else multiset{}
  }

  function Removed(ops: seq<Op>): multiset<nat> {
    if ops == [] then multiset{} else
      var last := ops[|ops| - 1];
      Removed(ops[..|ops| - 1]) + if last.Remove? then multiset{last.x} else multiset{}
  }

  /** What a run of operations leaves in the two accumulators. */
  ghost predicate Accumulates(p: nat, ops: seq<Op>, numerator: nat, denominator: nat)
    requires p > 0
  {
    numerator % p == Product(Inserted(ops)) % p && denominator % p == Product(Removed(ops)) % p
  }

  lemma {:induction false} StepProduct(p: nat, acc: nat, m: multiset<nat>, x: nat)
    requires p > 0 && acc % p == Product(m) % p
    ensures Step(p, acc, x) % p == Product(m + multiset{x}) % p
  {
    hide Product;
    ProductPut(m, x);
    MulCong(acc, Product(m), x, p);
    ModTwice(acc * x, p);
  }

  lemma {:induction false} OpsPush(ops: seq<Op>, op: Op)
    ensures Inserted(ops + [op]) == if op.Insert? then Inserted(ops) + multiset{op.x} else Inserted(ops)
    ensures Removed(ops + [op]) == if op.Remove? then Removed(ops) + multiset{op.x} else Removed(ops)
  {
  }

  lemma {:induction false} AccumulatePush(p: nat, ops: seq<Op>, n: nat, d: nat, op: Op)
    requires p > 0 && Accumulates(p, ops, n, d)
    ensures Accumulates(p, ops + [op], if op.Insert? then Step(p, n, op.x) else n, if op.Remove? then Step(p, d, op.x) else d)
  {
    hide Product, Inserted, Removed, Step;
    OpsPush(ops, op);
    StepProduct(p, n, Inserted(ops), op.x);
    StepProduct(p, d, Removed(ops), op.x);
  }

  ghost predicate Invertible(p: nat, m: multiset<nat>)
    requires p > 0
  {
    forall x :: x in m ==> x % p != 0
  }

  /** The value depends only on the multiset difference of what was inserted and what was removed: not on the order of
      the operations, and not on anything that was both inserted and removed. */
  lemma {:induction false} ValueIsMultisetDifference(p: nat, a: seq<Op>, na: nat, da: nat, b: seq<Op>, nb: nat, db: nat)
    requires IsPrime(p) && Accumulates(p, a, na, da) && Accumulates(p, b, nb, db)
    requires Invertible(p, Removed(a)) && Invertible(p, Removed(b))
    requires Inserted(a) + Removed(b) == Inserted(b) + Removed(a)
    ensures Value(p, na, da) == Value(p, nb, db)
  {
    hide Value, Inserted, Removed, Product;
    ProductNonZero(p, Removed(a));
    ProductNonZero(p, Removed(b));
    ProductUnion(Inserted(a), Removed(b));
    ProductUnion(Inserted(b), Removed(a));
    CrossProducts(p, na, db, Product(Inserted(a)), Product(Removed(b)));
    CrossProducts(p, nb, da, Product(Inserted(b)), Product(Removed(a)));
    SameFraction(p, na, da, nb, db);
  }

  lemma {:induction false} CrossProducts(p: nat, x: nat, y: nat, x': nat, y': nat)
    requires p > 0 && x % p == x' % p && y % p == y' % p
    ensures (x * y) % p == (x' * y') % p
  {
    MulCong(x, x', y, p);
    MulCong(y, y', x', p);
  }

  lemma {:induction false} InvertibleCancels(p: nat, n: nat, d: nat, x: nat)
    requires IsPrime(p) && d % p != 0 && x % p != 0
    ensures Value(p, Step(p, n, x), Step(p, d, x)) == Value(p, n, d)
  {
    hide Value;
    ModTwice(n * x, p);
    ModTwice(d * x, p);
    if (d * x) % p == 0 { Euclid(p, d, x); }
    MulCong(Step(p, n, x), n * x, d, p);
    MulCong(Step(p, d, x), d * x, n, p);
    Regroup(n, x, d);
    SameFraction(p, Step(p, n, x), Step(p, d, x), n, d);
  }

  lemma {:induction false} Regroup(n: nat, x: nat, d: nat)
    ensures n * x * d == n * (d * x)
  {
  }

  lemma {:induction false} ZeroDestroys(p: nat, n: nat, d: nat, x: nat)
    requires p >= 3 && x % p == 0
    ensures Value(p, Step(p, n, x), Step(p, d, x)) == 0
  {
    MulCong(x, 0, d, p);
    ModTwice(d * x, p);
    hide Value;
    ZeroDenominator(p, Step(p, n, x), Step(p, d, x));
  }

  lemma {:induction false} ZeroStays(p: nat, d: nat, x: nat)
    requires p > 0 && d % p == 0
    ensures Step(p, d, x) % p == 0
  {
    MulCong(d, 0, x, p);
    ModTwice(d * x, p);
  }

  /** Inserting and removing an element cancels exactly when the element is invertible, or there was nothing to lose. */
  lemma {:induction false} CancelsIfInvertible(p: nat, n: nat, d: nat, x: nat)
    requires IsPrime(p) && p >= 3
    ensures Value(p, Step(p, n, x), Step(p, d, x)) == Value(p, n, d) <==> x % p != 0 || Value(p, n, d) == 0
  {
    hide Value, Step;
    if x % p == 0 {
      ZeroDestroys(p, n, d, x);
    } else if d % p == 0 {
      ZeroDenominator(p, n, d);
      ZeroStays(p, d, x);
      ZeroDenominator(p, Step(p, n, x), Step(p, d, x));
    } else {
      InvertibleCancels(p, n, d, x);
    }
  }

  /** The two accumulators. `toNum` stands for hashing data into a number. */
  class MuHash3072 {
    const modulus: nat
    const toNum: seq<nat> -> nat
    var numerator: nat
    var denominator: nat
    ghost var ops: seq<Op>

    ghost predicate Valid()
      reads this
    {
      modulus >= 2 && Accumulates(modulus, ops, numerator, denominator)
    }

    constructor (modulus: nat, toNum: seq<nat> -> nat)
      requires modulus >= 2
      ensures Valid() && ops == [] && this.modulus == modulus && this.toNum == toNum
    {
      this.modulus, this.toNum := modulus, toNum;
      numerator, denominator, ops := 1, 1, [];
    }

    method InsertData(data: seq<nat>)
      requires Valid()
      modifies this
      ensures Valid() && ops == old(ops) + [Insert(toNum(data))]
    {
      hide Accumulates;
      AccumulatePush(modulus, ops, numerator, denominator, Insert(toNum(data)));
      ghost var n := Step(modulus, numerator, toNum(data));
      numerator := numerator * toNum(data);
      numerator := numerator % modulus;
      assert numerator == n;
      ops := ops + [Insert(toNum(data))];
    }

    method RemoveData(data: seq<nat>)
      requires Valid()
      modifies this
      ensures Valid() && ops == old(ops) + [Remove(toNum(data))]
    {
      hide Accumulates;
      AccumulatePush(modulus, ops, numerator, denominator, Remove(toNum(data)));
      ghost var d := Step(modulus, denominator, toNum(data));
      denominator := denominator * toNum(data);
      denominator := denominator % modulus;
      assert denominator == d;
      ops := ops + [Remove(toNum(data))];
    }

    /** The value that is hashed does not change if the operations are reordered or cancelled out. */
    method DigestValue() returns (v: nat)
      requires Valid()
      ensures v == Value(modulus, numerator, denominator)
      ensures IsPrime(modulus) && Invertible(modulus, Removed(ops)) ==>
                (v * Product(Removed(ops))) % modulus == Product(Inserted(ops)) % modulus
    {
      var inverse := Pow(denominator, modulus - 2) % modulus;
      v := (numerator * inverse) % modulus;
      if IsPrime(modulus) && Invertible(modulus, Removed(ops)) {
        ProductNonZero(modulus, Removed(ops));
        ValueTimesDenominator(modulus, numerator, denominator);
        MulCong(denominator, Product(Removed(ops)), v, modulus);
      }
    }
  }
}
