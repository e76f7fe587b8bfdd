/** Arithmetic modulo a prime, up to Fermat's little theorem. */
module Residues {
  import opened Sums

  ghost predicate IsPrime(p: nat) {
    p >= 2 && forall d :: 2 <= d < p ==> p % d != 0
  }

  lemma {:induction false} SmallMultiple(p: int, d: int)
    requires p > 0 && -p < p * d < p
    ensures d == 0
  {
  }

  lemma {:induction false} Distribute(p: int, a: int, b: int)
    ensures p * (a - b) == p * a - p * b
  {
  }

  lemma {:induction false} ModUnique(p: nat, q: int, r: int, x: int)
    requires p > 0 && 0 <= r < p && x == p * q + r
    ensures x % p == r
  {
    var q', r' := x / p, x % p;
    Distribute(p, q', q);
    SmallMultiple(p, q' - q);
  }

  lemma {:induction false} AddMultiple(x: int, k: int, p: nat)
    requires p > 0
    ensures (x + k * p) % p == x % p
  {
    ModUnique(p, x / p + k, x % p, x + k * p);
  }

  lemma {:induction false} MulMod(a: int, b: int, p: nat)
    requires p > 0
    ensures (a * b) % p == (a % p * b) % p
  {
    assert a == a / p * p + a % p;
    assert a * b == a % p * b + (a / p * b) * p;
    AddMultiple(a % p * b, a / p * b, p);
  }

  /** Congruent factors give congruent products. */
  lemma {:induction false} MulCong(a: int, b: int, c: int, p: nat)
    requires p > 0 && a % p == b % p
    ensures (a * c) % p == (b * c) % p && (c * a) % p == (c * b) % p
  {
    MulMod(a, c, p);
    MulMod(b, c, p);
  }

  lemma {:induction false} SmallRemainder(r: int, p: nat)
    requires r < p && 0 < r + p
    ensures r % p == 0 <==> r == 0
  {
    if r < 0 { ModUnique(p, -1, r + p, r); } else { ModUnique(p, 0, r, r); }
  }

  lemma {:induction false} DiffIsMultiple(a: int, b: int, p: nat)
    requires p > 0
    ensures (a - b) % p == 0 <==> a % p == b % p
  {
    var r, k := a % p - b % p, a / p - b / p;
    Distribute(p, a / p, b / p);
    assert a - b == r + k * p;
    AddMultiple(r, k, p);
    SmallRemainder(r, p);
  }

  // ----- A prime divides a product only if it divides a factor -----

  ghost predicate Kills(a: nat, p: nat, k: nat)
    requires p > 0
  {
    (a * k) % p == 0
  }

  lemma {:induction false} LeastKiller(a: nat, p: nat, n: nat) returns (k: nat)
    requires p > 0 && n > 0 && Kills(a, p, n)
    ensures 0 < k <= n && Kills(a, p, k) && forall j :: 0 < j < k ==> !Kills(a, p, j)
    decreases n
  {
    if j :| 0 < j < n && Kills(a, p, j) {
      k := LeastKiller(a, p, j);
    } else {
      k := n;
    }
  }

  lemma {:induction false} KillersAreMultiples(a: nat, p: nat, k: nat, n: nat)
    requires p > 0 && k > 0 && Kills(a, p, k) && (forall j :: 0 < j < k ==> !Kills(a, p, j)) && Kills(a, p, n)
    ensures n % k == 0
  {
    var r, m := n % k, (a * k) / p * (n / k);
    assert a * k == (a * k) / p * p;
    assert a * n == a * r + m * p by {
      assert n == n / k * k + r;
      assert a * n == a * r + (a * k) * (n / k);
      assert (a * k) * (n / k) == m * p;
    }
    AddMultiple(a * r, m, p);
    assert Kills(a, p, r);
  }

  lemma {:induction false} Euclid(p: nat, a: nat, b: nat)
    requires IsPrime(p) && (a * b) % p == 0
    ensures a % p == 0 || b % p == 0
  {
    AddMultiple(0, a, p);
    assert Kills(a, p, p);
    var k := LeastKiller(a, p, p);
    KillersAreMultiples(a, p, k, p);
    if k == 1 {
      assert Kills(a, p, 1);
    } else {
      assert k == p;
      assert Kills(a, p, b);
      KillersAreMultiples(a, p, k, b);
    }
  }

  lemma {:induction false} Cancel(p: nat, a: nat, b: nat, c: nat)
    requires IsPrime(p) && c % p != 0 && (a * c) % p == (b * c) % p
    ensures a % p == b % p
  {
    var d := if a >= b then a - b else b - a;
    assert d * c == if a >= b then a * c - b * c else b * c - a * c;
    DiffIsMultiple(a * c, b * c, p);
    DiffIsMultiple(b * c, a * c, p);
    Euclid(p, d, c);
    DiffIsMultiple(a, b, p);
    DiffIsMultiple(b, a, p);
  }

  // ----- Products over multisets -----

  ghost function Product(m: multiset<nat>): nat
    decreases |m|
  {
    if m == multiset{} then 1 else
      var x :| x in m;
      x * Product(m - multiset{x})
  }

  lemma {:induction false} ProductTake(m: multiset<nat>, x: nat)
    requires x in m
    ensures Product(m) == x * Product(m - multiset{x})
    decreases |m|
  {
    var y :| y in m && Product(m) == y * Product(m - multiset{y});
    if y != x {
      ProductTake(m - multiset{y}, x);
      ProductTake(m - multiset{x}, y);
      assert m - multiset{y} - multiset{x} == m - multiset{x} - multiset{y};
      Swap(x, y, Product(m - multiset{x} - multiset{y}));
    }
  }

  lemma {:induction false} Swap(x: nat, y: nat, z: nat)
    ensures x * (y * z) == y * (x * z)
  {
  }

  lemma {:induction false} ProductPut(m: multiset<nat>, x: nat)
    ensures Product(m + multiset{x}) == x * Product(m)
  {
    ProductTake(m + multiset{x}, x);
    assert m + multiset{x} - multiset{x} == m;
  }

  lemma {:induction false} ProductUnion(a: multiset<nat>, b: multiset<nat>)
    ensures Product(a + b) == Product(a) * Product(b)
    decreases |b|
  {
    if b == multiset{} {
      assert a + b == a;
    } else {
      var x :| x in b;
      var b' := b - multiset{x};
      ProductUnion(a, b');
      assert a + b == (a + b') + multiset{x};
      ProductPut(a + b', x);
      ProductTake(b, x);
      Swap(x, Product(a), Product(b'));
    }
  }

  lemma {:induction false} ProductNonZero(p: nat, m: multiset<nat>)
    requires IsPrime(p) && forall x :: x in m ==> x % p != 0
    ensures Product(m) % p != 0
    decreases |m|
  {
    if m == multiset{} {
      ModUnique(p, 0, 1, 1);
    } else {
      var x :| x in m;
      ProductTake(m, x);
      ProductNonZero(p, m - multiset{x});
      if Product(m) % p == 0 { Euclid(p, x, Product(m - multiset{x})); }
    }
  }

  // ----- Fermat's little theorem -----

  function Pow(b: nat, e: nat): nat {
    if e == 0 then 1 else b * Pow(b, e - 1)
  }

  function Times(a: nat, p: nat, x: nat): nat
    requires p > 0
  {
    (a * x) % p
  }

  ghost function Image(a: nat, p: nat, s: set<nat>): set<nat>
    requires p > 0
  {
    set x | x in s :: Times(a, p, x)
  }

  ghost predicate Residue(p: nat, x: nat) {
    0 < x < p
  }

  lemma {:induction false} TimesIsInjective(p: nat, a: nat, x: nat, y: nat)
    requires IsPrime(p) && a % p != 0 && Residue(p, x) && Residue(p, y) && Times(a, p, x) == Times(a, p, y)
    ensures x == y
  {
    Cancel(p, x, y, a);
    ModUnique(p, 0, x, x);
    ModUnique(p, 0, y, y);
  }

  lemma {:induction false} ImageSplit(p: nat, a: nat, s: set<nat>, x: nat)
    requires IsPrime(p) && a % p != 0 && x in s && forall y :: y in s ==> Residue(p, y)
    ensures Image(a, p, s) == Image(a, p, s - {x}) + {Times(a, p, x)} && Times(a, p, x) !in Image(a, p, s - {x})
  {
    hide Times;
    forall y | y in s - {x} ensures Times(a, p, y) != Times(a, p, x) {
      if Times(a, p, y) == Times(a, p, x) { TimesIsInjective(p, a, x, y); }
    }
  }

  lemma {:induction false} PushFactor(p: nat, a: nat, x: nat, i: nat, w: nat, q: nat)
    requires p > 0 && i % p == (w * q) % p
    ensures (Times(a, p, x) * i) % p == (a * w * (x * q)) % p
  {
    MulMod(a * x, i, p);
    MulCong(i, w * q, a * x, p);
    assert a * x * (w * q) == a * w * (x * q);
  }

  lemma {:induction false} ImageOfNothing(p: nat, a: nat)
    requires p > 0
    ensures Image(a, p, {}) == {} && Pow(a, 0) * Product(multiset({})) == Product(multiset({}))
  {
  }

  lemma {:induction false} PowNext(a: nat, n: nat)
    ensures Pow(a, n + 1) == a * Pow(a, n)
  {
  }

  /** Multiplying every element of a set of residues by `a` multiplies the product by a power of `a`. */
  lemma {:induction false} ImageProduct(p: nat, a: nat, s: set<nat>)
    requires IsPrime(p) && a % p != 0 && forall y :: y in s ==> Residue(p, y)
    ensures Product(multiset(Image(a, p, s))) % p == (Pow(a, |s|) * Product(multiset(s))) % p
    ensures |Image(a, p, s)| == |s|
    decreases |s|
  {
    assert p > 0;
    hide *;
    if s == {} {
      ImageOfNothing(p, a);
    } else {
      var x :| x in s;
      var rest, f := s - {x}, Times(a, p, x);
      ImageProduct(p, a, rest);
      ImageSplit(p, a, s, x);
      ProductOfSet(s, x);
      ProductOfSet(Image(a, p, s), f);
      assert Image(a, p, s) - {f} == Image(a, p, rest);
      PowNext(a, |rest|);
      PushFactor(p, a, x, Product(multiset(Image(a, p, rest))), Pow(a, |rest|), Product(multiset(rest)));
    }
  }

  lemma {:induction false} ProductOfSet(s: set<nat>, x: nat)
    requires x in s
    ensures Product(multiset(s)) == x * Product(multiset(s - {x}))
  {
    ProductTake(multiset(s), x);
    assert multiset(s) - multiset{x} == multiset(s - {x});
  }

  ghost function Residues(n: nat): (s: set<nat>)
    ensures |s| == n && forall x :: x in s <==> 0 < x <= n
  {
    if n == 0 then {} else Residues(n - 1) + {n}
  }

  lemma {:induction false} ImageOfAll(p: nat, a: nat)
    requires IsPrime(p) && a % p != 0
    ensures Image(a, p, Residues(p - 1)) == Residues(p - 1)
  {
    var all := Residues(p - 1);
    forall y | y in Image(a, p, all) ensures y in all {
      var x :| x in all && y == Times(a, p, x);
      if y == 0 {
        Euclid(p, a, x);
        ModUnique(p, 0, x, x);
      }
    }
    ImageProduct(p, a, all);
    SubsetSize(Image(a, p, all), all);
  }

  lemma {:induction false} Fermat(p: nat, a: nat)
    requires IsPrime(p) && a % p != 0
    ensures Pow(a, p - 1) % p == 1
  {
    var all := Residues(p - 1);
    var q := Product(multiset(all));
    ImageProduct(p, a, all);
    ImageOfAll(p, a);
    forall x | x in multiset(all) ensures x % p != 0 { ModUnique(p, 0, x, x); }
    ProductNonZero(p, multiset(all));
    assert (Pow(a, p - 1) * q) % p == (1 * q) % p;
    Cancel(p, Pow(a, p - 1), 1, q);
    ModUnique(p, 0, 1, 1);
  }
}
