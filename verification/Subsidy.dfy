/** The block subsidy and the cap it puts on the supply. */
module Subsidy {
  const COIN: nat := 100_000_000
  const INITIAL_SUBSIDY: nat := 50 * COIN
  const HALVING_INTERVAL: nat := 210_000

  /** `x >> k`. */
  function ShiftRight(x: nat, k: nat): nat {
    if k == 0 then x else ShiftRight(x, k - 1) / 2
  }

  function BlockSubsidy(height: nat, interval: nat): nat
    requires interval > 0
  {
    var halvings := height / interval;
    if halvings >= 64 then 0 else ShiftRight(INITIAL_SUBSIDY, halvings)
  }

  function BitcoinBlockSubsidy(height: nat): nat {
    BlockSubsidy(height, HALVING_INTERVAL)
  }

  /** Every halving period pays exactly half of the one before, rounded down, starting from 50 coins. */
  lemma {:induction false} Halves(height: nat)
    ensures height < 210_000 ==> BitcoinBlockSubsidy(height) == 5_000_000_000
    ensures BitcoinBlockSubsidy(height + 210_000) == BitcoinBlockSubsidy(height) / 2
  {
    var k := height / HALVING_INTERVAL;
    assert (height + HALVING_INTERVAL) / HALVING_INTERVAL == k + 1;
    if k + 1 >= 64 { RunsDry(k); }
  }

  function PowerOfTwo(n: nat): nat {
    if n == 0 then 1 else 2 * PowerOfTwo(n - 1)
  }

  lemma {:induction false} ShiftedBelow(x: nat, n: nat, k: nat)
    requires x < PowerOfTwo(n) && k <= n
    ensures ShiftRight(x, k) < PowerOfTwo(n - k)
  {
    if k > 0 { ShiftedBelow(x, n, k - 1); }
  }

  /** After 33 halvings nothing is left to shift. */
  lemma {:induction false} RunsDry(k: nat)
    requires k >= 33
    ensures ShiftRight(INITIAL_SUBSIDY, k) == 0
  {
    if k == 33 {
      assert PowerOfTwo(8) == 256;
      assert PowerOfTwo(16) == 65_536;
      assert PowerOfTwo(24) == 16_777_216;
      assert PowerOfTwo(33) == 8_589_934_592;
      ShiftedBelow(INITIAL_SUBSIDY, 33, 33);
    } else {
      RunsDry(k - 1);
    }
  }

  /** Everything issued by blocks 1 to `n`; the genesis output never enters the UTXO set. */
  function Issued(n: nat): nat {
    if n == 0 then 0 else Issued(n - 1) + BitcoinBlockSubsidy(n)
  }

  /** The subsidy of the `k`-th halving period. */
  function PeriodSubsidy(k: nat): nat {
    if k >= 64 then 0 else ShiftRight(INITIAL_SUBSIDY, k)
  }

  lemma {:induction false} NoNegativeProduct(a: int, b: int)
    requires a >= 0 && b >= 0
    ensures a * b >= 0
  {
  }

  /** An upper bound on what blocks after `n` can issue: the rest of the current period at its rate, and as much again
      as one whole period at that rate. */
  function Reserve(n: nat): nat {
    NoNegativeProduct(2 * HALVING_INTERVAL - 1 - n % HALVING_INTERVAL, PeriodSubsidy(n / HALVING_INTERVAL));
    (2 * HALVING_INTERVAL - 1 - n % HALVING_INTERVAL) * PeriodSubsidy(n / HALVING_INTERVAL)
  }

  /** Each block's subsidy comes out of the reserve. */
  lemma {:induction false} ReserveCovers(n: nat)
    ensures BitcoinBlockSubsidy(n + 1) + Reserve(n + 1) <= Reserve(n)
  {
  }

  lemma {:induction false} IssuedIsBounded(n: nat)
    ensures Issued(n) + Reserve(n) <= Reserve(0)
  {
    if n > 0 {
      IssuedIsBounded(n - 1);
      ReserveCovers(n - 1);
    }
  }

  lemma {:induction false} InitialReserve()
    ensures Reserve(0) < 21_000_000 * COIN
  {
  }

  /** At every height the coins issued so far stay below 21 million. */
  lemma {:induction false} SupplyCap(n: nat)
    ensures Issued(n) < 21_000_000 * COIN
  {
    hide *;
    IssuedIsBounded(n);
    InitialReserve();
  }
}
