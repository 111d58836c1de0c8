/** How the descriptor table grows (selector.c). */
module Capacity {
  /** What select(2) can handle. */
  const ITEMS_MAX_SIZE := 1024

  /** 1 << k */
  function Pow2(k: nat): (r: nat)
    ensures r > k
  {
    if k == 0 then 1 else 2 * Pow2(k - 1)
  }

  /** p is the least power of two above n. */
  ghost predicate LeastPowerAbove(p: nat, n: nat) {
    && (exists k: nat :: p == Pow2(k))
    && p > n
    && forall k: nat :: Pow2(k) > n ==> p <= Pow2(k)
  }

  /** n >> k */
  function Shifted(n: nat, k: nat): nat {
    if k == 0 then n else Shifted(n / 2, k - 1)
  }

  lemma {:induction false} ShiftedOnce(n: nat, k: nat)
    ensures Shifted(n, k + 1) == Shifted(n, k) / 2
  {
    if k > 0 {
      ShiftedOnce(n / 2, k - 1);
    }
  }

  /** Shifting n out takes as many bits as it takes a power of two to exceed it. */
  lemma {:induction false} ShiftedOut(n: nat, k: nat)
    ensures Shifted(n, k) == 0 <==> Pow2(k) > n
  {
    if k > 0 {
      ShiftedOut(n / 2, k - 1);
    }
  }

  lemma FewestBits(n: nat, bits: nat)
    requires Shifted(n, bits) == 0
    requires bits > 0 ==> Shifted(n, bits - 1) != 0
    ensures LeastPowerAbove(Pow2(bits), n)
  {
    ShiftedOut(n, bits);
    if bits > 0 {
      ShiftedOut(n, bits - 1);
    }
    forall k: nat | Pow2(k) > n
      ensures Pow2(bits) <= Pow2(k)
    {
      if k < bits {
        Pow2Monotone(k, bits - 1);
      } else {
        Pow2Monotone(bits, k);
      }
    }
  }

  lemma {:induction false} Pow2Monotone(j: nat, k: nat)
    requires j <= k
    ensures Pow2(j) <= Pow2(k)
  {
    if j < k {
      Pow2Monotone(j, k - 1);
    }
  }

  method NextCapacity(n: nat) returns (capacity: nat)
    requires n <= ITEMS_MAX_SIZE
    ensures exists p: nat ::
              LeastPowerAbove(p, n) && capacity == (if p > ITEMS_MAX_SIZE then ITEMS_MAX_SIZE else p) + 1
    ensures n < capacity <= ITEMS_MAX_SIZE + 1
  {
    var bits: nat := 0;
    var tmp: nat := n;
    while tmp != 0
      invariant tmp == Shifted(n, bits)
      invariant bits > 0 ==> Shifted(n, bits - 1) != 0
    {
      ShiftedOnce(n, bits);
      tmp := tmp / 2;
      bits := bits + 1;
    }
    FewestBits(n, bits);
    tmp := Pow2(bits);
    if tmp > ITEMS_MAX_SIZE {
      tmp := ITEMS_MAX_SIZE;
    }
    capacity := tmp + 1;
  }
}
