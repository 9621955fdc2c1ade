/** The bit tricks behind ring sizes, index masks, lap masks and lap shifts. */
module RingArithmetic {
  import opened RingIndex

  const SIZE_BITS := 64 // sizeof(std::size_t) * CHAR_BIT

  function Pow2(k: nat): nat { if k == 0 then 1 else 2 * Pow2(k - 1) }

  /** Bitwise and. */
  function BitAnd(x: nat, y: nat): nat {
    if x == 0 || y == 0 then 0 else (x % 2) * (y % 2) + 2 * BitAnd(x / 2, y / 2)
  }

  function ShiftRight(x: nat, k: nat): nat { if k == 0 then x else ShiftRight(x / 2, k - 1) }

  lemma {:induction false} Pow2Positive(k: nat)
    ensures Pow2(k) > 0
  {
    if k > 0 { Pow2Positive(k - 1); }
  }

  lemma {:induction false} Pow2Grows(j: nat, k: nat)
    requires j < k
    ensures 2 * Pow2(j) <= Pow2(k)
  {
    if j < k - 1 {
      Pow2Grows(j, k - 1);
      Pow2Positive(k - 1);
    }
  }

  lemma Pow2Order(j: nat, k: nat)
    ensures j < k ==> 2 * Pow2(j) <= Pow2(k)
    ensures k < j ==> 2 * Pow2(k) <= Pow2(j)
  {
    if j < k { Pow2Grows(j, k); }
    if k < j { Pow2Grows(k, j); }
  }

  /** Dividing by 2p: halve, then divide by p. */
  lemma Halve(x: nat, p: nat)
    requires p > 0
    ensures x % (2 * p) == 2 * ((x / 2) % p) + x % 2
    ensures x / (2 * p) == (x / 2) / p
  {
    var q := x / 2;
    Split(q, p);
    assert 2 * ((q / p) * p) == (q / p) * (2 * p);
    Compose(q / p, 2 * (q % p) + x % 2, 2 * p);
  }

  /** `x & (2^k - 1)` is the remainder modulo 2^k. */
  lemma {:induction false} MaskIsMod(x: nat, k: nat)
    ensures Pow2(k) > 0 && BitAnd(x, Pow2(k) - 1) == x % Pow2(k)
  {
    Pow2Positive(k);
    if k > 0 {
      var p := Pow2(k - 1);
      MaskIsMod(x / 2, k - 1);
      Halve(x, p);
      BitAndOdd(x, p - 1);
      assert Pow2(k) - 1 == 2 * (p - 1) + 1;
    }
  }

  /** An odd operand keeps the last bit. */
  lemma BitAndOdd(x: nat, m: nat)
    ensures BitAnd(x, 2 * m + 1) == x % 2 + 2 * BitAnd(x / 2, m)
  {
    assert (2 * m + 1) % 2 == 1 && (2 * m + 1) / 2 == m;
  }

  /** `x >> k` is the quotient by 2^k. */
  lemma {:induction false} ShiftIsDiv(x: nat, k: nat)
    ensures Pow2(k) > 0 && ShiftRight(x, k) == x / Pow2(k)
  {
    Pow2Positive(k);
    if k > 0 {
      ShiftIsDiv(x / 2, k - 1);
      Halve(x, Pow2(k - 1));
    }
  }

  /** `~(2^k - 1)` in n bits. */
  function NotMask(k: nat, n: nat): nat
    requires k <= n
  {
    if k < n then Pow2Grows(k, n); Pow2(n) - Pow2(k) else 0
  }

  /** `x & ~(2^k - 1)` clears the remainder: what is left is the lap times the ring size, not the lap. */
  lemma NotMaskIsLapTimesSize(x: nat, k: nat, n: nat)
    requires k <= n && x < Pow2(n)
    ensures Pow2(k) > 0 && BitAnd(x, NotMask(k, n)) == (x / Pow2(k)) * Pow2(k)
  {
    NotMaskIsFloor(x, k, n);
    Split(x, Pow2(k));
  }

  lemma {:induction false} NotMaskIsFloor(x: nat, k: nat, n: nat)
    requires k <= n && x < Pow2(n)
    ensures Pow2(k) > 0 && BitAnd(x, NotMask(k, n)) == x - x % Pow2(k)
  {
    Pow2Positive(k);
    if k == n || k == 0 {
      MaskIsMod(x, n);
      Compose(0, x, Pow2(n));
    } else {
      var p, m := Pow2(k - 1), NotMask(k - 1, n - 1);
      NotMaskIsFloor(x / 2, k - 1, n - 1);
      NotMaskHalves(k, n);
      BitAndEven(x, m);
      Halve(x, p);
      assert Pow2(k) == 2 * p;
    }
  }

  /** The last bit of an even operand is 0. */
  lemma BitAndEven(x: nat, m: nat)
    ensures BitAnd(x, 2 * m) == 2 * BitAnd(x / 2, m)
  {
  }

  lemma NotMaskHalves(k: nat, n: nat)
    requires 0 < k < n
    ensures NotMask(k, n) == 2 * NotMask(k - 1, n - 1)
  {
  }

  // ---- GetBufferSize of the SPSC and MPMC queues ----

  /** Leading zeros of a number of the given width, as `__builtin_clzll` counts them. */
  function LeadingZeros(x: nat, bits: nat): nat
    requires 0 < x < Pow2(bits)
  {
    if x >= Pow2(bits - 1) then 0 else 1 + LeadingZeros(x, bits - 1)
  }

  lemma {:induction false} LeadingZerosLocate(x: nat, bits: nat)
    requires 0 < x < Pow2(bits)
    ensures LeadingZeros(x, bits) < bits
    ensures Pow2(bits - 1 - LeadingZeros(x, bits)) <= x < Pow2(bits - LeadingZeros(x, bits))
  {
    if x < Pow2(bits - 1) { LeadingZerosLocate(x, bits - 1); }
  }

  /** The capacity the size is computed from. */
  function Wanted(capacity: nat): nat { if capacity + 1 < 4 then 4 else capacity + 1 }

  /** The shift amount of `1 << ...`, an int: it does not overflow as long as the amount is at most 30. */
  function SizeExponent(capacity: nat): nat
    requires Wanted(capacity) < Pow2(SIZE_BITS)
  {
    LeadingZerosLocate(Wanted(capacity), SIZE_BITS);
    SIZE_BITS - 1 - LeadingZeros(Wanted(capacity), SIZE_BITS) + 1
  }

  function GetBufferSize(capacity: nat): nat
    requires Wanted(capacity) < Pow2(SIZE_BITS) && SizeExponent(capacity) <= 30
  {
    Pow2(SizeExponent(capacity))
  }

  /** The least power of two strictly above max(Capacity + 1, 4): room for Capacity + 1 elements beside the gap. */
  lemma BufferSizeIsLeast(capacity: nat, k: nat)
    requires Wanted(capacity) < Pow2(SIZE_BITS) && SizeExponent(capacity) <= 30
    ensures GetBufferSize(capacity) > Wanted(capacity) && GetBufferSize(capacity) >= 8
    ensures GetBufferSize(capacity) - 1 >= capacity + 1
    ensures Pow2(k) > Wanted(capacity) ==> GetBufferSize(capacity) <= Pow2(k)
  {
    var c, n := Wanted(capacity), SizeExponent(capacity);
    LeadingZerosLocate(c, SIZE_BITS);
    Pow2Order(k, n - 1);
    Pow2Order(n, k);
    assert Pow2(2) == 4 && Pow2(3) == 8;
    Pow2Order(n, 2);
    Pow2Order(3, n);
  }

  /** The shift does not overflow exactly for capacities below 2^30 - 1. */
  lemma ShiftFitsIff(capacity: nat)
    requires Wanted(capacity) < Pow2(SIZE_BITS)
    ensures SizeExponent(capacity) <= 30 <==> Wanted(capacity) < Pow2(30)
  {
    var c, n := Wanted(capacity), SizeExponent(capacity);
    LeadingZerosLocate(c, SIZE_BITS);
    Pow2Order(n, 30);
    Pow2Order(30, n - 1);
  }

  // ---- GetBufferSize of the multicast queue ----

  /** `std::bit_ceil`: the exponent of the least power of two not below n. */
  function CeilExponent(n: nat): nat { if n <= 1 then 0 else 1 + CeilExponent((n + 1) / 2) }

  lemma {:induction false} CeilIsLeast(n: nat, k: nat)
    ensures n <= Pow2(CeilExponent(n))
    ensures n <= Pow2(k) ==> CeilExponent(n) <= k
  {
    if n > 1 {
      if k > 0 {
        CeilIsLeast((n + 1) / 2, k - 1);
      } else {
        CeilIsLeast((n + 1) / 2, 0);
      }
    }
  }

  /** `__builtin_ctz`. */
  function TrailingZeros(x: nat): nat
    requires x > 0
  {
    if x % 2 == 1 then 0 else 1 + TrailingZeros(x / 2)
  }

  lemma {:induction false} TrailingZerosOfPow2(k: nat)
    ensures Pow2(k) > 0 && TrailingZeros(Pow2(k)) == k
  {
    Pow2Positive(k);
    if k > 0 { TrailingZerosOfPow2(k - 1); }
  }
}
