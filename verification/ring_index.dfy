/** Counting positions of a ring: ticket i is entry i mod size of lap i / size. */
module RingIndex {

  lemma {:induction false} MulStep(a: nat, b: nat, size: nat)
    requires a < b
    ensures a * size + size <= b * size
    decreases b
  {
    assert b * size == (b - 1) * size + size;
    if a < b - 1 { MulStep(a, b - 1, size); }
  }

  lemma Split(i: nat, size: nat)
    requires size > 0
    ensures i == (i / size) * size + i % size && 0 <= i % size < size
  {
  }

  /** Two numbers with the same remainder are ordered as their quotients. */
  lemma SameRemainder(i: nat, j: nat, size: nat)
    requires size > 0 && i % size == j % size
    ensures i < j <==> i / size < j / size
    ensures i == j <==> i / size == j / size
  {
    Split(i, size);
    Split(j, size);
    var k, m := i / size, j / size;
    if k < m { MulStep(k, m, size); }
    if m < k { MulStep(m, k, size); }
  }

  /** Quotient and remainder of k * size + r. */
  lemma Compose(k: nat, r: nat, size: nat)
    requires r < size
    ensures (k * size + r) / size == k && (k * size + r) % size == r
  {
    var i := k * size + r;
    var m := i / size;
    Split(i, size);
    if k < m {
      MulStep(k, m, size);
    } else if m < k {
      MulStep(m, k, size);
    }
  }

  /** A number given by its lap and its entry. */
  lemma Located(i: nat, k: nat, r: nat, size: nat)
    requires r < size && i == k * size + r
    ensures i / size == k && i % size == r
  {
    Compose(k, r, size);
  }

  lemma OneLapMore(k: nat, size: nat)
    ensures (k + 1) * size == k * size + size
  {
  }

  /** The successor stays in its lap or starts the next one at entry 0. */
  lemma Successor(i: nat, size: nat)
    requires size > 0
    ensures i % size + 1 < size ==> (i + 1) % size == i % size + 1 && (i + 1) / size == i / size
    ensures i % size + 1 == size ==> (i + 1) % size == 0 && (i + 1) / size == i / size + 1
  {
    var k, r := i / size, i % size;
    Split(i, size);
    OneLapMore(k, size);
    if r + 1 < size {
      Located(i + 1, k, r + 1, size);
    } else {
      Located(i + 1, k + 1, 0, size);
    }
  }

  /** Entries less than a full ring apart are different. */
  lemma WithinRing(i: nat, j: nat, size: nat)
    requires size > 0 && i < j < i + size
    ensures i % size != j % size
  {
    if i % size == j % size {
      SameRemainder(i, j, size);
      Split(i, size);
      Split(j, size);
      MulStep(i / size, j / size, size);
    }
  }

  /** A full ring later the same entry comes round again. */
  lemma NextLap(i: nat, size: nat)
    requires size > 0
    ensures (i + size) % size == i % size && (i + size) / size == i / size + 1
  {
    var k, r := i / size, i % size;
    Split(i, size);
    OneLapMore(k, size);
    Located(i + size, k + 1, r, size);
  }

  /** The distance of two positions less than a ring apart, from their entries. */
  lemma Distance(d: nat, e: nat, size: nat)
    requires size > 0 && d <= e < d + size
    ensures e - d == e % size - d % size + (if e % size < d % size then size else 0)
  {
    var k, r := d / size, d % size;
    Split(d, size);
    OneLapMore(k, size);
    if r + (e - d) < size {
      Located(e, k, r + (e - d), size);
    } else {
      Located(e, k + 1, r + (e - d) - size, size);
    }
  }
}
