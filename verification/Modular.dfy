/** Positions on a ring: unbounded counters and their remainders by the ring's size. */
module Modular {
  lemma LaterMultiple(a: nat, b: nat, size: nat)
    ensures a < b ==> a * size + size <= b * size
  {
    if a < b {
      assert (a + 1) * size <= b * size;
    }
  }

  lemma QuotientUnique(q: nat, r: nat, p: nat, m: nat, size: nat)
    requires r < size && m < size && q * size + r == p * size + m
    ensures q == p && r == m
  {
    LaterMultiple(q, p, size);
    LaterMultiple(p, q, size);
  }

  lemma ModUnique(q: nat, r: nat, size: nat)
    requires r < size
    ensures (q * size + r) % size == r
  {
    var x := q * size + r;
    QuotientUnique(q, r, x / size, x % size, size);
  }

  lemma ModOf(m: nat, q: nat, r: nat, size: nat)
    requires r < size && m == q * size + r
    ensures m % size == r
  {
    ModUnique(q, r, size);
  }

  lemma NextMultiple(q: nat, size: nat)
    ensures (q + 1) * size == q * size + size
  {}

  /** The slot of m seen from the slot of n, less than a lap behind. */
  lemma LapBetween(n: nat, m: nat, size: nat)
    requires n <= m < n + size
    ensures m % size == if n % size + (m - n) < size then n % size + (m - n) else n % size + (m - n) - size
  {
    var q, r := n / size, n % size;
    NextMultiple(q, size);
    if r + (m - n) < size {
      ModOf(m, q, r + (m - n), size);
    } else {
      ModOf(m, q + 1, r + (m - n) - size, size);
    }
  }

  lemma SmallMod(x: nat, size: nat)
    requires x < size
    ensures x % size == x
  {
    ModUnique(0, x, size);
  }

  lemma AddSize(k: nat, size: nat)
    requires size > 0
    ensures (k + size) % size == k % size
  {
    var q := k / size;
    assert k + size == (q + 1) * size + k % size;
    ModUnique(q + 1, k % size, size);
  }

  /** One step from a slot. */
  lemma StepMod(h: nat, size: nat)
    requires h < size
    ensures (h + 1) % size == if h + 1 == size then 0 else h + 1
  {
    if h + 1 == size {
      ModOf(h + 1, 1, 0, size);
    } else {
      SmallMod(h + 1, size);
    }
  }

  /** One step round a ring. */
  lemma NextMod(n: nat, size: nat)
    requires size > 0
    ensures (n + 1) % size == if n % size + 1 == size then 0 else n % size + 1
  {
    var q, r := n / size, n % size;
    if r + 1 == size {
      assert n + 1 == (q + 1) * size + 0;
      ModUnique(q + 1, 0, size);
    } else {
      assert n + 1 == q * size + (r + 1);
      ModUnique(q, r + 1, size);
    }
  }

  /** Different positions less than a lap apart are different slots. */
  lemma ModDistinct(i: nat, j: nat, size: nat)
    requires i < j < i + size
    ensures i % size != j % size
  {
    LaterMultiple(i / size, j / size, size);
    LaterMultiple(j / size, i / size, size);
  }

  lemma AddMod(a: nat, i: nat, size: nat)
    requires size > 0
    ensures (a % size + i) % size == (a + i) % size
  {
    var q, r := a / size, a % size;
    var p, m := (r + i) / size, (r + i) % size;
    assert (q + p) * size == q * size + p * size;
    ModOf(a + i, q + p, m, size);
  }
}
