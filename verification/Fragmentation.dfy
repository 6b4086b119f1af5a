/** How both implementations cut a message into fragments of one size, the last one perhaps smaller. */
module Fragmentation {
  import opened Basics

  function Count(n: nat, size: nat): nat
    requires size > 0
  {
    (n + size - 1) / size
  }

  /** Where fragment `i` of a message of `n` bytes starts, and the one before it ends. */
  function Cut(n: nat, size: nat, i: nat): nat {
    if i * size <= n then i * size else n
  }

  lemma CountBounds(n: nat, size: nat) returns (c: nat)
    requires 0 < size < n
    ensures c == Count(n, size) && (c - 1) * size < n <= c * size && 2 <= c <= n
  {
    c := Count(n, size);
    DivBounds(n + size - 1, size);
    assert (c - 1) * size == c * size - size;
    MulCancel(1, c, size);
    MulMonotone(1, size, c - 1);
  }

  lemma CutBounds(n: nat, size: nat, i: nat)
    requires size > 0 && i < Count(n, size)
    ensures i * size == Cut(n, size, i) < Cut(n, size, i + 1) <= n && Cut(n, size, i + 1) - Cut(n, size, i) <= size
  {
    DivBounds(n + size - 1, size);
    MulMonotone(i + 1, Count(n, size), size);
    assert (i + 1) * size == i * size + size;
  }

  /** The cuts are the whole: every byte lies in one fragment. */
  lemma CutHolds(n: nat, size: nat, x: nat) returns (i: nat)
    requires size > 0 && x < n
    ensures i == x / size < Count(n, size) && Cut(n, size, i) <= x < Cut(n, size, i + 1)
  {
    i := x / size;
    DivBounds(x, size);
    DivBounds(n + size - 1, size);
    MulCancel(i, Count(n, size), size);
    assert (i + 1) * size == i * size + size;
  }
}
