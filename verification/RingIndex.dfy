// Index arithmetic of circular buffers.
module RingIndex {
  // Slot number of the k-th slot counted from head, and its neighbours.
  function Slot(head: nat, k: nat, n: nat): (i: nat)
    requires head < n && k <= n
    ensures i < n
  {
    if head + k < n then head + k else head + k - n
  }

  function Inc(i: nat, n: nat): (r: nat)
    requires i < n
    ensures r < n
  {
    if i + 1 == n then 0 else i + 1
  }

  function Sub(i: nat, d: nat, n: nat): (r: nat)
    requires i < n && d <= n
    ensures r < n
  {
    if i >= d then i - d else i + n - d
  }

  // Slots along a ring are one apart, and going back all but w slots from head
  // leads to the w-th.
  lemma SlotSteps(head: nat, k: nat, n: nat)
    requires head < n && k < n
    ensures Inc(Slot(head, k, n), n) == Slot(head, k + 1, n)
    ensures Sub(head, n - k, n) == Slot(head, k, n)
    ensures Slot(head, k, n) == head <==> k == 0
    ensures Slot(head, n, n) == head
  {
  }

  lemma Multiples(n: nat, q: int)
    ensures q <= 0 ==> n * q <= 0
    ensures q >= 2 ==> n * q >= n * 2
  {
  }

  lemma ModOnce(x: nat, n: nat)
    requires x < n
    ensures (x + n) % n == x && x % n == x
  {
    var q := (x + n) / n;
    assert x + n == n * q + (x + n) % n;
    Multiples(n, q);
    assert q == 1;
  }

  // Inc and Sub are the source's (a + 1) % n and (a - b + n) % n on the range
  // they are used on.
  lemma IndexArithmetic(i: nat, d: nat, n: nat)
    requires i < n && d <= n
    ensures Inc(i, n) == (i + 1) % n
    ensures Sub(i, d, n) == (i - d + n) % n
  {
    if i + 1 == n {
      ModOnce(0, n);
    } else {
      ModOnce(i + 1, n);
    }
    ModOnce(Sub(i, d, n), n);
  }
}
