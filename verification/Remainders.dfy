/** Remainders by a number that is not a constant. */
module Remainders {

  lemma NextRemainder(k: nat, n: int)
    requires n > 0
    ensures (k + 1) % n == if k % n == n - 1 then 0 else k % n + 1
  {
    var q, r := k / n, k % n;
    assert k == q * n + r;
    if r == n - 1 {
      RemainderOf(k + 1, q + 1, 0, n);
    } else {
      RemainderOf(k + 1, q, r + 1, n);
    }
  }

  lemma RemainderOf(k: nat, q: int, r: int, n: int)
    requires 0 <= r < n && k == q * n + r
    ensures k % n == r
  {
    var q', r' := k / n, k % n;
    assert k == q' * n + r' && 0 <= r' < n;
    var x := q - q';
    assert x * n == q * n - q' * n;
    Multiples(x, n);
  }

  lemma Multiples(x: int, n: int)
    requires n > 0
    ensures x >= 1 ==> x * n >= n
    ensures x <= -1 ==> x * n <= -n
  {
    assert x * n == (x - 1) * n + n == (x + 1) * n - n;
  }
}
