/** Index arithmetic of a ring of slots. */
module Ring {

  /** Position of the `i`-th element of a ring of `n` slots whose first element is at `head`. */
  function At(head: nat, i: nat, n: nat): (r: nat)
    requires head < n && i <= n
    ensures r == if head + i < n then head + i else head + i - n
  {
    WrapOnce(head + i, n);
    (head + i) % n
  }

  lemma WrapOnce(x: nat, n: nat)
    requires 0 < n && x < 2 * n
    ensures x % n == if x < n then x else x - n
  {
    if x >= n {
      assert x == n * 1 + (x - n);
    }
  }
}
