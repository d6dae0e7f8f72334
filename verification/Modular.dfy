/** Remainders, reduced to repeated subtraction so that facts about going round a circle of
    `n` positions need no multiplication. */
module Modular {
  /** `x % n`, see `WrapIsMod`. */
  function Wrap(x: nat, n: nat): (r: nat)
    requires 0 < n
    ensures r < n
    decreases x
  {
    if x < n then x else Wrap(x - n, n)
  }

  lemma MulAtLeast(k: int, n: int)
    requires k >= 1 && n >= 0
    ensures k * n >= n
  {
    assert k * n == (k - 1) * n + n;
  }

  lemma Remainder(x: int, q: int, r: int, n: int)
    requires 0 < n && 0 <= r < n && x == q * n + r
    ensures x % n == r && x / n == q
  {
    var q', r' := x / n, x % n;
    assert x == q' * n + r';
    if q > q' {
      assert (q - q') * n == q * n - q' * n;
      MulAtLeast(q - q', n);
    } else if q < q' {
      assert (q' - q) * n == q' * n - q * n;
      MulAtLeast(q' - q, n);
    }
  }

  lemma {:induction false} WrapIsMod(x: nat, n: nat)
    requires 0 < n
    ensures Wrap(x, n) == x % n
    decreases x
  {
    if x < n {
      Remainder(x, 0, x, n);
    } else {
      WrapIsMod(x - n, n);
      var q, r := (x - n) / n, (x - n) % n;
      assert x - n == q * n + r;
      assert (q + 1) * n == q * n + n;
      Remainder(x, q + 1, r, n);
    }
  }

  lemma {:induction false} WrapAdd(x: nat, d: nat, n: nat)
    requires 0 < n
    ensures Wrap(Wrap(x, n) + d, n) == Wrap(x + d, n)
    decreases x
  {
    if x < n {
    } else {
      WrapAdd(x - n, d, n);
    }
  }

  lemma {:induction false} WrapApart(x: nat, d: nat, n: nat)
    requires 0 < d < n
    ensures Wrap(x, n) != Wrap(x + d, n)
    decreases x
  {
    if x >= n { WrapApart(x - n, d, n); }
    else if x + d >= n { assert Wrap(x + d, n) == x + d - n; }
  }
}
