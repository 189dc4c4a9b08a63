/** A length of time, repeated. */
module Repetition {
  function Repeated(n: nat, x: real): real {
    if n == 0 then 0.0 else Repeated(n - 1, x) + x
  }

  lemma {:induction false} RepeatedIsProduct(n: nat, x: real)
    ensures Repeated(n, x) == n as real * x
  {
    if n > 0 {
      RepeatedIsProduct(n - 1, x);
      assert (n - 1) as real * x + x == ((n - 1) as real + 1.0) * x;
    }
  }

  lemma {:induction false} RepeatedGrows(m: nat, n: nat, x: real)
    requires m <= n && 0.0 <= x
    ensures Repeated(m, x) <= Repeated(n, x)
  {
    if m < n { RepeatedGrows(m, n - 1, x); }
  }
}
