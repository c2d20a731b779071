/** Division by a variable. */
module Arithmetic {

  lemma DivMod(n: nat, k: nat)
    requires n >= 1
    ensures k == n * (k / n) + k % n && 0 <= k / n && 0 <= k % n < n
  {}

  lemma MulSucc(n: nat, q: int)
    ensures n * (q + 1) == n * q + n
  {}

  lemma MulGap(n: int, d: int)
    requires n >= 1
    ensures d >= 1 ==> n * d >= n && n * d >= d
    ensures d <= -1 ==> n * d <= -n
  {}

  lemma DivUnique(n: nat, x: nat, q: nat, r: nat)
    requires n >= 1 && x == n * q + r && r < n
    ensures x / n == q && x % n == r
  {
    var q', r' := x / n, x % n;
    MulGap(n, q' - q);
    MulDistributes(n, q', q);
  }

  lemma MulDistributes(n: int, x: int, y: int)
    ensures n * (x - y) == n * x - n * y
  {}
}
