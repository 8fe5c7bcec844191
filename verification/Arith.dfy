/** Division with remainder, once, for the rings and the chunk tables. */
module Arith {

  lemma MulMono(n: nat, a: int, b: int)
    requires a <= b
    ensures n * a <= n * b
  {
  }

  lemma Distribute(n: int, a: int, b: int)
    ensures n * (a - b) == n * a - n * b
  {
  }

  /** Quotient and remainder are unique. */
  lemma RemUnique(n: nat, q1: int, r1: nat, q2: int, r2: nat)
    requires r1 < n && r2 < n && n * q1 + r1 == n * q2 + r2
    ensures q1 == q2 && r1 == r2
  {
    Distribute(n, q1, q2);
    if q1 - q2 >= 1 { MulMono(n, 1, q1 - q2); }
    if q1 - q2 <= -1 { MulMono(n, q1 - q2, -1); }
  }

  lemma DivModIs(a: int, n: nat, q: int, r: nat)
    requires r < n && a == n * q + r
    ensures a / n == q && a % n == r
  {
    RemUnique(n, a / n, a % n, q, r);
  }

  lemma AddMod(x: int, n: nat)
    requires n > 0
    ensures (x + n) % n == x % n && (x + n) / n == x / n + 1
  {
    Distribute(n, x / n, -1);
    DivModIs(x + n, n, x / n + 1, x % n);
  }

  lemma SmallMod(x: nat, n: nat)
    requires x < n
    ensures x % n == x && x / n == 0
  {
  }

  /** Two numbers closer than `n` with the same remainder are equal. */
  lemma CloseSameMod(a: int, b: int, n: nat)
    requires n > 0 && a % n == b % n && -(n as int) < a - b < n
    ensures a == b
  {
    Distribute(n, a / n, b / n);
    if a / n - b / n >= 1 { MulMono(n, 1, a / n - b / n); }
    if a / n - b / n <= -1 { MulMono(n, a / n - b / n, -1); }
  }
}
