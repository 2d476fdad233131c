/** The few facts about products and quotients that the index arithmetic needs. */
module Arithmetic {

  function Min(a: nat, b: nat): nat { if b < a then b else a }

  function Max(a: nat, b: nat): nat { if b > a then b else a }

  lemma Rest(n: nat, w: nat)
    requires n > 0
    ensures n * w == (n - 1) * w + w && 0 <= (n - 1) * w
  {
  }

  lemma MulGrows(a: nat, b: nat, q: nat)
    requires a <= b
    ensures a * q <= b * q
  {
  }

  lemma ExactDivision(x: nat, n: nat)
    requires n > 0
    ensures x * n / n == x && (x * n + n - 1) / n == x && x * n % n == 0
  {
    ExactQuotient(x, n, 0);
    ExactQuotient(x, n, n - 1);
  }

  lemma ExactQuotient(x: nat, n: nat, r: nat)
    requires n > 0 && r < n
    ensures (x * n + r) / n == x && (x * n + r) % n == r
  {
    var y := x * n + r;
    var d := y / n - x;
    assert y == n * (y / n) + y % n;
    assert n * (y / n) == n * x + n * d;
    FarFromZero(n, d);
  }

  lemma FarFromZero(n: nat, d: int)
    ensures d >= 1 ==> n * d >= n
    ensures d <= -1 ==> n * d + n <= 0
  {
  }

  /** Quotient and remainder are determined by x == q * n + r with r below n. */
  lemma QuotientIs(x: nat, n: nat, q: nat, r: nat)
    requires n > 0 && x == q * n + r && r < n
    ensures x / n == q && x % n == r
  {
    ExactQuotient(q, n, r);
  }

  lemma DivMod(x: int, n: nat)
    requires n > 0
    ensures x == n * (x / n) + x % n && 0 <= x % n < n
  {
  }

  lemma Distributes(n: nat, i: int, d: int)
    ensures n * (i + d) == n * i + n * d && (d == 0 ==> n * d == 0)
  {
  }

  /** x is in the i-th group of n consecutive numbers exactly when its quotient is i. */
  lemma {:induction false} SameGroup(x: int, n: nat, i: int)
    requires n > 0
    ensures x / n == i <==> n * i <= x < n * i + n
  {
    var d := x / n - i;
    DivMod(x, n);
    Distributes(n, i, d);
    FarFromZero(n, d);
    WithinGroup(x, n, n * i, n * d, d, x % n);
  }

  lemma WithinGroup(x: int, n: nat, start: int, shift: int, d: int, r: int)
    requires x == start + shift + r && 0 <= r < n
    requires (d == 0 ==> shift == 0) && (d >= 1 ==> shift >= n) && (d <= -1 ==> shift + n <= 0)
    ensures d == 0 <==> start <= x < start + n
  {
  }

  lemma ProductNotNegative(x: int, y: int)
    requires x >= 0 && y >= 0
    ensures x * y >= 0
  {
  }

  /** What is left of a budget; nothing once it is overdrawn. */
  function Left(total: nat, used: nat): nat { if used <= total then total - used else 0 }

  lemma {:induction false} RangeSize(s: set<nat>, n: nat)
    requires forall i :: i in s ==> i < n
    ensures |s| <= n
  {
    if n > 0 {
      var t := s - {n - 1};
      RangeSize(t, n - 1);
      assert n - 1 in s ==> s == t + {n - 1};
      assert n - 1 !in s ==> s == t;
    } else {
      assert s == {};
    }
  }
}
