/** Python's integer division and remainder, which the peers use to find
    their ring neighbours. */
module PyInt {

  /** `a // n` as Python computes it: the quotient rounded towards minus
      infinity (Dafny's `/` rounds so that the remainder is never negative). */
  function Div(a: int, n: int): int
    requires n != 0
  {
    if n > 0 then a / n else (-a) / (-n)
  }

  /** `a % n` as Python computes it: the remainder of floor division, which
      takes the sign of the divisor; `n == 0` raises ZeroDivisionError. */
  function Mod(a: int, n: int): (r: int)
    requires n != 0
    ensures n > 0 ==> 0 <= r < n
    ensures n < 0 ==> n < r <= 0
  {
    if n > 0 then a % n else -((-a) % (-n))
  }

  /** Python's defining identity of `//` and `%`: `a == n * (a // n) + a % n`. */
  lemma DivMod(a: int, n: int)
    requires n != 0
    ensures a == n * Div(a, n) + Mod(a, n)
  {
  }

  /** Stepping forwards round a ring of `n` devices wraps from n-1 to 0. */
  lemma ModSucc(i: int, n: int)
    ensures 0 <= i < n ==> Mod(i + 1, n) == if i + 1 == n then 0 else i + 1
  {
  }

  /** Stepping backwards round a ring of `n` devices wraps from 0 to n-1:
      Python's remainder of -1 is never negative for a positive divisor. */
  lemma ModPred(i: int, n: int)
    ensures 0 <= i < n ==> Mod(i - 1, n) == if i == 0 then n - 1 else i - 1
  {
  }
}
