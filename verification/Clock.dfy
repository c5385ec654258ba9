/** Time arithmetic of the client: microseconds as datetime and timedelta keep them, and the
    milliseconds they are compared in. */
module Clock {

  function Max(a: int, b: int): int { if a < b then b else a }

  function Min(a: int, b: int): int { if a < b then a else b }

  /** datetime_to_millis: floor, for instants before the epoch too. */
  function Millis(us: int): (ms: int)
    ensures 1000 * ms <= us < 1000 * (ms + 1)
  {
    us / 1000
  }

  /** timedelta / n: to the nearest microsecond, ties to even. */
  function DivRound(us: int, n: int): (q: int)
    requires n > 0
    ensures -n <= 2 * (q * n - us) <= n
    ensures 2 * (q * n - us) == n || 2 * (us - q * n) == n ==> q % 2 == 0
  {
    var q, r := us / n, us % n;
    if 2 * r < n || (2 * r == n && q % 2 == 0) then q else q + 1
  }
}
