/** Time buckets (internal/aggregation/bucket.go). Times are nanoseconds since the Unix epoch. */
module Buckets {
  /** Nanoseconds from the zero time, which truncation counts from, to the epoch. */
  const ZERO_TIME: int := 62_135_596_800_000_000_000

  /** The start of the bucket holding t. An interval that is not positive makes no buckets. */
  function Truncate(t: int, interval: int): (b: int)
    ensures interval > 0 ==> t - interval < b <= t && (b + ZERO_TIME) % interval == 0
    ensures interval <= 0 ==> b == t
  {
    if interval <= 0 then t
    else
      var r := (t + ZERO_TIME) % interval;
      Aligned(t + ZERO_TIME, interval);
      t - r
  }

  lemma {:induction false} Aligned(x: int, n: int)
    requires n > 0
    ensures (x - x % n) % n == 0
  {
    Divides(x - x % n, n, x / n, 0);
  }

  lemma {:induction false} Product(d: int, n: int)
    requires n > 0
    ensures d > 0 ==> n * d >= n
    ensures d < 0 ==> n * d <= -n
  {
  }

  /** Quotient and remainder are the only ones that fit. */
  lemma {:induction false} Divides(x: int, n: int, q: int, r: int)
    requires n > 0 && x == n * q + r && 0 <= r < n
    ensures x / n == q && x % n == r
  {
    var d := q - x / n;
    assert n * d == n * q - n * (x / n);
    Product(d, n);
  }
}
