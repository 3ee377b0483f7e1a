// What the two limiters have in common.

module RateLimits {
  datatype Result = Result(allowed: bool, limit: int, remaining: int, resetTime: int, retryAfter: int)

  /** A missing limit falls back to that of the free tier. */
  function EffectiveLimit(limitPerMinute: int): int {
    if limitPerMinute <= 0 then 10 else limitPerMinute
  }
}
