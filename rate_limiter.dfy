/**
 * lib/rate-limiter.ts: a fixed-window request limiter over an in-memory map
 * from identifier to `{count, resetAt}`. The clock reading `Date.now()` is
 * the parameter `now`.
 */
module RateLimiter {
  import opened Wrappers

  datatype Record = Record(count: int, resetAt: int)

  datatype RateLimitResult = RateLimitResult(allowed: bool, remaining: int, resetAt: int)

  const DefaultMaxRequests: int := 100
  const DefaultWindowMs: int := 60 * 1000

  /** A stored record still governs a request at `now`; `now == resetAt` is still inside (the test is `now > resetAt`). */
  predicate InWindow(record: Record, now: int) {
    now <= record.resetAt
  }

  /** The answer to one request and the record kept for the key afterwards. */
  datatype Decision = Decision(result: RateLimitResult, record: Record)

  /** The three cases of `checkRateLimit`: a new window, a denial, or one more counted request. */
  function Decide(stored: Option<Record>, now: int, maxRequests: int, windowMs: int): (d: Decision)
    ensures (stored.None? || !InWindow(stored.value, now)) ==>
              d == Decision(RateLimitResult(true, maxRequests - 1, now + windowMs), Record(1, now + windowMs))
    ensures stored.Some? && InWindow(stored.value, now) && stored.value.count >= maxRequests ==>
              d == Decision(RateLimitResult(false, 0, stored.value.resetAt), stored.value)
    ensures stored.Some? && InWindow(stored.value, now) && stored.value.count < maxRequests ==>
              && d.record == Record(stored.value.count + 1, stored.value.resetAt)
              && d.result == RateLimitResult(true, maxRequests - d.record.count, stored.value.resetAt)
              && d.result.remaining >= 0
  {
    if stored.None? || now > stored.value.resetAt then
      Decision(RateLimitResult(true, maxRequests - 1, now + windowMs), Record(1, now + windowMs))
    else if stored.value.count >= maxRequests then
      Decision(RateLimitResult(false, 0, stored.value.resetAt), stored.value)
    else
      var record := Record(stored.value.count + 1, stored.value.resetAt);
      Decision(RateLimitResult(true, maxRequests - record.count, record.resetAt), record)
  }

  /** With `maxRequests >= 1`, a stored count stays within 1..`maxRequests` and `remaining` is never negative. */
  lemma CountStaysBounded(stored: Option<Record>, now: int, maxRequests: int, windowMs: int)
    requires maxRequests >= 1
    requires stored.Some? ==> 1 <= stored.value.count <= maxRequests
    ensures var d := Decide(stored, now, maxRequests, windowMs);
            1 <= d.record.count <= maxRequests && d.result.remaining >= 0
  {
  }

  /** A request at exactly `resetAt` is judged inside the old window. */
  lemma ResetInstantIsOldWindow(record: Record, maxRequests: int, windowMs: int)
    requires record.count >= maxRequests
    ensures !Decide(Some(record), record.resetAt, maxRequests, windowMs).result.allowed
  {
  }

  /** How many of the requests at `times` are allowed, starting from `record`. */
  function AllowedCount(record: Record, times: seq<int>, maxRequests: int, windowMs: int): nat
    decreases |times|
  {
    if times == [] then 0
    else
      var d := Decide(Some(record), times[0], maxRequests, windowMs);
      (if d.result.allowed then 1 else 0) + AllowedCount(d.record, times[1..], maxRequests, windowMs)
  }

  /**
   * Inside one window at most `maxRequests` requests are allowed: after the
   * `record.count` already counted, the requests that come before `resetAt`
   * add at most `maxRequests - record.count` more.
   */
  lemma {:induction false} AtMostMaxPerWindow(record: Record, times: seq<int>, maxRequests: int, windowMs: int)
    requires 0 <= record.count <= maxRequests
    requires forall i :: 0 <= i < |times| ==> times[i] <= record.resetAt
    ensures AllowedCount(record, times, maxRequests, windowMs) <= maxRequests - record.count
    decreases |times|
  {
    if times != [] {
      var d := Decide(Some(record), times[0], maxRequests, windowMs);
      assert d.record.resetAt == record.resetAt;
      AtMostMaxPerWindow(d.record, times[1..], maxRequests, windowMs);
    }
  }

  /** The module-level `store`. */
  class Store {
    var records: map<string, Record>

    constructor ()
      ensures records == map[]
    {
      records := map[];
    }

    function Lookup(identifier: string): Option<Record>
      reads this
    {
      if identifier in records then Some(records[identifier]) else None
    }

    /** `checkRateLimit(identifier, maxRequests, windowMs)` at time `now`: only the identifier's own record changes. */
    method CheckRateLimit(identifier: string, now: int, maxRequests: int, windowMs: int) returns (result: RateLimitResult)
      modifies this
      ensures var d := Decide(old(Lookup(identifier)), now, maxRequests, windowMs);
              result == d.result && records == old(records)[identifier := d.record]
      ensures forall k :: k != identifier ==> (k in records <==> k in old(records))
      ensures forall k :: k != identifier && k in records ==> records[k] == old(records)[k]
    {
      if identifier !in records || now > records[identifier].resetAt {
        records := records[identifier := Record(1, now + windowMs)];
        return RateLimitResult(true, maxRequests - 1, now + windowMs);
      }
      var record := records[identifier];
      if record.count >= maxRequests {
        assert records == records[identifier := record];
        return RateLimitResult(false, 0, record.resetAt);
      }
      record := record.(count := record.count + 1);
      records := records[identifier := record];
      result := RateLimitResult(true, maxRequests - record.count, record.resetAt);
    }

    /** `checkRateLimit(identifier)` with the default limit of 100 requests per 60 000 ms. */
    method CheckRateLimitDefault(identifier: string, now: int) returns (result: RateLimitResult)
      modifies this
      ensures var d := Decide(old(Lookup(identifier)), now, DefaultMaxRequests, DefaultWindowMs);
              result == d.result && records == old(records)[identifier := d.record]
    {
      result := CheckRateLimit(identifier, now, DefaultMaxRequests, DefaultWindowMs);
    }

    /** `resetRateLimit`: deletes the identifier's record and nothing else. */
    method ResetRateLimit(identifier: string)
      modifies this
      ensures records == old(records) - {identifier}
    {
      records := records - {identifier};
    }
  }
}
