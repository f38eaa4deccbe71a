/**
 * lib/rate-limit.ts: the middleware's client identification, its own
 * fixed-window store (100 requests per 60 000 ms) with expiry cleanup, and
 * the slug sanitiser. Header lookups are passed in as strings, "" standing
 * for an absent header; `Date.now()` is the parameter `now`, and whether the
 * 1 % random cleanup runs is the parameter `runCleanup`.
 */
module RateLimit {
  import opened Wrappers
  import opened Text
  import opened Filters
  import RateLimiter

  type Record = RateLimiter.Record

  const RateLimitWindow: int := 60 * 1000
  const RateLimitMax: int := 100

  /** `getClientId`: the first comma-separated piece of `x-forwarded-for`, else `x-real-ip`, else "unknown". */
  function GetClientId(forwarded: string, realIp: string): (id: string)
    ensures forwarded != "" ==>
              && StartsWith(forwarded, id) && Lacks(id, ',')
              && (|id| < |forwarded| ==> forwarded[|id|] == ',')
    ensures forwarded == "" ==> id == (if realIp != "" then realIp else "unknown")
  {
    if forwarded != "" then SplitOnChar(forwarded, ',')[0]
    else if realIp != "" then realIp
    else "unknown"
  }

  /** The first piece is taken untrimmed, and may be empty when the header starts with a comma. */
  lemma ClientIdUntrimmed()
    ensures GetClientId(" a,b", "") == " a"
    ensures GetClientId(", b", "c") == ""
  {
    assert FindChar(" a,b", ',') == 2;
    assert FindChar(", b", ',') == 0;
  }

  /** The store with the entries whose `resetTime` lies before `now` removed. */
  function WithoutExpired(records: map<string, Record>, now: int): (r: map<string, Record>)
    ensures forall k :: k in r <==> k in records && records[k].resetAt >= now
    ensures forall k :: k in r ==> r[k] == records[k]
  {
    map k | k in records && records[k].resetAt >= now :: records[k]
  }

  function LookupIn(records: map<string, Record>, id: string): Option<Record> {
    if id in records then Some(records[id]) else None
  }

  /** The decision for a client under the fixed limits. */
  function DecideFixed(records: map<string, Record>, id: string, now: int): RateLimiter.Decision {
    RateLimiter.Decide(LookupIn(records, id), now, RateLimitMax, RateLimitWindow)
  }

  /**
   * Whether the random cleanup ran makes no difference to the answer: an
   * entry it removes has `resetTime < now`, which the limiter already treats
   * as a fresh window.
   */
  lemma CleanupDoesNotChangeDecision(records: map<string, Record>, id: string, now: int)
    ensures DecideFixed(WithoutExpired(records, now), id, now) == DecideFixed(records, id, now)
  {
  }

  /** Under the fixed limits a stored count stays within 1..100 and `remaining` within 0..99. */
  lemma FixedCountBounded(records: map<string, Record>, id: string, now: int)
    requires id in records ==> 1 <= records[id].count <= RateLimitMax
    ensures var d := DecideFixed(records, id, now);
            1 <= d.record.count <= RateLimitMax && 0 <= d.result.remaining <= RateLimitMax - 1
  {
    RateLimiter.CountStaysBounded(LookupIn(records, id), now, RateLimitMax, RateLimitWindow);
  }

  /** The store's invariant: every stored count lies within 1..100. */
  predicate CountsBounded(records: map<string, Record>) {
    forall k :: k in records ==> 1 <= records[k].count <= RateLimitMax
  }

  class ClientStore {
    var records: map<string, Record>

    constructor ()
      ensures records == map[] && CountsBounded(records)
    {
      records := map[];
    }

    /** `cleanupExpiredEntries`: deletes exactly the entries with `resetTime < now`. */
    method CleanupExpiredEntries(now: int)
      modifies this
      ensures records == WithoutExpired(old(records), now)
      ensures CountsBounded(old(records)) ==> CountsBounded(records)
    {
      ghost var original := records;
      var keys := records.Keys;
      while keys != {}
        invariant keys <= original.Keys
        invariant records == map k | k in original && (k in keys || original[k].resetAt >= now) :: original[k]
        decreases keys
      {
        var k :| k in keys;
        if records[k].resetAt < now {
          records := records - {k};
        }
        keys := keys - {k};
      }
    }

    /** `checkRateLimit(request)`: optional cleanup, then the limiter's three cases for the client. */
    method CheckRateLimit(forwarded: string, realIp: string, now: int, runCleanup: bool) returns (allowed: bool, remaining: int)
      modifies this
      ensures var base := if runCleanup then WithoutExpired(old(records), now) else old(records);
              var id := GetClientId(forwarded, realIp);
              var d := DecideFixed(base, id, now);
              && allowed == d.result.allowed && remaining == d.result.remaining
              && records == base[id := d.record]
      ensures CountsBounded(old(records)) ==> CountsBounded(records)
    {
      if runCleanup {
        CleanupExpiredEntries(now);
      }
      var clientId := GetClientId(forwarded, realIp);
      if CountsBounded(records) {
        FixedCountBounded(records, clientId, now);
      }
      if clientId !in records || now > records[clientId].resetAt {
        records := records[clientId := RateLimiter.Record(1, now + RateLimitWindow)];
        return true, RateLimitMax - 1;
      }
      var clientData := records[clientId];
      if clientData.count >= RateLimitMax {
        assert records == records[clientId := clientData];
        return false, 0;
      }
      clientData := clientData.(count := clientData.count + 1);
      records := records[clientId := clientData];
      allowed, remaining := true, RateLimitMax - clientData.count;
    }
  }

  predicate IsSlugChar(c: char) {
    IsLowerAscii(c) || IsDigit(c) || c == '-'
  }

  /** `s.replace(/^-|-$/g, '')`: one dash removed at each end. */
  function StripEdgeDash(s: string): (r: string)
    ensures exists lo, hi :: 0 <= lo <= hi <= |s| && r == s[lo..hi] && (lo == 0 || s[0] == '-')
  {
    var t := if s != [] && s[0] == '-' then s[1..] else s;
    var lo := |s| - |t|;
    if t != [] && t[|t| - 1] == '-' then
      assert t[..|t| - 1] == s[lo..|s| - 1];
      t[..|t| - 1]
    else
      assert t == s[lo..|s|];
      t
  }

  /** The text `sanitizeSlug` produces before its length checks. */
  function SanitizedText(slug: string): string {
    StripEdgeDash(CollapseDashes(Keep(Lower(Trim(slug)), IsSlugChar)))
  }

  /** The shape of a sanitised slug. */
  predicate IsSanitized(s: string) {
    All(s, IsSlugChar) && NoDoubleDash(s) && NoEdgeDash(s)
  }

  lemma StripEdgeDashShape(c: string)
    requires All(c, IsSlugChar) && NoDoubleDash(c)
    ensures IsSanitized(StripEdgeDash(c))
  {
    var lo := if c != [] && c[0] == '-' then 1 else 0;
    var t := c[lo..];
    assert t == [] || t[0] != '-' by {
      if lo == 1 && |c| >= 2 {
        assert t[0] == c[1];
      }
    }
    if t != [] && t[|t| - 1] == '-' {
      var r := t[..|t| - 1];
      assert r == c[lo..|c| - 1];
      SliceKeeps(c, lo, |c| - 1, IsSlugChar);
      if |r| >= 1 {
        assert r[0] == t[0] && r[|r| - 1] == c[|c| - 2];
        assert c[|c| - 1] == '-';
      }
      assert StripEdgeDash(c) == r;
    } else {
      SliceKeeps(c, lo, |c|, IsSlugChar);
      assert c[lo..|c|] == t;
      assert StripEdgeDash(c) == t;
    }
  }

  lemma SanitizedTextShape(slug: string)
    ensures IsSanitized(SanitizedText(slug))
  {
    var k := Keep(Lower(Trim(slug)), IsSlugChar);
    CollapseDashesKeeps(k, IsSlugChar);
    CollapseDashesNoDouble(k);
    StripEdgeDashShape(CollapseDashes(k));
  }

  /**
   * `sanitizeSlug`: null for an empty argument, and null when the cleaned
   * text is empty or longer than 100 characters; a long slug is rejected,
   * never cut short.
   */
  function SanitizeSlug(slug: string): (r: Option<string>)
    ensures slug == "" ==> r == None
    ensures slug != "" && 1 <= |SanitizedText(slug)| <= 100 ==> r == Some(SanitizedText(slug))
    ensures |SanitizedText(slug)| == 0 || |SanitizedText(slug)| > 100 ==> r == None
    ensures r.Some? ==> IsSanitized(r.value) && 1 <= |r.value| <= 100
  {
    if slug == "" then None
    else
      var sanitized := SanitizedText(slug);
      SanitizedTextShape(slug);
      if |sanitized| == 0 || |sanitized| > 100 then None else Some(sanitized)
  }

  /** Each step of the sanitiser leaves a sanitised slug as it is. */
  lemma SanitizedTextOfSanitized(s: string)
    requires IsSanitized(s)
    ensures SanitizedText(s) == s
  {
    assert NoUpper(s) by {
      assert forall i :: 0 <= i < |s| ==> IsSlugChar(s[i]);
    }
    assert s == [] || (!IsSpace(s[0]) && !IsSpace(s[|s| - 1])) by {
      if s != [] {
        assert IsSlugChar(s[0]) && IsSlugChar(s[|s| - 1]);
      }
    }
    TrimOfUntrimmable(s);
    LowerOfNoUpper(s);
    KeepOfAll(s, IsSlugChar);
    CollapseDashesOfNoDouble(s);
  }

  /** Sanitising a sanitised slug gives it back. */
  lemma SanitizeSlugIdempotent(slug: string)
    requires SanitizeSlug(slug).Some?
    ensures SanitizeSlug(SanitizeSlug(slug).value) == SanitizeSlug(slug)
  {
    SanitizedTextOfSanitized(SanitizeSlug(slug).value);
  }
}
