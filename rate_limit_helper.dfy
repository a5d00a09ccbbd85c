/**
 * application/helpers/rate_limit_helper.php: the response headers, status
 * text and client identity around the rate limiter, and the aligned window
 * start `calculate_rate_limit_window` computes.
 */
module RateLimitHelper {
  import opened Wrappers
  import opened Strings
  import opened Durations
  import opened Http
  import opened RateLimitModel

  /** PHP's `%`: the remainder takes the sign of the dividend. */
  function PhpMod(a: int, b: int): (m: int)
    requires b != 0
    ensures a >= 0 && b > 0 ==> m == a % b
  {
    var r := (if a < 0 then -a else a) % (if b < 0 then -b else b);
    if a < 0 then -r else r
  }

  /** `calculate_rate_limit_window`: the start of the fixed window of the given size that holds now. */
  function CalculateRateLimitWindow(windowSize: int, now: int): (start: int)
    requires windowSize != 0
    ensures windowSize > 0 && now >= 0 ==>
      start == windowSize * (now / windowSize) && now - windowSize < start <= now
  {
    var m := PhpMod(now, windowSize);
    assert windowSize > 0 && now >= 0 ==> now == windowSize * (now / windowSize) + m && 0 <= m < windowSize;
    now - m
  }

  /** `is_rate_limit_exceeded` */
  predicate IsRateLimitExceeded(currentCount: int, limit: int)
  {
    currentCount >= limit
  }

  /** The helper's test agrees with what check_limit reports for the same count and limit. */
  lemma ExceededAgreesWithReport(w: Window, limit: int, now: int, window: int)
    ensures IsRateLimitExceeded(w.requestCount, limit) <==> Report(w, limit, now, window).exceeded
  {
  }

  /** `get_rate_limit_headers`: limit, remaining and reset time, in that order. */
  function GetRateLimitHeaders(d: LimitReport): (hs: seq<Header>)
    ensures |hs| == 3
    ensures hs[0] == Header("X-RateLimit-Limit", IntToString(d.limit))
    ensures hs[1] == Header("X-RateLimit-Remaining", IntToString(d.remaining))
    ensures hs[2] == Header("X-RateLimit-Reset", IntToString(d.windowEnd))
  {
    [Header("X-RateLimit-Limit", IntToString(d.limit)),
     Header("X-RateLimit-Remaining", IntToString(d.remaining)),
     Header("X-RateLimit-Reset", IntToString(d.windowEnd))]
  }

  function RetryAfterLine(d: LimitReport): string
  {
    "Retry-After: " + IntToString(d.retryAfter)
  }

  /** The header lines set_rate_limit_headers emits, in order. */
  function RateLimitHeaderLines(d: LimitReport): (lines: seq<string>)
    ensures |lines| == if d.exceeded then 4 else 3
    ensures forall i :: 0 <= i < 3 ==> lines[i] == HeaderLine(GetRateLimitHeaders(d)[i])
    ensures d.exceeded ==> lines[3] == RetryAfterLine(d)
  {
    var hs := GetRateLimitHeaders(d);
    [HeaderLine(hs[0]), HeaderLine(hs[1]), HeaderLine(hs[2])] + (if d.exceeded then [RetryAfterLine(d)] else [])
  }

  /** The three X-RateLimit headers are always sent; a Retry-After header is sent exactly when the limit is exceeded. */
  lemma RetryAfterOnlyWhenExceeded(d: LimitReport)
    ensures var lines := RateLimitHeaderLines(d);
      (exists i :: 0 <= i < |lines| && StartsWith(lines[i], "Retry-After: ")) <==> d.exceeded
    ensures var lines := RateLimitHeaderLines(d);
      forall i :: 0 <= i < 3 ==> StartsWith(lines[i], "X-RateLimit-")
  {
    var lines := RateLimitHeaderLines(d);
    forall i | 0 <= i < 3
      ensures StartsWith(lines[i], "X-RateLimit-") && !StartsWith(lines[i], "Retry-After: ")
    {
      assert lines[i][0] == 'X';
      assert lines[i][..12] == "X-RateLimit-";
    }
    if d.exceeded {
      assert lines[3][..13] == "Retry-After: ";
      assert StartsWith(lines[3], "Retry-After: ");
    }
  }

  /** `set_rate_limit_headers`: each header of the map in turn, then Retry-After when exceeded. */
  method SetRateLimitHeaders(output: Output, d: LimitReport)
    modifies output
    ensures output.headers == old(output.headers) + RateLimitHeaderLines(d)
  {
    var headers := GetRateLimitHeaders(d);
    var i := 0;
    while i < |headers|
      invariant 0 <= i <= |headers|
      invariant output.headers == old(output.headers) + seq(i, j requires 0 <= j < i => HeaderLine(headers[j]))
    {
      output.SetHeader(HeaderLine(headers[i]));
      i := i + 1;
    }
    if d.exceeded {
      output.SetHeader(RetryAfterLine(d));
    }
  }

  /** What get_rate_limit_status returns; the float percentage_used is not modelled. */
  datatype RateStatus = Exceeded(message: string, retryAfter: int) | Ok(message: string)

  /** `get_rate_limit_status` */
  function GetRateLimitStatus(d: LimitReport): (s: RateStatus)
    ensures s.Exceeded? <==> d.exceeded
    ensures s.Exceeded? ==> s.retryAfter == d.retryAfter
    ensures s.Exceeded? ==> s.message == "Rate limit exceeded. Try again in " + IntToString(d.retryAfter) + " seconds."
    ensures s.Ok? ==> s.message == "Rate limit: " + IntToString(d.remaining) + "/" + IntToString(d.limit) + " remaining"
  {
    if d.exceeded then
      Exceeded("Rate limit exceeded. Try again in " + IntToString(d.retryAfter) + " seconds.", d.retryAfter)
    else
      Ok("Rate limit: " + IntToString(d.remaining) + "/" + IntToString(d.limit) + " remaining")
  }

  /** `format_retry_after` */
  function FormatRetryAfter(seconds: int): string
  {
    HumanDuration(seconds)
  }

  /** `get_client_identifier`: the API key when the header is truthy, otherwise the client IP. */
  function GetClientIdentifier(apiKeyHeader: Option<string>, ip: string): (id: string)
    ensures !IsFalsy(apiKeyHeader) ==> id == "api_key:" + apiKeyHeader.value
    ensures IsFalsy(apiKeyHeader) ==> id == "ip:" + ip
  {
    if !IsFalsy(apiKeyHeader) then "api_key:" + apiKeyHeader.value else "ip:" + ip
  }

  /** Key-based and IP-based identities never coincide: the identity says which kind it is. */
  lemma ClientIdentifierKinds(apiKeyHeader: Option<string>, ip: string)
    ensures StartsWith(GetClientIdentifier(apiKeyHeader, ip), "api_key:") <==> !IsFalsy(apiKeyHeader)
  {
    var id := GetClientIdentifier(apiKeyHeader, ip);
    if IsFalsy(apiKeyHeader) {
      assert id[0] == 'i';
    } else {
      assert id[..8] == "api_key:";
    }
  }

  const SkipEndpoints: seq<string> := ["api/v1/status", "api/v1/health"]

  /** `should_rate_limit`: every endpoint but the status and health checks. */
  predicate ShouldRateLimit(endpoint: string)
  {
    endpoint !in SkipEndpoints
  }

  lemma ShouldRateLimitExactly(endpoint: string)
    ensures !ShouldRateLimit(endpoint) <==> endpoint == "api/v1/status" || endpoint == "api/v1/health"
  {
  }
}
