/**
 * application/core/MY_Controller.php: the base controller's admission chain
 * for API requests, authentication against an API-key record and then the
 * windowed rate limit, and the filter of `_log_request`.
 *
 * The record lookup `get_by_key` is the parameter `lookup`; its source is not
 * part of this model. `_send_error_response` ends the request, so its call is
 * an outcome returned early.
 */
module MyController {
  import opened Wrappers
  import opened Strings
  import opened Config
  import opened RateLimitModel
  import SignedUrl

  /** The fields of an API-key record the controller reads; an absent or null expired_at or rate_limit is None. */
  datatype KeyRecord = KeyRecord(id: int, isActive: bool, expiredAt: Option<int>, rateLimit: Option<int>)

  type Lookup = string -> Option<KeyRecord>

  datatype Outcome =
    | Preflight
    | Proceed
    | Error(code: int, message: string, retryAfter: Option<int>)

  /** The result of `_validate_api_key`: the record, or the first error response that fires. */
  datatype Validation = Rejected(code: int, message: string) | Valid(record: KeyRecord)

  /** A key whose expiry is strictly before now; one expiring exactly now is still accepted. */
  predicate KeyExpired(r: KeyRecord, now: int)
  {
    r.expiredAt.Some? && r.expiredAt.value < now
  }

  /** `_validate_api_key`: no key, unknown key, inactive key, expired key, in that order. */
  function ValidateApiKey(lookup: Lookup, header: Option<string>, now: int): (v: Validation)
    ensures IsFalsy(header) ==> v == Rejected(401, "API Key required")
    ensures !IsFalsy(header) && lookup(header.value).None? ==> v == Rejected(401, "Invalid API Key")
    ensures !IsFalsy(header) && lookup(header.value).Some? && !lookup(header.value).value.isActive ==>
      v == Rejected(403, "API Key is inactive")
    ensures (!IsFalsy(header) && lookup(header.value).Some? && lookup(header.value).value.isActive
      && KeyExpired(lookup(header.value).value, now)) ==> v == Rejected(403, "API Key has expired")
    ensures v.Valid? <==> (!IsFalsy(header) && lookup(header.value).Some? && lookup(header.value).value.isActive
      && !KeyExpired(lookup(header.value).value, now))
    ensures v.Valid? ==> v.record == lookup(header.value).value
  {
    if IsFalsy(header) then Rejected(401, "API Key required")
    else
      var keyData := lookup(header.value);
      if keyData.None? then Rejected(401, "Invalid API Key")
      else if !keyData.value.isActive then Rejected(403, "API Key is inactive")
      else if keyData.value.expiredAt.Some? && keyData.value.expiredAt.value < now then Rejected(403, "API Key has expired")
      else Valid(keyData.value)
  }

  /** The expiry boundary: a record expiring at now passes, one expiring a second earlier does not. */
  lemma ExpiryBoundary(lookup: Lookup, key: string, r: KeyRecord, now: int)
    requires key != "" && key != "0"
    requires lookup(key) == Some(r) && r.isActive
    ensures r.expiredAt == Some(now) ==> ValidateApiKey(lookup, Some(key), now).Valid?
    ensures r.expiredAt == Some(now - 1) ==> ValidateApiKey(lookup, Some(key), now) == Rejected(403, "API Key has expired")
  {
  }

  /** `rate_limit ?: default_rate_limit`: the record's limit unless it is null or 0. */
  function EffectiveLimit(r: KeyRecord, defaultLimit: int): (limit: int)
    ensures r.rateLimit.Some? && r.rateLimit.value != 0 ==> limit == r.rateLimit.value
    ensures r.rateLimit.None? || r.rateLimit.value == 0 ==> limit == defaultLimit
  {
    if r.rateLimit.Some? && r.rateLimit.value != 0 then r.rateLimit.value else defaultLimit
  }

  /** `_check_rate_limit` on the window table: the outcome and the table afterwards. */
  function CheckRateLimit(rows: Windows, r: KeyRecord, uri: string, site: Site, now: int): (result: (Outcome, Windows))
    ensures var key := WindowKey(r.id, uri);
      var report := CheckLimitReport(rows, key, EffectiveLimit(r, site.defaultRateLimit), now, site.rateLimitWindow);
      var checked := AfterCheck(rows, key, now);
      (report.exceeded ==> result == (Error(429, "Rate limit exceeded. Try again later.", Some(report.retryAfter)), checked))
      && (!report.exceeded ==> result == (Proceed, Incremented(checked, key, now, site.rateLimitWindow)))
  {
    var key := WindowKey(r.id, uri);
    var limit := EffectiveLimit(r, site.defaultRateLimit);
    var report := CheckLimitReport(rows, key, limit, now, site.rateLimitWindow);
    var checked := AfterCheck(rows, key, now);
    if report.exceeded then
      (Error(429, "Rate limit exceeded. Try again later.", Some(report.retryAfter)), checked)
    else
      (Proceed, Incremented(checked, key, now, site.rateLimitWindow))
  }

  /** `_is_api_endpoint`: the URI starts with the API prefix. */
  predicate IsApiEndpoint(uri: string, site: Site)
  {
    StartsWith(uri, site.apiPrefix)
  }

  /** An API endpoint is one under the prefix, whatever follows it; with the prefix "api/v1/" the public read `cdn/<key>` is not one. */
  lemma ApiEndpointScope(site: Site, rest: string, fileKey: string)
    ensures IsApiEndpoint(site.apiPrefix + rest, site)
    ensures site.apiPrefix == "api/v1/" ==> !IsApiEndpoint("cdn/" + fileKey, site)
  {
    assert (site.apiPrefix + rest)[..|site.apiPrefix|] == site.apiPrefix;
    if site.apiPrefix == "api/v1/" && |"cdn/" + fileKey| >= 7 {
      assert ("cdn/" + fileKey)[0] == 'c';
    }
  }

  /** An incoming request, with the parts the constructor reads. */
  datatype Request = Request(httpMethod: string, uri: string, apiKeyHeader: Option<string>)

  /** The constructor's chain: preflight, then for API endpoints authentication followed by the rate limit. */
  function Admit(lookup: Lookup, rows: Windows, req: Request, site: Site, now: int): (result: (Outcome, Windows, Option<KeyRecord>))
    ensures req.httpMethod == "OPTIONS" ==> result == (Preflight, rows, None)
    ensures req.httpMethod != "OPTIONS" && !IsApiEndpoint(req.uri, site) ==> result == (Proceed, rows, None)
    ensures req.httpMethod != "OPTIONS" && IsApiEndpoint(req.uri, site) ==>
      var v := ValidateApiKey(lookup, req.apiKeyHeader, now);
      (v.Rejected? ==> result == (Error(v.code, v.message, None), rows, None))
      && (v.Valid? ==> var (o, after) := CheckRateLimit(rows, v.record, req.uri, site, now);
           result == (o, after, Some(v.record)))
  {
    if req.httpMethod == "OPTIONS" then (Preflight, rows, None)
    else if !IsApiEndpoint(req.uri, site) then (Proceed, rows, None)
    else
      var v := ValidateApiKey(lookup, req.apiKeyHeader, now);
      if v.Rejected? then (Error(v.code, v.message, None), rows, None)
      else
        var (o, after) := CheckRateLimit(rows, v.record, req.uri, site, now);
        (o, after, Some(v.record))
  }

  /**
   * The private endpoint a signed link points at lies under the API prefix,
   * so a controller built on this base class refuses it with 401 when the
   * request carries no API key, whatever the link's signature.
   */
  lemma SignedLinkNeedsApiKey(lookup: Lookup, rows: Windows, site: Site, fileId: string, header: Option<string>, now: int)
    requires IsFalsy(header)
    ensures var req := Request("GET", SignedUrl.PrivateEndpoint(site, fileId), header);
      Admit(lookup, rows, req, site, now) == (Error(401, "API Key required", None), rows, None)
  {
    ApiEndpointScope(site, "files/private/" + fileId, "");
    assert SignedUrl.PrivateEndpoint(site, fileId) == site.apiPrefix + ("files/private/" + fileId);
  }

  /** Nothing is counted for a request that is a preflight, not an API call, or not authenticated. */
  lemma CountingOnlyAfterAuthentication(lookup: Lookup, rows: Windows, req: Request, site: Site, now: int)
    requires req.httpMethod == "OPTIONS" || !IsApiEndpoint(req.uri, site) || ValidateApiKey(lookup, req.apiKeyHeader, now).Rejected?
    ensures Admit(lookup, rows, req, site, now).1 == rows
  {
  }

  /** An admitted API request has counted exactly one request against its key and URI, and no other window changed. */
  lemma AdmittedCountsOnce(lookup: Lookup, rows: Windows, req: Request, site: Site, now: int)
    requires site.rateLimitWindow >= 0
    requires req.httpMethod != "OPTIONS" && IsApiEndpoint(req.uri, site)
    requires Admit(lookup, rows, req, site, now).0 == Proceed
    ensures var r := Admit(lookup, rows, req, site, now).2.value;
      var key := WindowKey(r.id, req.uri);
      var after := Admit(lookup, rows, req, site, now).1;
      key in after && after[key].requestCount == CurrentWindow(rows, key, now, site.rateLimitWindow).requestCount + 1
      && forall k :: k in rows && k != key ==> k in after && after[k] == rows[k]
  {
  }

  /** The admissions of a run of requests for one window key, each check followed by an increment when admitted. */
  function RunRequests(rows: Windows, key: WindowKey, limit: int, times: seq<int>, window: int): (admitted: seq<bool>)
    ensures |admitted| == |times|
    decreases |times|
  {
    if times == [] then []
    else
      var report := CheckLimitReport(rows, key, limit, times[0], window);
      var checked := AfterCheck(rows, key, times[0]);
      var next := if report.exceeded then checked else Incremented(checked, key, times[0], window);
      [!report.exceeded] + RunRequests(next, key, limit, times[1..], window)
  }

  /** With `count` requests already in the window that started at `start`, the i-th further request in that window is admitted exactly while count + i is below the limit. */
  lemma {:induction false} RunWithinWindow(rows: Windows, key: WindowKey, limit: int, times: seq<int>, window: int, count: nat, start: int)
    requires key in rows && rows[key] == Window(count, start)
    requires forall i :: 0 <= i < |times| ==> start <= times[i] <= start + window
    ensures forall i :: 0 <= i < |times| ==> (RunRequests(rows, key, limit, times, window)[i] <==> count + i < limit)
    decreases |times|
  {
    if times != [] {
      var report := CheckLimitReport(rows, key, limit, times[0], window);
      assert IsLive(rows[key], times[0], window);
      var checked := AfterCheck(rows, key, times[0]);
      assert checked == rows;
      var next := if report.exceeded then checked else Incremented(checked, key, times[0], window);
      var nextCount: nat := if report.exceeded then count else count + 1;
      assert next[key] == Window(nextCount, start);
      var rest := times[1..];
      assert forall i :: 0 <= i < |rest| ==> start <= rest[i] <= start + window by {
        forall i | 0 <= i < |rest| ensures start <= rest[i] <= start + window {
          assert rest[i] == times[i + 1];
        }
      }
      RunWithinWindow(next, key, limit, rest, window, nextCount, start);
      var admitted := RunRequests(rows, key, limit, times, window);
      assert admitted == [!report.exceeded] + RunRequests(next, key, limit, rest, window);
      forall i | 1 <= i < |times| ensures admitted[i] <==> count + i < limit {
        assert admitted[i] == RunRequests(next, key, limit, rest, window)[i - 1];
        if report.exceeded {
          assert count >= limit;
        }
      }
    }
  }

  /**
   * A burst for a key and URI with no window yet, all within one window of
   * the first request: the first `limit` requests are admitted and every
   * later one is refused.
   */
  lemma BurstAdmission(rows: Windows, key: WindowKey, limit: int, times: seq<int>, window: int)
    requires key !in rows
    requires |times| > 0 && limit > 0 && window >= 0
    requires forall i :: 0 <= i < |times| ==> times[0] <= times[i] <= times[0] + window
    ensures var admitted := RunRequests(rows, key, limit, times, window);
      forall i :: 0 <= i < |times| ==> (admitted[i] <==> i < limit)
  {
    var t0 := times[0];
    var report := CheckLimitReport(rows, key, limit, t0, window);
    assert !report.exceeded;
    var next := Incremented(AfterCheck(rows, key, t0), key, t0, window);
    assert next[key] == Window(1, t0);
    var rest := times[1..];
    assert forall i :: 0 <= i < |rest| ==> t0 <= rest[i] <= t0 + window by {
      forall i | 0 <= i < |rest| ensures t0 <= rest[i] <= t0 + window {
        assert rest[i] == times[i + 1];
      }
    }
    RunWithinWindow(next, key, limit, rest, window, 1, t0);
    var tail := RunRequests(next, key, limit, rest, window);
    var admitted := RunRequests(rows, key, limit, times, window);
    assert admitted == [true] + tail;
    forall i | 1 <= i < |times| ensures admitted[i] <==> i < limit {
      assert admitted[i] == tail[i - 1];
      assert tail[i - 1] <==> 1 + (i - 1) < limit;
    }
  }

  /** `_log_request`'s filter: upload, download and error entries are dropped when their switch is off. */
  predicate ShouldLog(action: string, site: Site)
  {
    !(!site.logUploads && action == "upload")
    && !(!site.logDownloads && action == "download")
    && !(!site.logErrors && action == "error")
  }

  lemma LogFilter(action: string, site: Site)
    ensures action == "upload" ==> (ShouldLog(action, site) <==> site.logUploads)
    ensures action == "download" ==> (ShouldLog(action, site) <==> site.logDownloads)
    ensures action == "error" ==> (ShouldLog(action, site) <==> site.logErrors)
    ensures action != "upload" && action != "download" && action != "error" ==> ShouldLog(action, site)
  {
  }

  /** The base controller: the records it was built with and the key data it stores. */
  class MyController {
    const limiter: RateLimitTable
    var apiKeyData: Option<KeyRecord>

    constructor(limiter: RateLimitTable)
      ensures this.limiter == limiter && apiKeyData == None
    {
      this.limiter := limiter;
      apiKeyData := None;
    }

    /** The constructor's admission steps on one request. */
    method Construct(lookup: Lookup, req: Request, site: Site, now: int) returns (outcome: Outcome)
      modifies this, limiter
      ensures var (o, after, data) := Admit(lookup, old(limiter.rows), req, site, now);
        outcome == o && limiter.rows == after
      ensures Admit(lookup, old(limiter.rows), req, site, now).2.Some? ==>
        apiKeyData == Admit(lookup, old(limiter.rows), req, site, now).2
      ensures Admit(lookup, old(limiter.rows), req, site, now).2.None? ==> apiKeyData == old(apiKeyData)
    {
      if req.httpMethod == "OPTIONS" {
        return Preflight;
      }
      if !StartsWith(req.uri, site.apiPrefix) {
        return Proceed;
      }
      var v := ValidateApiKey(lookup, req.apiKeyHeader, now);
      if v.Rejected? {
        return Error(v.code, v.message, None);
      }
      apiKeyData := Some(v.record);
      var r := v.record;
      var limit := if r.rateLimit.Some? && r.rateLimit.value != 0 then r.rateLimit.value else site.defaultRateLimit;
      var report := limiter.CheckLimit(r.id, req.uri, limit, now, site.rateLimitWindow);
      if report.exceeded {
        return Error(429, "Rate limit exceeded. Try again later.", Some(report.retryAfter));
      }
      limiter.IncrementRequest(r.id, req.uri, now, site.rateLimitWindow);
      outcome := Proceed;
    }
  }
}
