/**
 * application/models/Rate_limit_model.php: the `rate_limits` table of
 * request windows, one per (api_key_id, endpoint), read and upserted by the
 * windowed rate limiter. Timestamps are integer seconds, the clock is `now`
 * and the configured `rate_limit_window` is `window`. The table's unique key
 * on (api_key_id, endpoint), which the ON DUPLICATE KEY upsert relies on,
 * makes it a map.
 */
module RateLimitModel {
  import opened Wrappers
  import opened Strings

  datatype WindowKey = WindowKey(apiKeyId: int, endpoint: string)

  datatype Window = Window(requestCount: int, windowStart: int)

  type Windows = map<WindowKey, Window>

  /** The lookup condition `window_start >= now - rate_limit_window` of check_limit and get_status. */
  predicate IsLive(w: Window, now: int, window: int)
  {
    w.windowStart >= now - window
  }

  /** The reset condition `window_start < now - rate_limit_window` of the upsert. */
  predicate IsStale(w: Window, now: int, window: int)
  {
    w.windowStart < now - window
  }

  /** The lookup and the upsert draw the boundary in the same place: a window is stale exactly when it is not live. */
  lemma BoundaryAgreement(w: Window, now: int, window: int)
    ensures IsStale(w, now, window) <==> !IsLive(w, now, window)
    ensures IsLive(Window(w.requestCount, now - window), now, window)
  {
  }

  /** The window check_limit works on: the live row, or a new window opened now with no requests. */
  function CurrentWindow(rows: Windows, key: WindowKey, now: int, window: int): (w: Window)
    ensures key in rows && IsLive(rows[key], now, window) ==> w == rows[key]
    ensures !(key in rows && IsLive(rows[key], now, window)) ==> w == Window(0, now)
    ensures IsLive(w, now, window) || window < 0
  {
    if key in rows && IsLive(rows[key], now, window) then rows[key] else Window(0, now)
  }

  /** The object check_limit returns; window_start and window_end are timestamps. */
  datatype LimitReport = LimitReport(
    exceeded: bool,
    remaining: int,
    limit: int,
    retryAfter: int,
    windowStart: int,
    windowEnd: int)

  function Max(a: int, b: int): int
  {
    if a >= b then a else b
  }

  /** The arithmetic of check_limit on the current window. */
  function Report(w: Window, limit: int, now: int, window: int): (r: LimitReport)
    ensures r.exceeded <==> w.requestCount >= limit
    ensures r.remaining >= 0
    ensures r.remaining == if limit >= w.requestCount then limit - w.requestCount else 0
    ensures r.limit == limit
    ensures !r.exceeded ==> r.retryAfter == 0
    ensures r.exceeded ==> r.retryAfter >= 1 && r.retryAfter >= w.windowStart + window - now
    ensures r.exceeded && w.windowStart + window - now >= 1 ==> r.retryAfter == w.windowStart + window - now
    ensures r.exceeded && w.windowStart + window - now < 1 ==> r.retryAfter == 1
    ensures r.windowStart == w.windowStart && r.windowEnd == w.windowStart + window
  {
    var remaining := limit - w.requestCount;
    var exceeded := w.requestCount >= limit;
    var windowEnd := w.windowStart + window;
    var retryAfter := if exceeded then Max(1, windowEnd - now) else 0;
    LimitReport(exceeded, Max(0, remaining), limit, retryAfter, w.windowStart, windowEnd)
  }

  /** What check_limit reports. */
  function CheckLimitReport(rows: Windows, key: WindowKey, limit: int, now: int, window: int): LimitReport
  {
    Report(CurrentWindow(rows, key, now, window), limit, now, window)
  }

  /**
   * The table after check_limit: a row (0, now) is inserted when the pair
   * has no row at all. A stale row is left for the upsert to roll over,
   * since the unique key refuses a second row for the pair.
   */
  function AfterCheck(rows: Windows, key: WindowKey, now: int): (r: Windows)
    ensures r.Keys == rows.Keys + {key}
    ensures key in rows ==> r == rows
    ensures key !in rows ==> r[key] == Window(0, now)
    ensures forall k :: k in rows ==> k in r && r[k] == rows[k]
  {
    if key in rows then rows else rows[key := Window(0, now)]
  }

  /** A pair with no live window is never exceeded for a positive limit, and has the whole limit left. */
  lemma FreshWindowAllows(rows: Windows, key: WindowKey, limit: int, now: int, window: int)
    requires !(key in rows && IsLive(rows[key], now, window))
    requires limit > 0
    ensures var r := CheckLimitReport(rows, key, limit, now, window);
      !r.exceeded && r.remaining == limit && r.retryAfter == 0 && r.windowStart == now
  {
  }

  /** The row check_limit reads afterwards is the one it reported on, so the upsert that follows counts against it. */
  lemma CheckThenLive(rows: Windows, key: WindowKey, now: int, window: int)
    requires window >= 0
    requires key !in rows
    ensures CurrentWindow(AfterCheck(rows, key, now), key, now, window) == CurrentWindow(rows, key, now, window)
  {
  }

  /** The upsert of increment_request: an existing live row counts one more request; a missing or stale row restarts at one request from now. */
  function Incremented(rows: Windows, key: WindowKey, now: int, window: int): (r: Windows)
    ensures r.Keys == rows.Keys + {key}
    ensures forall k :: k in rows && k != key ==> r[k] == rows[k]
    ensures key in rows && IsLive(rows[key], now, window) ==> r[key] == Window(rows[key].requestCount + 1, rows[key].windowStart)
    ensures !(key in rows && IsLive(rows[key], now, window)) ==> r[key] == Window(1, now)
  {
    if key !in rows then rows[key := Window(1, now)]
    else
      var w := rows[key];
      var count := if w.windowStart < now - window then 1 else w.requestCount + 1;
      var start := if w.windowStart < now - window then now else w.windowStart;
      rows[key := Window(count, start)]
  }

  /** Applies the upsert once per timestamp, in order. */
  function IncrementAll(rows: Windows, key: WindowKey, times: seq<int>, window: int): Windows
    decreases |times|
  {
    if times == [] then rows
    else IncrementAll(Incremented(rows, key, times[0], window), key, times[1..], window)
  }

  /** Requests that all fall within a live window's span are all counted in it, and the window does not move. */
  lemma {:induction false} IncrementsWithinWindow(rows: Windows, key: WindowKey, times: seq<int>, window: int)
    requires key in rows
    requires forall i :: 0 <= i < |times| ==> rows[key].windowStart <= times[i] <= rows[key].windowStart + window
    ensures var r := IncrementAll(rows, key, times, window);
      key in r && r[key] == Window(rows[key].requestCount + |times|, rows[key].windowStart)
    ensures forall k :: k in rows && k != key ==> k in IncrementAll(rows, key, times, window) && IncrementAll(rows, key, times, window)[k] == rows[k]
    decreases |times|
  {
    if times != [] {
      var next := Incremented(rows, key, times[0], window);
      assert IsLive(rows[key], times[0], window);
      assert next[key] == Window(rows[key].requestCount + 1, rows[key].windowStart);
      forall i | 0 <= i < |times[1..]|
        ensures next[key].windowStart <= times[1..][i] <= next[key].windowStart + window
      {
        assert times[1..][i] == times[i + 1];
      }
      IncrementsWithinWindow(next, key, times[1..], window);
    }
  }

  /** `cleanup`: rows whose window started before now minus twice the window are deleted, and only those. */
  function CleanedUp(rows: Windows, now: int, window: int): (r: Windows)
    ensures forall k :: k in r <==> k in rows && !(rows[k].windowStart < now - window * 2)
    ensures forall k :: k in r ==> r[k] == rows[k]
  {
    map k | k in rows && rows[k].windowStart >= now - window * 2 :: rows[k]
  }

  /** Cleanup never deletes a window that the limiter still reads as live. */
  lemma CleanupKeepsLive(rows: Windows, key: WindowKey, now: int, window: int)
    requires window >= 0
    requires key in rows && IsLive(rows[key], now, window)
    ensures key in CleanedUp(rows, now, window)
    ensures CurrentWindow(CleanedUp(rows, now, window), key, now, window) == CurrentWindow(rows, key, now, window)
  {
  }

  /** The rows reset_limit deletes: the key's rows, narrowed to one endpoint when a truthy one is given. */
  predicate ResetMatches(k: WindowKey, apiKeyId: int, endpoint: Option<string>)
  {
    k.apiKeyId == apiKeyId && (IsFalsy(endpoint) || k.endpoint == endpoint.value)
  }

  /** `reset_limit` */
  function ResetRows(rows: Windows, apiKeyId: int, endpoint: Option<string>): (r: Windows)
    ensures forall k :: k in r <==> k in rows && !ResetMatches(k, apiKeyId, endpoint)
    ensures forall k :: k in r ==> r[k] == rows[k]
    ensures forall k :: k in rows && k.apiKeyId != apiKeyId ==> k in r
    ensures !IsFalsy(endpoint) ==> forall k :: k in rows && k.endpoint != endpoint.value ==> k in r
  {
    map k | k in rows && !ResetMatches(k, apiKeyId, endpoint) :: rows[k]
  }

  /** What get_status reports. */
  datatype Status = Status(requestCount: int, limit: int, remaining: int, windowStart: int, windowEnd: int)

  /** `get_api_key_limit`: the key row's rate_limit, or the default when the key has no row. */
  function GetApiKeyLimit(limits: map<int, int>, apiKeyId: int, defaultLimit: int): (l: int)
    ensures apiKeyId in limits ==> l == limits[apiKeyId]
    ensures apiKeyId !in limits ==> l == defaultLimit
  {
    if apiKeyId in limits then limits[apiKeyId] else defaultLimit
  }

  /** `get_status`: with no live window, nothing used and the default limit left; otherwise the key's limit less the window's count. */
  function GetStatus(rows: Windows, limits: map<int, int>, defaultLimit: int, key: WindowKey, now: int, window: int): (s: Status)
    ensures !(key in rows && IsLive(rows[key], now, window)) ==>
      s == Status(0, defaultLimit, defaultLimit, now, now + window)
    ensures key in rows && IsLive(rows[key], now, window) ==>
      s.requestCount == rows[key].requestCount
      && s.limit == GetApiKeyLimit(limits, key.apiKeyId, defaultLimit)
      && s.remaining == (if s.limit >= s.requestCount then s.limit - s.requestCount else 0)
      && s.windowStart == rows[key].windowStart
      && s.windowEnd == s.windowStart + window
  {
    if !(key in rows && IsLive(rows[key], now, window)) then
      Status(0, defaultLimit, defaultLimit, now, now + window)
    else
      var w := rows[key];
      var limit := GetApiKeyLimit(limits, key.apiKeyId, defaultLimit);
      Status(w.requestCount, limit, Max(0, limit - w.requestCount), w.windowStart, w.windowStart + window)
  }

  /** get_status and check_limit agree on what is left when the key's own limit is used. */
  lemma StatusAgreesWithCheck(rows: Windows, limits: map<int, int>, defaultLimit: int, key: WindowKey, now: int, window: int)
    requires key in rows && IsLive(rows[key], now, window)
    ensures var limit := GetApiKeyLimit(limits, key.apiKeyId, defaultLimit);
      GetStatus(rows, limits, defaultLimit, key, now, window).remaining == CheckLimitReport(rows, key, limit, now, window).remaining
  {
  }

  /** The `rate_limits` table. */
  class RateLimitTable {
    var rows: Windows

    constructor(rows: Windows)
      ensures this.rows == rows
    {
      this.rows := rows;
    }

    /** `check_limit` */
    method CheckLimit(apiKeyId: int, endpoint: string, limit: int, now: int, window: int) returns (r: LimitReport)
      modifies this
      ensures r == CheckLimitReport(old(rows), WindowKey(apiKeyId, endpoint), limit, now, window)
      ensures rows == AfterCheck(old(rows), WindowKey(apiKeyId, endpoint), now)
    {
      var key := WindowKey(apiKeyId, endpoint);
      var current: Window;
      if key in rows && rows[key].windowStart >= now - window {
        current := rows[key];
      } else {
        if key !in rows {
          rows := rows[key := Window(0, now)];
        }
        current := Window(0, now);
      }
      r := Report(current, limit, now, window);
    }

    /** `increment_request` */
    method IncrementRequest(apiKeyId: int, endpoint: string, now: int, window: int)
      modifies this
      ensures rows == Incremented(old(rows), WindowKey(apiKeyId, endpoint), now, window)
    {
      rows := Incremented(rows, WindowKey(apiKeyId, endpoint), now, window);
    }

    /** `reset_limit` */
    method ResetLimit(apiKeyId: int, endpoint: Option<string>)
      modifies this
      ensures rows == ResetRows(old(rows), apiKeyId, endpoint)
    {
      rows := ResetRows(rows, apiKeyId, endpoint);
    }

    /** `cleanup` */
    method Cleanup(now: int, window: int)
      modifies this
      ensures rows == CleanedUp(old(rows), now, window)
    {
      rows := CleanedUp(rows, now, window);
    }
  }
}
