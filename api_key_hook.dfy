/**
 * application/hooks/ApiKeyHook.php: the hook-based admission chain over the
 * `cdn_api_keys` table, with its simple usage quota. A rejection ends the
 * request (`exit` after the JSON body, `show_error` in the constructor), so
 * it is modelled as an outcome after which nothing else changes.
 */
module ApiKeyHook {
  import opened Wrappers
  import opened Strings
  import opened ApiKeyModel

  /** The outcome of `check()`: nothing to do, a rejection, or an accepted key row. */
  datatype Decision = Skip | Reject(code: int, message: string) | Accept(row: ApiKeyRow)

  /** The gate chain of `check()`, first failing gate first. */
  function CheckDecision(rows: seq<ApiKeyRow>, uri: string, header: Option<string>): (d: Decision)
    ensures !StartsWith(uri, "api/") ==> d == Skip
    ensures StartsWith(uri, "api/") && IsFalsy(header) ==> d == Reject(401, "API Key required")
    ensures StartsWith(uri, "api/") && !IsFalsy(header) && GetActiveKey(rows, header).None? ==>
      d == Reject(401, "Invalid API Key")
    ensures (StartsWith(uri, "api/") && !IsFalsy(header) && GetActiveKey(rows, header).Some?
      && GetActiveKey(rows, header).value.usageCount >= GetActiveKey(rows, header).value.rateLimit) ==>
      d == Reject(429, "Rate limit exceeded")
    ensures d.Accept? <==> (StartsWith(uri, "api/") && !IsFalsy(header) && GetActiveKey(rows, header).Some?
      && GetActiveKey(rows, header).value.usageCount < GetActiveKey(rows, header).value.rateLimit)
    ensures d.Accept? ==> Some(d.row) == GetActiveKey(rows, header)
    ensures d.Reject? ==> d.code == 401 || d == Reject(429, "Rate limit exceeded")
  {
    if !StartsWith(uri, "api/") then Skip
    else if IsFalsy(header) then Reject(401, "API Key required")
    else
      var key := GetActiveKey(rows, header);
      if key.None? then Reject(401, "Invalid API Key")
      else if key.value.usageCount >= key.value.rateLimit then Reject(429, "Rate limit exceeded")
      else Accept(key.value)
  }

  /** The usage table after one `check()`: incremented by the presented key only when the request is accepted. */
  function AfterCheck(rows: seq<ApiKeyRow>, uri: string, header: Option<string>): seq<ApiKeyRow>
  {
    if CheckDecision(rows, uri, header).Accept? then UsageIncremented(rows, header.value) else rows
  }

  /** How many of n consecutive `check()` calls with the same URI and key are accepted. */
  function AcceptedCount(rows: seq<ApiKeyRow>, uri: string, key: string, n: nat): nat
    decreases n
  {
    if n == 0 then 0
    else
      var accepted := if CheckDecision(rows, uri, Some(key)).Accept? then 1 else 0;
      accepted + AcceptedCount(AfterCheck(rows, uri, Some(key)), uri, key, n - 1)
  }

  function Min(a: int, b: int): int
  {
    if a <= b then a else b
  }

  /**
   * The quota: of n consecutive API requests with a known active key, exactly
   * as many are accepted as its rate_limit leaves above its usage_count.
   */
  lemma {:induction false} UsageQuota(rows: seq<ApiKeyRow>, uri: string, key: string, n: nat)
    requires StartsWith(uri, "api/") && key != "" && key != "0"
    requires GetActiveKey(rows, Some(key)).Some?
    ensures var row := GetActiveKey(rows, Some(key)).value;
      AcceptedCount(rows, uri, key, n) == Min(n, if row.rateLimit > row.usageCount then row.rateLimit - row.usageCount else 0)
    decreases n
  {
    if n > 0 {
      var row := GetActiveKey(rows, Some(key)).value;
      if row.usageCount < row.rateLimit {
        IncrementKeepsActiveRow(rows, key);
        UsageQuota(UsageIncremented(rows, key), uri, key, n - 1);
      } else {
        UsageQuota(rows, uri, key, n - 1);
      }
    }
  }

  /** The hook and the CodeIgniter instance fields it sets. */
  class ApiKeyHook {
    const keys: ApiKeyTable
    var apiKeyId: Option<int>
    var apiKey: Option<string>
    var apiKeyData: Option<ApiKeyRow>
    /** The rejection that ended the request, if any. */
    var ended: Option<Decision>

    /** The constructor: without an active row for the header key the request ends with 401, whatever the URI. */
    constructor(keys: ApiKeyTable, header: Option<string>)
      ensures this.keys == keys && apiKeyData == None
      ensures GetActiveKey(keys.rows, header).None? ==>
        ended == Some(Reject(401, "Invalid API Key")) && apiKeyId == None && apiKey == None
      ensures GetActiveKey(keys.rows, header).Some? ==>
        ended == None && apiKeyId == Some(GetActiveKey(keys.rows, header).value.id)
        && apiKey == Some(GetActiveKey(keys.rows, header).value.apiKey)
    {
      this.keys := keys;
      apiKeyData := None;
      var row := GetActiveKey(keys.rows, header);
      if row.None? {
        ended := Some(Reject(401, "Invalid API Key"));
        apiKeyId, apiKey := None, None;
      } else {
        ended := None;
        apiKeyId, apiKey := Some(row.value.id), Some(row.value.apiKey);
      }
    }

    /** `check()`: on acceptance, one more use of the presented key and the row attached; otherwise no change. */
    method Check(uri: string, header: Option<string>) returns (d: Decision)
      requires ended == None
      modifies this, keys
      ensures d == CheckDecision(old(keys.rows), uri, header)
      ensures keys.rows == AfterCheck(old(keys.rows), uri, header)
      ensures d.Accept? ==> apiKeyData == Some(d.row) && ended == None
      ensures d.Reject? ==> ended == Some(d) && apiKeyData == old(apiKeyData)
      ensures d.Skip? ==> ended == None && apiKeyData == old(apiKeyData)
      ensures apiKeyId == old(apiKeyId) && apiKey == old(apiKey)
    {
      if !StartsWith(uri, "api/") {
        return Skip;
      }
      if IsFalsy(header) {
        d := Reject(401, "API Key required");
        ended := Some(d);
        return;
      }
      var key := GetActiveKey(keys.rows, header);
      if key.None? {
        d := Reject(401, "Invalid API Key");
        ended := Some(d);
        return;
      }
      if key.value.usageCount >= key.value.rateLimit {
        d := Reject(429, "Rate limit exceeded");
        ended := Some(d);
        return;
      }
      keys.IncrementUsage(header.value);
      apiKeyData := key;
      d := Accept(key.value);
    }
  }
}
