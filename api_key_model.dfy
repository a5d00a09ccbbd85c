/**
 * application/models/Api_key_model.php: the `cdn_api_keys` table with its
 * usage counter, as a sequence of rows in table order.
 */
module ApiKeyModel {
  import opened Wrappers

  datatype ApiKeyRow = ApiKeyRow(id: int, apiKey: string, status: string, usageCount: int, rateLimit: int)

  predicate IsActiveMatch(row: ApiKeyRow, key: string)
  {
    row.apiKey == key && row.status == "active"
  }

  /** The first row, from index i on, whose api_key is the key and whose status is 'active'. */
  function FirstActive(rows: seq<ApiKeyRow>, key: string, i: nat): (r: Option<nat>)
    requires i <= |rows|
    ensures r.Some? ==> i <= r.value < |rows| && IsActiveMatch(rows[r.value], key)
    ensures r.Some? ==> forall j :: i <= j < r.value ==> !IsActiveMatch(rows[j], key)
    ensures r.None? ==> forall j :: i <= j < |rows| ==> !IsActiveMatch(rows[j], key)
    decreases |rows| - i
  {
    if i == |rows| then None
    else if IsActiveMatch(rows[i], key) then Some(i)
    else FirstActive(rows, key, i + 1)
  }

  /** `getActiveKey`: the first active row for the key; a null key matches no row. */
  function GetActiveKey(rows: seq<ApiKeyRow>, key: Option<string>): (r: Option<ApiKeyRow>)
    ensures r.Some? ==> key.Some? && r.value in rows && IsActiveMatch(r.value, key.value)
    ensures r.None? ==> key.None? || forall j :: 0 <= j < |rows| ==> !IsActiveMatch(rows[j], key.value)
  {
    if key.None? then None
    else
      var i := FirstActive(rows, key.value, 0);
      if i.None? then None else Some(rows[i.value])
  }

  /** `incrementUsage`: usage_count + 1 on every row with the key, nothing else changed. */
  function UsageIncremented(rows: seq<ApiKeyRow>, key: string): (r: seq<ApiKeyRow>)
    ensures |r| == |rows|
    ensures forall i :: 0 <= i < |rows| && rows[i].apiKey == key ==> r[i] == rows[i].(usageCount := rows[i].usageCount + 1)
    ensures forall i :: 0 <= i < |rows| && rows[i].apiKey != key ==> r[i] == rows[i]
  {
    seq(|rows|, i requires 0 <= i < |rows| =>
      if rows[i].apiKey == key then rows[i].(usageCount := rows[i].usageCount + 1) else rows[i])
  }

  /** A key without a row leaves the table as it was. */
  lemma IncrementUnknownKey(rows: seq<ApiKeyRow>, key: string)
    requires forall i :: 0 <= i < |rows| ==> rows[i].apiKey != key
    ensures UsageIncremented(rows, key) == rows
  {
  }

  /** After an increment the first active row for the key is the same row with one more use. */
  lemma IncrementKeepsActiveRow(rows: seq<ApiKeyRow>, key: string)
    requires GetActiveKey(rows, Some(key)).Some?
    ensures var before := GetActiveKey(rows, Some(key)).value;
      GetActiveKey(UsageIncremented(rows, key), Some(key)) == Some(before.(usageCount := before.usageCount + 1))
  {
    var after := UsageIncremented(rows, key);
    var i := FirstActive(rows, key, 0).value;
    assert forall j :: 0 <= j < |rows| ==> (IsActiveMatch(after[j], key) <==> IsActiveMatch(rows[j], key));
    FirstActiveSame(rows, after, key, 0);
  }

  /** Two tables whose rows match the key at the same places have the same first match. */
  lemma {:induction false} FirstActiveSame(a: seq<ApiKeyRow>, b: seq<ApiKeyRow>, key: string, i: nat)
    requires |a| == |b| && i <= |a|
    requires forall j :: 0 <= j < |a| ==> (IsActiveMatch(a[j], key) <==> IsActiveMatch(b[j], key))
    ensures FirstActive(a, key, i) == FirstActive(b, key, i)
    decreases |a| - i
  {
    if i < |a| && !IsActiveMatch(a[i], key) {
      FirstActiveSame(a, b, key, i + 1);
    }
  }

  /** `resetUsage`: usage_count 0 on every row, no other column touched. */
  function UsageReset(rows: seq<ApiKeyRow>): (r: seq<ApiKeyRow>)
    ensures |r| == |rows|
    ensures forall i :: 0 <= i < |rows| ==> r[i] == rows[i].(usageCount := 0)
  {
    seq(|rows|, i requires 0 <= i < |rows| => rows[i].(usageCount := 0))
  }

  /** The `cdn_api_keys` table. */
  class ApiKeyTable {
    var rows: seq<ApiKeyRow>

    constructor(rows: seq<ApiKeyRow>)
      ensures this.rows == rows
    {
      this.rows := rows;
    }

    /** `incrementUsage` */
    method IncrementUsage(key: string)
      modifies this
      ensures rows == UsageIncremented(old(rows), key)
    {
      rows := UsageIncremented(rows, key);
    }

    /** `resetUsage` */
    method ResetUsage()
      modifies this
      ensures rows == UsageReset(old(rows))
    {
      rows := UsageReset(rows);
    }
  }
}
