/**
 * application/models/File_model.php: the `cdn_files` table seen by
 * file_key. The getters are selections over the rows; insert, deleteById
 * and incrementDownload change the table in place. `date('Y-m-d H:i:s')` is
 * the parameter `now`, and database errors are outside the model except an
 * insert the database refuses, given as `accepted`.
 */
module FileModel {
  import opened Wrappers
  import opened Strings
  import opened CdnFiles

  /** `expired_at IS NULL OR expired_at > now`: the filter of getValidFile. */
  predicate IsUnexpired(row: FileRow, now: int)
  {
    row.expiredAt.None? || row.expiredAt.value > now
  }

  /** `expired_at IS NOT NULL AND expired_at < now`: the filter of getExpiredFiles. */
  predicate IsExpired(row: FileRow, now: int)
  {
    row.expiredAt.Some? && row.expiredAt.value < now
  }

  /** The where-conditions of the queries, as named so that every use is the same condition. */
  function KeyIs(key: string): FileRow -> bool
  {
    (row: FileRow) => row.fileKey == key
  }

  function ValidKey(key: string, now: int): FileRow -> bool
  {
    (row: FileRow) => row.fileKey == key && IsUnexpired(row, now)
  }

  function ExpiredAt(now: int): FileRow -> bool
  {
    (row: FileRow) => IsExpired(row, now)
  }

  function IdIsNot(id: int): FileRow -> bool
  {
    (row: FileRow) => row.id != id
  }

  /** `getByKey`: the first row with the file_key, or none when no row has it. */
  function GetByKey(rows: seq<FileRow>, key: string): (r: Option<FileRow>)
    ensures r.Some? ==> r.value in rows && r.value.fileKey == key
    ensures r.None? <==> forall i :: 0 <= i < |rows| ==> rows[i].fileKey != key
  {
    FirstWhereMeans(rows, KeyIs(key));
    FirstWhere(rows, KeyIs(key))
  }

  /** `getValidFile`: the first row with the file_key whose expired_at is null or strictly after now. */
  function GetValidFile(rows: seq<FileRow>, key: string, now: int): (r: Option<FileRow>)
    ensures r.Some? ==> r.value in rows && r.value.fileKey == key && IsUnexpired(r.value, now)
    ensures r.None? <==> forall i :: 0 <= i < |rows| ==> !(rows[i].fileKey == key && IsUnexpired(rows[i], now))
  {
    FirstWhereMeans(rows, ValidKey(key, now));
    FirstWhere(rows, ValidKey(key, now))
  }

  /**
   * `getExpiredFiles(limit)`: at most limit rows, in table order, each with an
   * expired_at strictly before now; fewer than limit only when no other row qualifies.
   */
  function GetExpiredFiles(rows: seq<FileRow>, limit: nat, now: int): (r: seq<FileRow>)
    ensures |r| <= limit
    ensures forall i :: 0 <= i < |r| ==> r[i] in rows && IsExpired(r[i], now)
    ensures |r| < limit ==> forall i :: 0 <= i < |rows| && IsExpired(rows[i], now) ==> rows[i] in r
  {
    var p := ExpiredAt(now);
    var all := Filter(rows, p);
    assert forall i :: 0 <= i < |all[..Min(limit, |all|)]| ==> all[..Min(limit, |all|)][i] == all[i];
    FilterUpTo(rows, p, limit)
  }

  /** No row is both valid and expired at the same instant, and one expiring exactly now is neither. */
  lemma ValidAndExpiredDisjoint(rows: seq<FileRow>, key: string, limit: nat, now: int)
    ensures GetValidFile(rows, key, now).Some? ==> GetValidFile(rows, key, now).value !in GetExpiredFiles(rows, limit, now)
    ensures forall row :: row in GetExpiredFiles(rows, limit, now) && row.expiredAt == Some(now) ==> false
    ensures GetValidFile(rows, key, now).Some? ==> GetValidFile(rows, key, now).value.expiredAt != Some(now)
  {
    var expired := GetExpiredFiles(rows, limit, now);
    forall i | 0 <= i < |expired|
      ensures !IsUnexpired(expired[i], now) && expired[i].expiredAt != Some(now)
    {
      assert IsExpired(expired[i], now);
    }
  }

  /** A row added under a file_key no other row has is the one getByKey then finds. */
  lemma InsertThenGetByKey(rows: seq<FileRow>, row: FileRow)
    requires forall i :: 0 <= i < |rows| ==> rows[i].fileKey != row.fileKey
    ensures GetByKey(rows + [row], row.fileKey) == Some(row)
  {
    var p := KeyIs(row.fileKey);
    FilterAppend(rows, [row], p);
    FilterNone(rows, p);
    assert Filter([row], p) == [row] by {
      assert [row][1..] == [];
    }
  }

  /** `deleteById`: the rows without that id, in table order. */
  function WithoutId(rows: seq<FileRow>, id: int): (r: seq<FileRow>)
    ensures forall i :: 0 <= i < |r| ==> r[i] in rows && r[i].id != id
    ensures forall i :: 0 <= i < |rows| && rows[i].id != id ==> rows[i] in r
  {
    Filter(rows, IdIsNot(id))
  }

  /** `incrementDownload`: download_count + 1 on the rows with that id, every other column and row unchanged. */
  function DownloadIncremented(rows: seq<FileRow>, id: int): (r: seq<FileRow>)
    ensures |r| == |rows|
    ensures forall i :: 0 <= i < |rows| && rows[i].id == id ==> r[i] == rows[i].(downloadCount := rows[i].downloadCount + 1)
    ensures forall i :: 0 <= i < |rows| && rows[i].id != id ==> r[i] == rows[i]
  {
    seq(|rows|, i requires 0 <= i < |rows| =>
      if rows[i].id == id then rows[i].(downloadCount := rows[i].downloadCount + 1) else rows[i])
  }

  /** A download counted for one file leaves what getByKey finds for any key that file does not carry. */
  lemma IncrementKeepsOtherKeys(rows: seq<FileRow>, id: int, key: string)
    requires forall i :: 0 <= i < |rows| && rows[i].fileKey == key ==> rows[i].id != id
    ensures GetByKey(DownloadIncremented(rows, id), key) == GetByKey(rows, key)
  {
    var after := DownloadIncremented(rows, id);
    FirstWhereAgree(after, rows, KeyIs(key));
  }

  /** `getFilePath`: `FCPATH../storage/<path>/<stored_name>`. */
  function FilePath(fcpath: string, row: FileRow): (p: string)
    ensures StartsWith(p, fcpath + "../storage/" + row.path + "/")
    ensures |p| == |fcpath + "../storage/" + row.path + "/"| + |row.storedName|
    ensures p[|p| - |row.storedName|..] == row.storedName
  {
    var p := fcpath + "../storage/" + row.path + "/" + row.storedName;
    assert p[..|fcpath + "../storage/" + row.path + "/"|] == fcpath + "../storage/" + row.path + "/";
    p
  }

  /** File_model over the shared `cdn_files` table. */
  class Model {
    const table: CdnFilesTable

    constructor(table: CdnFilesTable)
      ensures this.table == table
    {
      this.table := table;
    }

    /** `insert`: the row is appended when the database accepts it, and the result says whether it did. */
    method Insert(row: FileRow, accepted: bool) returns (ok: bool)
      modifies table
      ensures ok == accepted
      ensures table.rows == if accepted then old(table.rows) + [row] else old(table.rows)
    {
      if accepted {
        table.rows := table.rows + [row];
      }
      ok := accepted;
    }

    /** `deleteById` */
    method DeleteById(id: int)
      modifies table
      ensures table.rows == WithoutId(old(table.rows), id)
    {
      table.rows := WithoutId(table.rows, id);
    }

    /** `incrementDownload` */
    method IncrementDownload(id: int)
      modifies table
      ensures table.rows == DownloadIncremented(old(table.rows), id)
    {
      table.rows := DownloadIncremented(table.rows, id);
    }
  }
}
