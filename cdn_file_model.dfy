/**
 * application/models/Cdn_file_model.php: the `cdn_files` table seen by
 * file_uid, with soft deletion. `date('Y-m-d H:i:s')` is the parameter
 * `now`; whether the database inserts the row is the input `accepted`.
 */
module CdnFileModel {
  import opened Wrappers
  import opened CdnFiles

  /** The where-condition of findByUid: the uid, and deleted_at IS NULL. */
  function LiveUid(uid: string): FileRow -> bool
  {
    (row: FileRow) => row.fileUid == uid && row.deletedAt.None?
  }

  /** `findByUid`: the first row with the uid that is not soft-deleted. */
  function FindByUid(rows: seq<FileRow>, uid: string): (r: Option<FileRow>)
    ensures r.Some? ==> r.value in rows && r.value.fileUid == uid && r.value.deletedAt.None?
    ensures r.None? <==> forall i :: 0 <= i < |rows| ==> !(rows[i].fileUid == uid && rows[i].deletedAt.None?)
  {
    FirstWhereMeans(rows, LiveUid(uid));
    FirstWhere(rows, LiveUid(uid))
  }

  /** `softDelete`: deleted_at := now on every row with the uid; no other column, and no other row, changes. */
  function SoftDeleted(rows: seq<FileRow>, uid: string, now: int): (r: seq<FileRow>)
    ensures |r| == |rows|
    ensures forall i :: 0 <= i < |rows| && rows[i].fileUid == uid ==> r[i] == rows[i].(deletedAt := Some(now))
    ensures forall i :: 0 <= i < |rows| && rows[i].fileUid != uid ==> r[i] == rows[i]
  {
    seq(|rows|, i requires 0 <= i < |rows| =>
      if rows[i].fileUid == uid then rows[i].(deletedAt := Some(now)) else rows[i])
  }

  /** After a soft delete the uid is no longer found, although its rows are all still in the table. */
  lemma SoftDeleteHides(rows: seq<FileRow>, uid: string, now: int)
    ensures FindByUid(SoftDeleted(rows, uid, now), uid).None?
    ensures forall i :: 0 <= i < |rows| && rows[i].fileUid == uid ==>
      SoftDeleted(rows, uid, now)[i].fileUid == uid && SoftDeleted(rows, uid, now)[i].deletedAt == Some(now)
  {
  }

  /** A soft delete leaves what findByUid finds for every other uid. */
  lemma SoftDeleteKeepsOthers(rows: seq<FileRow>, uid: string, other: string, now: int)
    requires other != uid
    ensures FindByUid(SoftDeleted(rows, uid, now), other) == FindByUid(rows, other)
  {
    FirstWhereAgree(SoftDeleted(rows, uid, now), rows, LiveUid(other));
  }

  /** Cdn_file_model over the shared `cdn_files` table. */
  class Model {
    const table: CdnFilesTable

    constructor(table: CdnFilesTable)
      ensures this.table == table
    {
      this.table := table;
    }

    /** `create`: true exactly when the insert affected one row, and then the table holds it last. */
    method Create(row: FileRow, accepted: bool) returns (ok: bool)
      modifies table
      ensures ok <==> |table.rows| == |old(table.rows)| + 1
      ensures ok ==> table.rows == old(table.rows) + [row]
      ensures !ok ==> table.rows == old(table.rows)
    {
      var before := |table.rows|;
      if accepted {
        table.rows := table.rows + [row];
      }
      var affectedRows := |table.rows| - before;
      ok := affectedRows == 1;
    }

    /** `softDelete` */
    method SoftDelete(uid: string, now: int)
      modifies table
      ensures table.rows == SoftDeleted(old(table.rows), uid, now)
    {
      table.rows := SoftDeleted(table.rows, uid, now);
    }
  }
}
