/**
 * The `cdn_files` table that application/models/File_model.php (keyed by
 * file_key) and application/models/Cdn_file_model.php (keyed by file_uid)
 * both work on: one record type with both keys, rows in table order, and
 * the row selections the two models' queries make.
 */
module CdnFiles {
  import opened Wrappers

  /** A `cdn_files` row; a NULL expired_at or deleted_at is None, timestamps are integer seconds. */
  datatype FileRow = FileRow(
    id: int,
    fileKey: string,
    fileUid: string,
    path: string,
    storedName: string,
    mimeType: string,
    isPublic: bool,
    expiredAt: Option<int>,
    deletedAt: Option<int>,
    downloadCount: int)

  /** `->where(...)->limit(1)->get()->row()`: the first row, in table order, that satisfies the condition. */
  function FirstWhere(rows: seq<FileRow>, p: FileRow -> bool): (r: Option<FileRow>)
    ensures r == if Filter(rows, p) == [] then None else Some(Filter(rows, p)[0])
  {
    if rows == [] then None
    else if p(rows[0]) then Some(rows[0])
    else FirstWhere(rows[1..], p)
  }

  /** The first match satisfies the condition, and there is none exactly when no row does. */
  lemma FirstWhereMeans(rows: seq<FileRow>, p: FileRow -> bool)
    ensures FirstWhere(rows, p).Some? ==> FirstWhere(rows, p).value in rows && p(FirstWhere(rows, p).value)
    ensures FirstWhere(rows, p).None? <==> forall i :: 0 <= i < |rows| ==> !p(rows[i])
  {
    if FirstWhere(rows, p).None? {
      assert Filter(rows, p) == [];
    }
  }

  /** `->where(...)->get()->result()`: the rows that satisfy the condition, in table order. */
  function Filter(rows: seq<FileRow>, p: FileRow -> bool): (r: seq<FileRow>)
    ensures |r| <= |rows|
    ensures forall i :: 0 <= i < |r| ==> r[i] in rows && p(r[i])
    ensures forall i :: 0 <= i < |rows| && p(rows[i]) ==> rows[i] in r
  {
    if rows == [] then []
    else
      var rest := Filter(rows[1..], p);
      assert forall i :: 0 <= i < |rest| ==> rest[i] in rows by {
        forall i | 0 <= i < |rest| ensures rest[i] in rows {
          assert rest[i] in rows[1..];
        }
      }
      assert forall i :: 1 <= i < |rows| && p(rows[i]) ==> rows[i] in rest by {
        forall i | 1 <= i < |rows| && p(rows[i]) ensures rows[i] in rest {
          assert rows[i] == rows[1..][i - 1];
        }
      }
      if p(rows[0]) then [rows[0]] + rest else rest
  }

  /** Filtering a concatenation filters each part. */
  lemma {:induction false} FilterAppend(a: seq<FileRow>, b: seq<FileRow>, p: FileRow -> bool)
    ensures Filter(a + b, p) == Filter(a, p) + Filter(b, p)
  {
    if a != [] {
      assert (a + b)[0] == a[0] && (a + b)[1..] == a[1..] + b;
      FilterAppend(a[1..], b, p);
      if p(a[0]) {
        assert [a[0]] + (Filter(a[1..], p) + Filter(b, p)) == ([a[0]] + Filter(a[1..], p)) + Filter(b, p);
      }
    } else {
      assert a + b == b;
    }
  }

  /** No row satisfies the condition, so none is selected. */
  lemma {:induction false} FilterNone(rows: seq<FileRow>, p: FileRow -> bool)
    requires forall i :: 0 <= i < |rows| ==> !p(rows[i])
    ensures Filter(rows, p) == []
  {
    if rows != [] {
      FilterNone(rows[1..], p);
    }
  }

  /**
   * Two tables that agree on which positions satisfy the condition, and on the
   * rows at those positions, have the same first match.
   */
  lemma {:induction false} FirstWhereAgree(a: seq<FileRow>, b: seq<FileRow>, p: FileRow -> bool)
    requires |a| == |b|
    requires forall i :: 0 <= i < |a| ==> (p(a[i]) <==> p(b[i]))
    requires forall i :: 0 <= i < |a| && p(a[i]) ==> a[i] == b[i]
    ensures FirstWhere(a, p) == FirstWhere(b, p)
  {
    if a != [] && !p(a[0]) {
      FirstWhereAgree(a[1..], b[1..], p);
    }
  }

  /**
   * Two tables of the same length whose rows satisfy the condition at the same
   * positions select rows at the same position, or both none.
   */
  lemma {:induction false} FirstWhereCorresponding(a: seq<FileRow>, b: seq<FileRow>, p: FileRow -> bool)
    requires |a| == |b|
    requires forall i :: 0 <= i < |a| ==> (p(a[i]) <==> p(b[i]))
    ensures FirstWhere(a, p).None? <==> FirstWhere(b, p).None?
    ensures FirstWhere(a, p).Some? ==>
      exists i :: 0 <= i < |a| && FirstWhere(a, p).value == a[i] && FirstWhere(b, p).value == b[i]
  {
    if a != [] && !p(a[0]) {
      FirstWhereCorresponding(a[1..], b[1..], p);
      if FirstWhere(a, p).Some? {
        var i :| 0 <= i < |a[1..]| && FirstWhere(a[1..], p).value == a[1..][i] && FirstWhere(b[1..], p).value == b[1..][i];
        assert a[i + 1] == a[1..][i] && b[i + 1] == b[1..][i];
      }
    }
  }

  function Min(a: nat, b: nat): nat
  {
    if a <= b then a else b
  }

  /** `->where(...)->limit(n)->get()->result()`: the first n matching rows, scanning the table once and stopping at n. */
  function FilterUpTo(rows: seq<FileRow>, p: FileRow -> bool, limit: nat): (r: seq<FileRow>)
    ensures r == Filter(rows, p)[..Min(limit, |Filter(rows, p)|)]
  {
    if rows == [] || limit == 0 then []
    else if p(rows[0]) then [rows[0]] + FilterUpTo(rows[1..], p, limit - 1)
    else FilterUpTo(rows[1..], p, limit)
  }

  /** The `cdn_files` table. */
  class CdnFilesTable {
    var rows: seq<FileRow>

    constructor(rows: seq<FileRow>)
      ensures this.rows == rows
    {
      this.rows := rows;
    }
  }
}
