/**
 * application/controllers/Cdn.php: the public read of a stored file by its
 * file_key. `time()` is `now`; `file_exists` and `filesize` are the
 * parameters `fileExists` and `fileSize`. `show_404`, `show_error` and the final
 * `exit` end the request, so the decision is a single response value; the
 * bytes `readfile` streams are not modelled.
 */
module CdnController {
  import opened Wrappers
  import opened Strings
  import opened Http
  import opened CdnFiles
  import opened FileModel
  import opened CdnFileModel

  datatype Response =
    | NotFound
    | ShowError(code: int, message: string)
    | Serve(path: string, headers: seq<Header>)

  /** The response headers sent before the file's bytes. */
  function ServeHeaders(row: FileRow, size: int): seq<Header>
  {
    [Header("Content-Type", row.mimeType),
     Header("Content-Length", IntToString(size)),
     Header("Cache-Control", "public, max-age=86400"),
     Header("X-Content-Type-Options", "nosniff")]
  }

  /**
   * `index($file_key)`: the gates in order, the first that fails deciding the
   * response. The expiry test is the strict one getExpiredFiles uses.
   */
  function Index(rows: seq<FileRow>, fileKey: Option<string>, now: int, fcpath: string,
                 fileExists: string -> bool, fileSize: string -> int): (r: Response)
    ensures IsFalsy(fileKey) ==> r == NotFound
    ensures !IsFalsy(fileKey) && GetByKey(rows, fileKey.value).None? ==> r == NotFound
    ensures (!IsFalsy(fileKey) && GetByKey(rows, fileKey.value).Some?
      && IsExpired(GetByKey(rows, fileKey.value).value, now)) ==> r == ShowError(410, "File expired")
    ensures (!IsFalsy(fileKey) && GetByKey(rows, fileKey.value).Some?
      && !IsExpired(GetByKey(rows, fileKey.value).value, now)
      && !GetByKey(rows, fileKey.value).value.isPublic) ==> r == ShowError(403, "Access denied")
    ensures (!IsFalsy(fileKey) && GetByKey(rows, fileKey.value).Some?
      && !IsExpired(GetByKey(rows, fileKey.value).value, now)
      && GetByKey(rows, fileKey.value).value.isPublic
      && !fileExists(FilePath(fcpath, GetByKey(rows, fileKey.value).value))) ==> r == NotFound
    ensures r.Serve? <==> (!IsFalsy(fileKey) && GetByKey(rows, fileKey.value).Some?
      && !IsExpired(GetByKey(rows, fileKey.value).value, now)
      && GetByKey(rows, fileKey.value).value.isPublic
      && fileExists(FilePath(fcpath, GetByKey(rows, fileKey.value).value)))
    ensures r.Serve? ==> r.path == FilePath(fcpath, GetByKey(rows, fileKey.value).value)
    ensures r.Serve? ==> r.headers == ServeHeaders(GetByKey(rows, fileKey.value).value, fileSize(r.path))
  {
    if IsFalsy(fileKey) then NotFound
    else
      var file := GetByKey(rows, fileKey.value);
      if file.None? then NotFound
      else if IsExpired(file.value, now) then ShowError(410, "File expired")
      else if !file.value.isPublic then ShowError(403, "Access denied")
      else
        var path := FilePath(fcpath, file.value);
        if !fileExists(path) then NotFound
        else Serve(path, ServeHeaders(file.value, fileSize(path)))
  }

  /** Expiry is decided before visibility: an expired private file answers 410, not 403. */
  lemma ExpiryBeforeVisibility(rows: seq<FileRow>, key: string, now: int, fcpath: string,
                               fileExists: string -> bool, fileSize: string -> int)
    requires key != "" && key != "0"
    requires GetByKey(rows, key).Some? && !GetByKey(rows, key).value.isPublic
    requires GetByKey(rows, key).value.expiredAt.Some? && GetByKey(rows, key).value.expiredAt.value < now
    ensures Index(rows, Some(key), now, fcpath, fileExists, fileSize) == ShowError(410, "File expired")
  {
  }

  /** A file whose expired_at is exactly now is still served when it is public and present. */
  lemma ExpiringNowServed(rows: seq<FileRow>, key: string, now: int, fcpath: string,
                          fileExists: string -> bool, fileSize: string -> int)
    requires key != "" && key != "0"
    requires GetByKey(rows, key).Some? && GetByKey(rows, key).value.isPublic
    requires GetByKey(rows, key).value.expiredAt == Some(now)
    requires fileExists(FilePath(fcpath, GetByKey(rows, key).value))
    ensures Index(rows, Some(key), now, fcpath, fileExists, fileSize).Serve?
  {
  }

  /**
   * The read does not look at deleted_at: after `Cdn_file_model::softDelete`
   * of any uid, every file_key answers exactly as before.
   */
  lemma SoftDeleteInvisibleToRead(rows: seq<FileRow>, uid: string, deletedAt: int, fileKey: Option<string>,
                                  now: int, fcpath: string, fileExists: string -> bool, fileSize: string -> int)
    ensures Index(SoftDeleted(rows, uid, deletedAt), fileKey, now, fcpath, fileExists, fileSize)
      == Index(rows, fileKey, now, fcpath, fileExists, fileSize)
  {
    if !IsFalsy(fileKey) {
      var after := SoftDeleted(rows, uid, deletedAt);
      FirstWhereCorresponding(after, rows, KeyIs(fileKey.value));
    }
  }
}
