/**
 * application/controllers/Api/Upload.php: choosing the upload profile, then
 * admitting a direct file or an image URL and deriving the stored name.
 * What the controller asks of the outside world is an input:
 * `mime_content_type` and `finfo` are the sniffed type and `sniff`,
 * `filter_var` and `gethostbyname` the facts in `UrlChecks`,
 * `file_get_contents` the fetched bytes, `random_bytes(16)` the bytes
 * `random`. Writing the file is left to the path in the reply.
 */
module Upload {
  import opened Wrappers
  import opened Strings
  import opened Config
  import opened Storage

  /** The hard-coded size cap of both upload paths: 5 MiB. */
  const MaxUploadBytes := 5 * MiB

  /** The hard-coded MIME allow-list of both upload paths. */
  const AllowedImageMime := ["image/jpeg", "image/png", "image/webp"]

  /** `$_FILES['file']`: the client's name, the size, and what `mime_content_type` reports for the temporary file. */
  datatype UploadedFile = UploadedFile(name: Option<string>, size: int, sniffedMime: string)

  /** What `filter_var(FILTER_VALIDATE_URL)` says of the URL and `filter_var(FILTER_VALIDATE_IP, no private or reserved range)` of the host's address. */
  datatype UrlChecks = UrlChecks(validUrl: bool, publicAddress: bool)

  /** An error body (always status 400), or the stored file's key, name and target path. */
  datatype Reply = Error(message: string) | Stored(fileKey: string, storedName: string, target: string)

  /** `error()` sets 400; `success()` keeps the default 200. */
  function Status(r: Reply): int
  {
    if r.Error? then 400 else 200
  }

  /** `explode('/', mime)[1]`: the MIME subtype. */
  function Subtype(mime: string): string
  {
    UpTo(After(mime, '/'), '/')
  }

  /** The subtype of "image/x" is x. */
  lemma ImageSubtype(x: string)
    requires '/' !in x
    ensures Subtype("image/" + x) == x
  {
    assert "image/" + x == "image" + ['/'] + x;
    AfterFirst("image", x, '/');
    UpToAbsent(x, '/');
  }

  /** The stored file for an admitted type: `bin2hex(random_bytes(16))`, a dot and the subtype, under the base path. */
  function StoredFile(basePath: string, mime: string, random: seq<byte>): Reply
  {
    var fileKey := Bin2Hex(random);
    var storedName := fileKey + "." + Subtype(mime);
    Stored(fileKey, storedName, basePath + storedName)
  }

  /** What a stored reply promises: a 32-character lowercase hex key, the name key.ext for an allowed type, under the base path. */
  predicate WellFormedStored(r: Reply, basePath: string)
  {
    r.Stored?
    && |r.fileKey| == 32 && AllChars(r.fileKey, IsLowerHexDigit)
    && (r.storedName == r.fileKey + ".jpeg" || r.storedName == r.fileKey + ".png" || r.storedName == r.fileKey + ".webp")
    && r.target == basePath + r.storedName
  }

  /** The subtypes of the three allowed types. */
  lemma AllowedSubtypes()
    ensures Subtype("image/jpeg") == "jpeg" && Subtype("image/png") == "png" && Subtype("image/webp") == "webp"
  {
    ImageSubtype("jpeg");
    assert "image/" + "jpeg" == "image/jpeg";
    ImageSubtype("png");
    assert "image/" + "png" == "image/png";
    ImageSubtype("webp");
    assert "image/" + "webp" == "image/webp";
  }

  lemma NamedWithExtension(key: string, ext: string)
    requires ext == "jpeg" || ext == "png" || ext == "webp"
    ensures key + "." + ext == key + ".jpeg" || key + "." + ext == key + ".png" || key + "." + ext == key + ".webp"
  {
    assert key + "." + ext == key + ("." + ext);
    if ext == "jpeg" {
      assert "." + ext == ".jpeg";
    } else if ext == "png" {
      assert "." + ext == ".png";
    } else {
      assert "." + ext == ".webp";
    }
  }

  lemma StoredFileWellFormed(basePath: string, mime: string, random: seq<byte>)
    requires |random| == 16 && mime in AllowedImageMime
    ensures WellFormedStored(StoredFile(basePath, mime, random), basePath)
  {
    assert Subtype(mime) == "jpeg" || Subtype(mime) == "png" || Subtype(mime) == "webp" by {
      AllowedSubtypes();
    }
    NamedWithExtension(Bin2Hex(random), Subtype(mime));
  }

  /** `uploadFromFile`: the size gate, then the type gate, then the stored name. */
  function FromFile(basePath: string, file: UploadedFile, random: seq<byte>): (r: Reply)
    requires |random| == 16
    ensures file.size > MaxUploadBytes ==> r == Error("File too large")
    ensures file.size <= MaxUploadBytes && file.sniffedMime !in AllowedImageMime ==> r == Error("Invalid file type")
    ensures r.Stored? <==> file.size <= MaxUploadBytes && file.sniffedMime in AllowedImageMime
    ensures r.Stored? ==> r == StoredFile(basePath, file.sniffedMime, random) && WellFormedStored(r, basePath)
  {
    if file.size > MaxUploadBytes then Error("File too large")
    else if file.sniffedMime !in AllowedImageMime then Error("Invalid file type")
    else
      StoredFileWellFormed(basePath, file.sniffedMime, random);
      StoredFile(basePath, file.sniffedMime, random)
  }

  /** `!$data`: false, "" and "0" all count as a failed download. */
  predicate FailedDownload(data: Option<seq<byte>>)
  {
    data.None? || data.value == [] || data.value == ['0' as byte]
  }

  /** The scheme test `#^https?://#`. */
  predicate HttpScheme(url: string)
  {
    StartsWith(url, "http://") || StartsWith(url, "https://")
  }

  /** The three URL gates that precede any fetch, as the first message they produce, if any. */
  function UrlGate(url: string, checks: UrlChecks): (r: Option<string>)
    ensures r.None? <==> checks.validUrl && HttpScheme(url) && checks.publicAddress
  {
    if !checks.validUrl then Some("Invalid URL")
    else if !HttpScheme(url) then Some("Only http/https allowed")
    else if !checks.publicAddress then Some("Private IP not allowed")
    else None
  }

  /** `uploadFromUrl`: the URL gates, then the download, the size and the sniffed type, then the stored name. */
  function FromUrl(basePath: string, url: string, checks: UrlChecks, fetched: Option<seq<byte>>,
                   sniff: seq<byte> -> string, random: seq<byte>): (r: Reply)
    requires |random| == 16
    ensures !checks.validUrl ==> r == Error("Invalid URL")
    ensures checks.validUrl && !HttpScheme(url) ==> r == Error("Only http/https allowed")
    ensures checks.validUrl && HttpScheme(url) && !checks.publicAddress ==> r == Error("Private IP not allowed")
    ensures UrlGate(url, checks).None? && FailedDownload(fetched) ==> r == Error("Failed to download image")
    ensures (UrlGate(url, checks).None? && !FailedDownload(fetched)
      && |fetched.value| > MaxUploadBytes) ==> r == Error("Image too large")
    ensures (UrlGate(url, checks).None? && !FailedDownload(fetched) && |fetched.value| <= MaxUploadBytes
      && sniff(fetched.value) !in AllowedImageMime) ==> r == Error("Invalid image type")
    ensures r.Stored? <==> (UrlGate(url, checks).None? && !FailedDownload(fetched)
      && |fetched.value| <= MaxUploadBytes && sniff(fetched.value) in AllowedImageMime)
    ensures r.Stored? ==> r == StoredFile(basePath, sniff(fetched.value), random) && WellFormedStored(r, basePath)
  {
    var gate := UrlGate(url, checks);
    if gate.Some? then Error(gate.value)
    else if FailedDownload(fetched) then Error("Failed to download image")
    else if |fetched.value| > MaxUploadBytes then Error("Image too large")
    else if sniff(fetched.value) !in AllowedImageMime then Error("Invalid image type")
    else
      StoredFileWellFormed(basePath, sniff(fetched.value), random);
      StoredFile(basePath, sniff(fetched.value), random)
  }

  /** A URL refused by one of its three gates is refused whatever a fetch would have returned. */
  lemma RejectedBeforeFetch(basePath: string, url: string, checks: UrlChecks,
                            fetched1: Option<seq<byte>>, sniff1: seq<byte> -> string,
                            fetched2: Option<seq<byte>>, sniff2: seq<byte> -> string, random: seq<byte>)
    requires |random| == 16
    requires UrlGate(url, checks).Some?
    ensures FromUrl(basePath, url, checks, fetched1, sniff1, random) == FromUrl(basePath, url, checks, fetched2, sniff2, random)
    ensures FromUrl(basePath, url, checks, fetched1, sniff1, random) == Error(UrlGate(url, checks).value)
  {
  }

  /** `cdn_profile($this->input->post('profile'))`: a missing field looks up the key "". */
  function ProfileKey(name: Option<string>): string
  {
    if name.None? then "" else name.value
  }

  /** `!empty($_FILES['file']['name'])` */
  predicate HasFile(file: Option<UploadedFile>)
  {
    file.Some? && !IsFalsy(file.value.name)
  }

  /** The form fields and the outside world's answers for one upload request. */
  datatype UploadRequest = UploadRequest(
    profile: Option<string>,
    file: Option<UploadedFile>,
    imageUrl: Option<string>,
    checks: UrlChecks,
    fetched: Option<seq<byte>>)

  /** `index()`: the profile, then the file if one was sent, else the URL if one was given. */
  function UploadReply(fcpath: string, d: Date, req: UploadRequest, sniff: seq<byte> -> string, random: seq<byte>): (r: Reply)
    requires ValidDate(d) && |random| == 16
    ensures CdnProfile(ProfileKey(req.profile)).None? ==> r == Error("Invalid upload profile")
    ensures (CdnProfile(ProfileKey(req.profile)).Some? && !HasFile(req.file)
      && IsFalsy(req.imageUrl)) ==> r == Error("file or image_url is required")
    ensures (CdnProfile(ProfileKey(req.profile)).Some? && !HasFile(req.file) && !IsFalsy(req.imageUrl)) ==>
      r == FromUrl(ProfilePath(fcpath, CdnProfile(ProfileKey(req.profile)).value, d), req.imageUrl.value,
                   req.checks, req.fetched, sniff, random)
    ensures (r.Stored? && HasFile(req.file)) ==>
      WellFormedStored(r, ProfilePath(fcpath, CdnProfile(ProfileKey(req.profile)).value, d))
    ensures r.Stored? ==> CdnProfile(ProfileKey(req.profile)).Some?
    ensures (r.Stored? && !HasFile(req.file)) ==>
      WellFormedStored(r, ProfilePath(fcpath, CdnProfile(ProfileKey(req.profile)).value, d))
  {
    var profile := CdnProfile(ProfileKey(req.profile));
    if profile.None? then Error("Invalid upload profile")
    else
      var basePath := ProfilePath(fcpath, profile.value, d);
      if HasFile(req.file) then FromFile(basePath, req.file.value, random)
      else if !IsFalsy(req.imageUrl) then FromUrl(basePath, req.imageUrl.value, req.checks, req.fetched, sniff, random)
      else Error("file or image_url is required")
  }

  /** The upload answers 200 exactly when a file was stored, which needs a known profile; every error answers 400. */
  lemma UploadStatus(fcpath: string, d: Date, req: UploadRequest, sniff: seq<byte> -> string, random: seq<byte>)
    requires ValidDate(d) && |random| == 16
    ensures var r := UploadReply(fcpath, d, req, sniff, random);
      (Status(r) == 200 <==> r.Stored?) && (Status(r) == 400 <==> r.Error?)
      && (CdnProfile(ProfileKey(req.profile)).None? ==> Status(r) == 400)
  {
  }

  /** A file that was sent decides the reply alone: the image_url field and everything about it are ignored. */
  lemma FileTakesPrecedence(fcpath: string, d: Date, req: UploadRequest, imageUrl: Option<string>, checks: UrlChecks,
                            fetched: Option<seq<byte>>, sniff: seq<byte> -> string, random: seq<byte>)
    requires ValidDate(d) && |random| == 16
    requires CdnProfile(ProfileKey(req.profile)).Some? && HasFile(req.file)
    ensures UploadReply(fcpath, d, req, sniff, random)
      == UploadReply(fcpath, d, req.(imageUrl := imageUrl, checks := checks, fetched := fetched), sniff, random)
    ensures UploadReply(fcpath, d, req, sniff, random)
      == FromFile(ProfilePath(fcpath, CdnProfile(ProfileKey(req.profile)).value, d), req.file.value, random)
  {
  }

  /** The size gate's boundary: exactly 5 MiB passes it, one byte more fails whatever the type, in both paths. */
  lemma SizeBoundary(basePath: string, name: Option<string>, mime: string, url: string, data: seq<byte>,
                     sniff: seq<byte> -> string, random: seq<byte>)
    requires |random| == 16
    requires |data| == MaxUploadBytes + 1 && data[..MaxUploadBytes] != [] && data[..MaxUploadBytes] != ['0' as byte]
    ensures FromFile(basePath, UploadedFile(name, MaxUploadBytes + 1, mime), random) == Error("File too large")
    ensures mime in AllowedImageMime ==> FromFile(basePath, UploadedFile(name, MaxUploadBytes, mime), random).Stored?
    ensures HttpScheme(url) ==> FromUrl(basePath, url, UrlChecks(true, true), Some(data), sniff, random) == Error("Image too large")
    ensures (HttpScheme(url) && sniff(data[..MaxUploadBytes]) in AllowedImageMime) ==>
      FromUrl(basePath, url, UrlChecks(true, true), Some(data[..MaxUploadBytes]), sniff, random).Stored?
  {
    assert data != [] && data != ['0' as byte] by {
      assert |data| > 1;
    }
  }

  /**
   * A stored upload lands below FCPATH in "storage/public/" or
   * "storage/private/" by the profile's visibility, then its base folder, and
   * the path below FCPATH holds only whitelisted characters up to the stored name.
   */
  lemma StoredUnderProfile(fcpath: string, d: Date, req: UploadRequest, sniff: seq<byte> -> string, random: seq<byte>)
    requires ValidDate(d) && |random| == 16
    requires UploadReply(fcpath, d, req, sniff, random).Stored?
    ensures var profile := CdnProfile(ProfileKey(req.profile)).value;
      var r := UploadReply(fcpath, d, req, sniff, random);
      StartsWith(r.target, fcpath + ProfilePrefix(profile))
      && r.target == ProfilePath(fcpath, profile, d) + r.storedName
      && AllChars(ProfilePath(fcpath, profile, d)[|fcpath|..], FolderChar)
  {
    var name := ProfileKey(req.profile);
    var profile := CdnProfile(name).value;
    RegistryProfilesClean(name);
    ProfilePathLayout(fcpath, profile, d);
    var r := UploadReply(fcpath, d, req, sniff, random);
    var base := ProfilePath(fcpath, profile, d);
    assert StartsWith(base, fcpath + ProfilePrefix(profile));
    assert r.target == base + r.storedName;
    assert r.target[..|fcpath + ProfilePrefix(profile)|] == base[..|fcpath + ProfilePrefix(profile)|];
  }

  /** The controller and the base path `index()` records before choosing a path. */
  class UploadController {
    var basePath: string

    constructor()
      ensures basePath == ""
    {
      basePath := "";
    }

    /** `index()`: the base path is set once the profile is known, and the reply is the one the gates decide. */
    method Index(fcpath: string, d: Date, req: UploadRequest, sniff: seq<byte> -> string, random: seq<byte>)
      returns (reply: Reply)
      requires ValidDate(d) && |random| == 16
      modifies this
      ensures reply == UploadReply(fcpath, d, req, sniff, random)
      ensures CdnProfile(ProfileKey(req.profile)).Some? ==>
        basePath == ProfilePath(fcpath, CdnProfile(ProfileKey(req.profile)).value, d)
      ensures CdnProfile(ProfileKey(req.profile)).None? ==> basePath == old(basePath)
    {
      var profile := CdnProfile(ProfileKey(req.profile));
      if profile.None? {
        return Error("Invalid upload profile");
      }
      basePath := CdnProfilePath(fcpath, profile.value, d);
      if HasFile(req.file) {
        reply := UploadFromFile(req.file.value, random);
        return;
      }
      if !IsFalsy(req.imageUrl) {
        reply := UploadFromUrl(req.imageUrl.value, req.checks, req.fetched, sniff, random);
        return;
      }
      reply := Error("file or image_url is required");
    }

    /** `uploadFromFile`, under the recorded base path. */
    method UploadFromFile(file: UploadedFile, random: seq<byte>) returns (reply: Reply)
      requires |random| == 16
      ensures reply == FromFile(basePath, file, random)
    {
      if file.size > MaxUploadBytes {
        return Error("File too large");
      }
      var mime := file.sniffedMime;
      if mime !in AllowedImageMime {
        return Error("Invalid file type");
      }
      var ext := Subtype(mime);
      var fileKey := Bin2Hex(random);
      var filename := fileKey + "." + ext;
      reply := Stored(fileKey, filename, basePath + filename);
    }

    /** `uploadFromUrl`, under the recorded base path. */
    method UploadFromUrl(url: string, checks: UrlChecks, fetched: Option<seq<byte>>, sniff: seq<byte> -> string,
                         random: seq<byte>) returns (reply: Reply)
      requires |random| == 16
      ensures reply == FromUrl(basePath, url, checks, fetched, sniff, random)
    {
      if !checks.validUrl {
        return Error("Invalid URL");
      }
      if !HttpScheme(url) {
        return Error("Only http/https allowed");
      }
      if !checks.publicAddress {
        return Error("Private IP not allowed");
      }
      if FailedDownload(fetched) {
        return Error("Failed to download image");
      }
      var data := fetched.value;
      if |data| > MaxUploadBytes {
        return Error("Image too large");
      }
      var mime := sniff(data);
      if mime !in AllowedImageMime {
        return Error("Invalid image type");
      }
      var ext := Subtype(mime);
      var fileKey := Bin2Hex(random);
      var filename := fileKey + "." + ext;
      reply := Stored(fileKey, filename, basePath + filename);
    }
  }
}
