/**
 * The CDN configuration of application/config/cdn.php as constants: the
 * storage layout flags, the custom-folder whitelist and the registry of
 * upload profiles. Items read from `$config['cdn']` that this file does not
 * define (api_prefix, base_url, the signing secret, the rate-limit settings,
 * the log switches) are deployment settings, gathered in `Site`.
 */
module Config {
  import opened Wrappers
  import opened Strings

  const MiB := 1024 * 1024

  datatype Resize = Resize(width: nat, height: nat)

  datatype Profile = Profile(
    isPublic: bool,
    baseFolder: string,
    useYear: bool,
    useMonth: bool,
    useDay: bool,
    maxSize: nat,
    allowedMime: seq<string>,
    autoResize: Option<bool>,
    resize: Option<Resize>)

  const SoalUjian := Profile(true, "lembar-soal", true, true, true, 2 * MiB,
    ["image/jpeg", "image/png", "image/webp", "application/pdf"], None, None)
  const ProfileImage := Profile(true, "avatars/users", true, true, true, 2 * MiB,
    ["image/jpeg", "image/png", "image/webp"], Some(true), Some(Resize(300, 300)))
  const AnswerSheet := Profile(false, "exam/answers", true, true, false, 10 * MiB,
    ["application/pdf", "image/jpeg"], Some(false), None)
  const PublicAsset := Profile(true, "assets", false, false, false, 5 * MiB,
    ["image/*"], None, None)

  /** `$config['cdn']['profiles']` */
  const Profiles: map<string, Profile> := map[
    "soal_ujian" := SoalUjian,
    "profile_image" := ProfileImage,
    "answer_sheet" := AnswerSheet,
    "public_asset" := PublicAsset]

  /** The global storage layout: base_path, the two visibility folders, the date flags and allow_custom_folder. */
  datatype StorageSettings = StorageSettings(
    basePath: string,
    publicFolder: string,
    privateFolder: string,
    useYear: bool,
    useMonth: bool,
    useDay: bool,
    allowCustomFolder: bool)

  const Storage := StorageSettings("storage", "public", "private", true, true, true, true)

  const CdnMaxFileSize := 10 * MiB
  const CdnAllowedTypes := ["jpg", "png", "pdf", "zip"]

  /** The character class of folder_pattern `/^[a-z0-9\/_-]+$/`. */
  predicate FolderChar(c: char)
  {
    'a' <= c <= 'z' || '0' <= c <= '9' || c == '/' || c == '_' || c == '-'
  }

  /** The whole string is one or more characters of the class. */
  predicate FullFolderMatch(s: string)
  {
    |s| > 0 && AllChars(s, FolderChar)
  }

  /**
   * What preg_match reports for folder_pattern: PCRE's `$` (without the D
   * modifier) also matches just before a final newline.
   */
  predicate FolderPatternMatches(s: string)
  {
    FullFolderMatch(s) || (|s| > 0 && s[|s| - 1] == '\n' && FullFolderMatch(s[..|s| - 1]))
  }

  /** Deployment settings the core reads from `$config['cdn']` beyond cdn.php, and FCPATH. */
  datatype Site = Site(
    fcpath: string,
    baseUrl: string,
    apiPrefix: string,
    signedUrlSecret: string,
    defaultRateLimit: int,
    rateLimitWindow: int,
    logUploads: bool,
    logDownloads: bool,
    logErrors: bool)

  lemma RegistryNames()
    ensures Profiles.Keys == {"soal_ujian", "profile_image", "answer_sheet", "public_asset"}
  {
  }

  lemma OnlyAnswerSheetPrivate(name: string)
    requires name in Profiles
    ensures !Profiles[name].isPublic <==> name == "answer_sheet"
  {
  }

  lemma DatePartitioning()
    ensures AnswerSheet.useYear && AnswerSheet.useMonth && !AnswerSheet.useDay
    ensures !PublicAsset.useYear && !PublicAsset.useMonth && !PublicAsset.useDay
    ensures SoalUjian.useYear && SoalUjian.useMonth && SoalUjian.useDay
    ensures ProfileImage.useYear && ProfileImage.useMonth && ProfileImage.useDay
  {
  }

  lemma ProfileImageLimits()
    ensures ProfileImage.maxSize == 2 * 1024 * 1024
    ensures ProfileImage.allowedMime == ["image/jpeg", "image/png", "image/webp"]
    ensures ProfileImage.resize == Some(Resize(300, 300))
    ensures "image/*" in PublicAsset.allowedMime
  {
  }

  /** Every configured base_folder is accepted by folder_pattern, and none contains "..". */
  lemma BaseFoldersWhitelisted(name: string)
    requires name in Profiles
    ensures FullFolderMatch(Profiles[name].baseFolder)
    ensures !ContainsPair(Profiles[name].baseFolder, '.', '.')
  {
    var folder := Profiles[name].baseFolder;
    assert FullFolderMatch(folder);
    forall i | 0 <= i < |folder| ensures folder[i] != '.' {
      assert FolderChar(folder[i]);
    }
  }
}
