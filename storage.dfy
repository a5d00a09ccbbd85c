/**
 * application/helpers/storage_helper.php: the custom-folder sanitiser, the
 * profile lookup and the two storage-path builders. The date parts that
 * `date('Y')`, `date('m')` and `date('d')` read from the clock are a `Date`
 * parameter.
 */
module Storage {
  import opened Wrappers
  import opened Strings
  import opened Config

  datatype Date = Date(year: nat, month: nat, day: nat)

  /** A calendar date with a four-digit year, as the clock reports it. */
  predicate ValidDate(d: Date)
  {
    1000 <= d.year <= 9999 && 1 <= d.month <= 12 && 1 <= d.day <= 31
  }

  function YearText(d: Date): string
  {
    NatToString(d.year)
  }

  function MonthText(d: Date): string
    requires ValidDate(d)
  {
    TwoDigits(d.month)
  }

  function DayText(d: Date): string
    requires ValidDate(d)
  {
    TwoDigits(d.day)
  }

  /** One segment when its flag is on, none otherwise. */
  function Optional(on: bool, seg: string): seq<string>
  {
    if on then [seg] else []
  }

  /** The enabled date segments, always in the order year, month, day. */
  function DateSegments(useYear: bool, useMonth: bool, useDay: bool, d: Date): seq<string>
    requires ValidDate(d)
  {
    Optional(useYear, YearText(d)) + Optional(useMonth, MonthText(d)) + Optional(useDay, DayText(d))
  }

  /** Each date segment is a non-empty run of digits, so the folder whitelist admits it. */
  lemma DateSegmentsWhitelisted(useYear: bool, useMonth: bool, useDay: bool, d: Date)
    requires ValidDate(d)
    ensures var segs := DateSegments(useYear, useMonth, useDay, d);
      |segs| == (if useYear then 1 else 0) + (if useMonth then 1 else 0) + (if useDay then 1 else 0)
      && forall j :: 0 <= j < |segs| ==> FullFolderMatch(segs[j]) && IsDecimalDigit(segs[j][0]) && IsDecimalDigit(segs[j][|segs[j]| - 1])
  {
    var segs := DateSegments(useYear, useMonth, useDay, d);
    forall j | 0 <= j < |segs|
      ensures FullFolderMatch(segs[j]) && IsDecimalDigit(segs[j][0]) && IsDecimalDigit(segs[j][|segs[j]| - 1])
    {
      assert segs[j] in [YearText(d), MonthText(d), DayText(d)];
    }
  }

  lemma DigitsAreFolderChars(s: string)
    requires |s| > 0 && AllChars(s, IsDecimalDigit)
    ensures FullFolderMatch(s)
  {
  }

  lemma FolderCharsNoParent(s: string)
    ensures AllChars(s, FolderChar) ==> !ContainsPair(s, '.', '.')
  {
    if AllChars(s, FolderChar) {
      forall i | 0 <= i < |s| - 1 ensures s[i] != '.' {
        assert FolderChar(s[i]);
      }
    }
  }

  /**
   * `cdn_safe_folder` as written: the pattern test is PCRE's, whose `$` also
   * accepts a string that ends in one newline after the whitelisted characters.
   */
  function SafeFolderAsWritten(folder: Option<string>): Option<string>
  {
    if IsFalsy(folder) then None
    else
      var f := Trim(folder.value, '/');
      if ContainsPair(f, '.', '.') then None
      else if !FolderPatternMatches(f) then None
      else Some(f)
  }

  /**
   * Any whitelisted folder not starting with '/' passes `cdn_safe_folder`
   * with a trailing newline appended, and the newline is kept in the result.
   */
  lemma NewlineFolderAccepted(s: string)
    requires FullFolderMatch(s) && s[0] != '/'
    ensures SafeFolderAsWritten(Some(s + "\n")) == Some(s + "\n")
    ensures !AllChars(s + "\n", FolderChar)
  {
    var t := s + "\n";
    assert t[|t| - 1] == '\n' && t[0] == s[0];
    assert t != "" && t != "0" by { assert |t| >= 2; }
    assert Trim(t, '/') == t by { TrimUntouched(t, '/'); }
    assert t[..|t| - 1] == s;
    assert !ContainsPair(t, '.', '.') by {
      forall i | 0 <= i < |t| - 1 ensures t[i] != '.' {
        assert t[i] == s[i] && FolderChar(s[i]);
      }
    }
  }

  /**
   * `cdn_safe_folder` with the whitelist matched against the whole string,
   * as the pattern intends: the trimmed input when it is made only of
   * `[a-z0-9/_-]`, otherwise null.
   */
  function SafeFolder(folder: Option<string>): (r: Option<string>)
    ensures r.Some? <==> !IsFalsy(folder) && FullFolderMatch(Trim(folder.value, '/'))
    ensures r.Some? ==> r.value == Trim(folder.value, '/')
    ensures r.Some? ==> FullFolderMatch(r.value) && !ContainsPair(r.value, '.', '.')
    ensures r.Some? ==> r.value[0] != '/' && r.value[|r.value| - 1] != '/'
  {
    if IsFalsy(folder) then None
    else
      var f := Trim(folder.value, '/');
      FolderCharsNoParent(f);
      if ContainsPair(f, '.', '.') then None
      else if !FullFolderMatch(f) then None
      else Some(f)
  }

  /** Sanitising an accepted folder again returns it unchanged, except for "0", which PHP reads as false. */
  lemma SafeFolderIdempotent(folder: Option<string>)
    requires SafeFolder(folder).Some? && SafeFolder(folder).value != "0"
    ensures SafeFolder(SafeFolder(folder)) == SafeFolder(folder)
  {
    TrimUntouched(SafeFolder(folder).value, '/');
  }

  /** "0/" sanitises to "0", and "0" itself is rejected as falsy. */
  lemma SafeFolderZero()
    ensures SafeFolder(Some("0/")) == Some("0")
    ensures SafeFolder(Some("0")) == None
  {
    assert TrimLeft("0/", '/') == "0/";
    assert "0/"[..1] == "0";
    assert TrimRight("0/", '/') == "0";
    assert FullFolderMatch("0");
  }

  /** `cdn_profile(name)`: the registry entry for a known name, null otherwise. */
  function CdnProfile(name: string): (r: Option<Profile>)
    ensures r.Some? <==> name in Profiles
    ensures r.Some? ==> r.value == Profiles[name]
  {
    if name in Profiles then Some(Profiles[name]) else None
  }

  /**
   * The custom folder segment: present exactly when custom folders are
   * allowed, the folder is truthy and its sanitised value is truthy, and then
   * that value.
   */
  function CustomSegment(cfg: StorageSettings, customFolder: Option<string>): (segs: seq<string>)
    ensures |segs| <= 1
    ensures segs != [] ==> cfg.allowCustomFolder && SafeFolder(customFolder).Some? && segs == [SafeFolder(customFolder).value]
    ensures cfg.allowCustomFolder && !IsFalsy(customFolder) && !IsFalsy(SafeFolder(customFolder)) ==>
      segs == [SafeFolder(customFolder).value]
  {
    if cfg.allowCustomFolder && !IsFalsy(customFolder) && !IsFalsy(SafeFolder(customFolder))
    then [SafeFolder(customFolder).value] else []
  }

  /** The segments every storage path starts with: base, visibility folder, then the enabled date parts. */
  function LayoutSegments(cfg: StorageSettings, isPublic: bool, d: Date): seq<string>
    requires ValidDate(d)
  {
    [TrimRight(cfg.basePath, '/'), if isPublic then cfg.publicFolder else cfg.privateFolder]
      + DateSegments(cfg.useYear, cfg.useMonth, cfg.useDay, d)
  }

  /** The segments of a storage path: the layout, then the custom folder. */
  function StorageSegments(cfg: StorageSettings, isPublic: bool, customFolder: Option<string>, d: Date): seq<string>
    requires ValidDate(d)
  {
    LayoutSegments(cfg, isPublic, d) + CustomSegment(cfg, customFolder)
  }

  /** The directory `cdn_storage_path` denotes: FCPATH, the segments joined by '/' and trimmed of '/', then '/'. */
  function StoragePath(fcpath: string, cfg: StorageSettings, isPublic: bool, customFolder: Option<string>, d: Date): string
    requires ValidDate(d)
  {
    fcpath + Trim(JoinSlash(StorageSegments(cfg, isPublic, customFolder, d)), '/') + "/"
  }

  lemma JoinPair(a: string, b: string)
    ensures JoinSlash([a, b]) == a + "/" + b
  {
    assert [a, b][1..] == [b];
  }

  /** Appending `'/' . implode('/', more)` when more is non-empty joins one list after the other. */
  lemma AppendJoined(done: seq<string>, path: string, more: seq<string>)
    requires |done| > 0 && path == JoinSlash(done)
    ensures (if |more| > 0 then path + "/" + JoinSlash(more) else path) == JoinSlash(done + more)
  {
    if |more| > 0 {
      JoinSlashAppend(done, more);
    } else {
      assert done + more == done;
    }
  }

  /** `cdn_storage_path`, building the path by successive appends as the helper does. */
  method CdnStoragePath(fcpath: string, cfg: StorageSettings, isPublic: bool, customFolder: Option<string>, d: Date)
    returns (p: string)
    requires ValidDate(d)
    ensures p == StoragePath(fcpath, cfg, isPublic, customFolder, d)
  {
    var head := [TrimRight(cfg.basePath, '/'), if isPublic then cfg.publicFolder else cfg.privateFolder];
    var path := TrimRight(cfg.basePath, '/') + "/";
    path := path + (if isPublic then cfg.publicFolder else cfg.privateFolder);
    JoinPair(head[0], head[1]);

    // `$segments[] = date(...)` for each enabled flag
    var segments: seq<string> := [];
    segments := segments + Optional(cfg.useYear, YearText(d));
    segments := segments + Optional(cfg.useMonth, MonthText(d));
    segments := segments + Optional(cfg.useDay, DayText(d));
    assert segments == DateSegments(cfg.useYear, cfg.useMonth, cfg.useDay, d);

    AppendJoined(head, path, segments);
    if |segments| > 0 {
      path := path + "/" + JoinSlash(segments);
    }

    var custom := CustomSegment(cfg, customFolder);
    AppendJoined(head + segments, path, custom);
    if cfg.allowCustomFolder && !IsFalsy(customFolder) {
      var safe := SafeFolder(customFolder);
      if !IsFalsy(safe) {
        assert JoinSlash(custom) == safe.value;
        path := path + "/" + safe.value;
      }
    }
    assert path == JoinSlash(head + segments + custom);
    assert head + segments + custom == StorageSegments(cfg, isPublic, customFolder, d);
    p := fcpath + Trim(path, '/') + "/";
  }

  /** An unsafe or falsy custom folder is dropped without error: the path is the one built without it. */
  lemma UnsafeFolderDropped(fcpath: string, cfg: StorageSettings, isPublic: bool, customFolder: Option<string>, d: Date)
    requires ValidDate(d)
    requires SafeFolder(customFolder).None? || !cfg.allowCustomFolder
    ensures StoragePath(fcpath, cfg, isPublic, customFolder, d) == StoragePath(fcpath, cfg, isPublic, None, d)
  {
  }

  /** The custom folder segment as the helper computes it with `cdn_safe_folder` as written. */
  function CustomSegmentAsWritten(cfg: StorageSettings, customFolder: Option<string>): (segs: seq<string>)
    ensures |segs| <= 1
    ensures segs != [] ==>
      cfg.allowCustomFolder && SafeFolderAsWritten(customFolder).Some? && segs == [SafeFolderAsWritten(customFolder).value]
    ensures cfg.allowCustomFolder && !IsFalsy(customFolder) && !IsFalsy(SafeFolderAsWritten(customFolder)) ==>
      segs == [SafeFolderAsWritten(customFolder).value]
  {
    if cfg.allowCustomFolder && !IsFalsy(customFolder) && !IsFalsy(SafeFolderAsWritten(customFolder))
    then [SafeFolderAsWritten(customFolder).value] else []
  }

  /** The directory `cdn_storage_path` returns as written, with the custom folder that check lets through. */
  function StoragePathAsWritten(fcpath: string, cfg: StorageSettings, isPublic: bool, customFolder: Option<string>, d: Date): string
    requires ValidDate(d)
  {
    fcpath + Trim(JoinSlash(LayoutSegments(cfg, isPublic, d) + CustomSegmentAsWritten(cfg, customFolder)), '/') + "/"
  }

  /** A whitelisted folder with a newline appended is dropped by the corrected check and kept as written. */
  lemma NewlineFolderSegment(cfg: StorageSettings, s: string)
    requires cfg.allowCustomFolder
    requires FullFolderMatch(s) && s[0] != '/'
    ensures CustomSegment(cfg, Some(s + "\n")) == []
    ensures CustomSegmentAsWritten(cfg, Some(s + "\n")) == [s + "\n"]
  {
    var t := s + "\n";
    assert SafeFolderAsWritten(Some(t)) == Some(t) && !AllChars(t, FolderChar) by {
      NewlineFolderAccepted(s);
    }
    assert t != "" && t != "0" by { assert |t| >= 2; }
    assert Trim(t, '/') == t by { TrimUntouched(t, '/'); }
  }

  /** The last character of a joined path that is not '/' ends the directory built from it, just before the closing '/'. */
  lemma LastCharKept(fcpath: string, joined: string)
    requires joined != [] && joined[|joined| - 1] != '/'
    ensures var p := fcpath + Trim(joined, '/') + "/";
      StartsWith(p, fcpath) && |p| >= |fcpath| + 2 && p[|p| - 2] == joined[|joined| - 1]
  {
    var trimmed := Trim(joined, '/');
    TrimKeepsLast(joined, '/');
    var p := fcpath + trimmed + "/";
    assert p[..|fcpath|] == fcpath && p[|p| - 2] == trimmed[|trimmed| - 1];
  }

  /**
   * As written, a whitelisted custom folder followed by a newline reaches the
   * directory, which then ends in the newline and '/'; the corrected check
   * drops the folder.
   */
  lemma NewlineFolderInPath(fcpath: string, cfg: StorageSettings, isPublic: bool, s: string, d: Date)
    requires ValidDate(d) && cfg.allowCustomFolder
    requires FullFolderMatch(s) && s[0] != '/'
    ensures CustomSegment(cfg, Some(s + "\n")) == []
    ensures CustomSegmentAsWritten(cfg, Some(s + "\n")) == [s + "\n"]
    ensures var p := StoragePathAsWritten(fcpath, cfg, isPublic, Some(s + "\n"), d);
      StartsWith(p, fcpath) && |p| >= |fcpath| + 2 && p[|p| - 2] == '\n'
  {
    var t := s + "\n";
    NewlineFolderSegment(cfg, s);
    var layout := LayoutSegments(cfg, isPublic, d);
    var joined := JoinSlash(layout + [t]);
    assert joined == JoinSlash(layout) + "/" + t by {
      JoinSlashAppend(layout, [t]);
    }
    LastCharKept(fcpath, joined);
  }

  /** A folder character or the newline PCRE's `$` lets through. */
  predicate FolderOrNewline(c: char)
  {
    FolderChar(c) || c == '\n'
  }

  /** A folder the pattern test accepts is made of folder characters and newlines. */
  lemma PatternMatchChars(t: string)
    requires FolderPatternMatches(t)
    ensures AllChars(t, FolderOrNewline)
  {
    if !FullFolderMatch(t) {
      forall i | 0 <= i < |t| - 1 ensures FolderChar(t[i]) {
        assert t[i] == t[..|t| - 1][i];
      }
    }
  }

  /** A whitelisted head, '/', then a pattern-accepted folder: folder characters and newlines only. */
  lemma JoinedAsWrittenChars(head: string, t: string)
    requires AllChars(head, FolderChar) && FolderPatternMatches(t)
    ensures AllChars(head + "/" + t, FolderOrNewline)
  {
    PatternMatchChars(t);
    var joined := head + "/" + t;
    forall i | 0 <= i < |joined| ensures FolderOrNewline(joined[i]) {
      if i < |head| {
        assert joined[i] == head[i];
      } else if i > |head| {
        assert joined[i] == t[i - |head| - 1];
      }
    }
  }

  /** A directory made of fcpath and a trimmed path without '.' holds no ".." below fcpath. */
  lemma NoParentUnder(fcpath: string, joined: string)
    requires AllChars(joined, FolderOrNewline)
    ensures var p := fcpath + Trim(joined, '/') + "/";
      StartsWith(p, fcpath) && !ContainsPair(p[|fcpath|..], '.', '.')
  {
    var trimmed := Trim(joined, '/');
    TrimKeepsChars(joined, '/', FolderOrNewline);
    var rest := trimmed + "/";
    forall i | 0 <= i < |rest| - 1 ensures rest[i] != '.' {
      assert rest[i] == trimmed[i] && FolderOrNewline(trimmed[i]);
    }
    var p := fcpath + trimmed + "/";
    assert p[|fcpath|..] == rest && p[..|fcpath|] == fcpath;
  }

  /**
   * The part of `cdn_storage_path` that holds as written: with whitelisted
   * configured folders, the directory below FCPATH holds no "..", whatever
   * custom folder the caller supplies.
   */
  lemma StoragePathAsWrittenNoParent(fcpath: string, cfg: StorageSettings, isPublic: bool, customFolder: Option<string>, d: Date)
    requires ValidDate(d)
    requires AllChars(cfg.basePath, FolderChar) && AllChars(cfg.publicFolder, FolderChar) && AllChars(cfg.privateFolder, FolderChar)
    ensures var p := StoragePathAsWritten(fcpath, cfg, isPublic, customFolder, d);
      StartsWith(p, fcpath) && !ContainsPair(p[|fcpath|..], '.', '.')
  {
    var layout := LayoutSegments(cfg, isPublic, d);
    var custom := CustomSegmentAsWritten(cfg, customFolder);
    assert AllChars(JoinSlash(layout), FolderChar) by {
      StorageSegmentsWhitelisted(cfg, isPublic, None, d);
      assert StorageSegments(cfg, isPublic, None, d) == layout;
    }
    var head := JoinSlash(layout);
    if custom == [] {
      assert layout + custom == layout;
      assert AllChars(head, FolderOrNewline) by {
        assert forall i :: 0 <= i < |head| ==> FolderChar(head[i]);
      }
    } else {
      assert JoinSlash(layout + custom) == head + "/" + custom[0] by {
        assert custom == [custom[0]];
        JoinSlashAppend(layout, custom);
      }
      JoinedAsWrittenChars(head, custom[0]);
    }
    NoParentUnder(fcpath, JoinSlash(layout + custom));
  }

  /** Parts over a character class, put side by side, are still over it. */
  lemma PartsAppendChars(a: seq<string>, b: seq<string>, ok: char -> bool)
    requires forall j :: 0 <= j < |a| ==> AllChars(a[j], ok)
    requires forall j :: 0 <= j < |b| ==> AllChars(b[j], ok)
    ensures forall j :: 0 <= j < |a + b| ==> AllChars((a + b)[j], ok)
  {
    forall j | 0 <= j < |a + b| ensures AllChars((a + b)[j], ok) {
      if j >= |a| {
        assert (a + b)[j] == b[j - |a|];
      }
    }
  }

  lemma StorageSegmentsWhitelisted(cfg: StorageSettings, isPublic: bool, customFolder: Option<string>, d: Date)
    requires ValidDate(d)
    requires AllChars(cfg.basePath, FolderChar) && AllChars(cfg.publicFolder, FolderChar) && AllChars(cfg.privateFolder, FolderChar)
    ensures AllChars(JoinSlash(StorageSegments(cfg, isPublic, customFolder, d)), FolderChar)
  {
    var base := TrimRight(cfg.basePath, '/');
    assert AllChars(base, FolderChar) by {
      forall i | 0 <= i < |base| ensures FolderChar(base[i]) { assert base[i] == cfg.basePath[i]; }
    }
    var head := [base, if isPublic then cfg.publicFolder else cfg.privateFolder];
    var dates := DateSegments(cfg.useYear, cfg.useMonth, cfg.useDay, d);
    assert forall j :: 0 <= j < |dates| ==> AllChars(dates[j], FolderChar) by {
      DateSegmentsWhitelisted(cfg.useYear, cfg.useMonth, cfg.useDay, d);
    }
    var custom := CustomSegment(cfg, customFolder);
    assert forall j :: 0 <= j < |custom| ==> AllChars(custom[j], FolderChar);
    PartsAppendChars(head, dates, FolderChar);
    PartsAppendChars(head + dates, custom, FolderChar);
    JoinSlashChars(head + dates + custom, FolderChar);
  }

  /**
   * Whatever custom folder the caller supplies, the path below FCPATH is made
   * only of `[a-z0-9/_-]`, so it holds no ".." and cannot leave the storage root.
   */
  lemma StoragePathConfined(fcpath: string, cfg: StorageSettings, isPublic: bool, customFolder: Option<string>, d: Date)
    requires ValidDate(d)
    requires AllChars(cfg.basePath, FolderChar) && AllChars(cfg.publicFolder, FolderChar) && AllChars(cfg.privateFolder, FolderChar)
    ensures var p := StoragePath(fcpath, cfg, isPublic, customFolder, d);
      StartsWith(p, fcpath) && AllChars(p[|fcpath|..], FolderChar) && !ContainsPair(p[|fcpath|..], '.', '.')
  {
    var joined := JoinSlash(StorageSegments(cfg, isPublic, customFolder, d));
    assert AllChars(joined, FolderChar) by {
      StorageSegmentsWhitelisted(cfg, isPublic, customFolder, d);
    }
    ConfinedUnder(fcpath, joined);
  }

  /** A directory made of fcpath and a trimmed whitelisted path stays under fcpath. */
  lemma ConfinedUnder(fcpath: string, joined: string)
    requires AllChars(joined, FolderChar)
    ensures var p := fcpath + Trim(joined, '/') + "/";
      StartsWith(p, fcpath) && AllChars(p[|fcpath|..], FolderChar) && !ContainsPair(p[|fcpath|..], '.', '.')
  {
    var trimmed := Trim(joined, '/');
    var rest := trimmed + "/";
    assert AllChars(trimmed, FolderChar) by {
      TrimKeepsChars(joined, '/', FolderChar);
    }
    assert AllChars(rest, FolderChar) by {
      assert forall i :: 0 <= i < |trimmed| ==> rest[i] == trimmed[i];
      assert rest[|trimmed|] == '/';
    }
    assert !ContainsPair(rest, '.', '.') by {
      FolderCharsNoParent(rest);
    }
    var p := fcpath + trimmed + "/";
    assert p[|fcpath|..] == rest && p[..|fcpath|] == fcpath;
  }

  /** The configured layout has only whitelisted characters, so the confinement above applies to it. */
  lemma ConfiguredStorageWhitelisted()
    ensures AllChars(Config.Storage.basePath, FolderChar)
    ensures AllChars(Config.Storage.publicFolder, FolderChar) && AllChars(Config.Storage.privateFolder, FolderChar)
  {
  }

  /** The segments of a profile path: "storage", the visibility folder, the trimmed base_folder, then the profile's date parts. */
  function ProfileSegments(profile: Profile, d: Date): seq<string>
    requires ValidDate(d)
  {
    ProfileHeadSegments(profile) + DateSegments(profile.useYear, profile.useMonth, profile.useDay, d)
  }

  function Visibility(isPublic: bool): string
  {
    if isPublic then "public" else "private"
  }

  function ProfileHeadSegments(profile: Profile): seq<string>
  {
    ["storage", Visibility(profile.isPublic), Trim(profile.baseFolder, '/')]
  }

  /** The directory `cdn_profile_path` denotes. */
  function ProfilePath(fcpath: string, profile: Profile, d: Date): string
    requires ValidDate(d)
  {
    fcpath + Trim(JoinSlash(ProfileSegments(profile, d)), '/') + "/"
  }

  lemma ProfileHead(isPublic: bool, base: string)
    ensures "storage/" + (if isPublic then "public/" else "private/") + base
         == JoinSlash(["storage", Visibility(isPublic), base])
  {
    var vis := Visibility(isPublic);
    assert ["storage", vis, base][1..] == [vis, base];
    JoinPair(vis, base);
    assert "storage/" == "storage" + "/";
    assert (if isPublic then "public/" else "private/") == vis + "/";
  }

  lemma ConcatAssoc(a: seq<string>, b: seq<string>, c: seq<string>, d: seq<string>)
    ensures a + b + c + d == a + (b + c + d)
  {
  }

  lemma AppendOptional(done: seq<string>, path: string, on: bool, seg: string)
    requires |done| > 0 && path == JoinSlash(done)
    ensures (if on then path + "/" + seg else path) == JoinSlash(done + Optional(on, seg))
  {
    if on {
      JoinSlashAppend(done, [seg]);
    } else {
      assert done + [] == done;
    }
  }

  /** `cdn_profile_path`, built by successive appends as the helper does. */
  method CdnProfilePath(fcpath: string, profile: Profile, d: Date) returns (p: string)
    requires ValidDate(d)
    ensures p == ProfilePath(fcpath, profile, d)
  {
    var path := "storage/";
    path := path + (if profile.isPublic then "public/" else "private/");
    path := path + Trim(profile.baseFolder, '/');
    ProfileHead(profile.isPublic, Trim(profile.baseFolder, '/'));
    ghost var done := ProfileHeadSegments(profile);

    AppendOptional(done, path, profile.useYear, YearText(d));
    if profile.useYear { path := path + "/" + YearText(d); }
    done := done + Optional(profile.useYear, YearText(d));

    AppendOptional(done, path, profile.useMonth, MonthText(d));
    if profile.useMonth { path := path + "/" + MonthText(d); }
    done := done + Optional(profile.useMonth, MonthText(d));

    AppendOptional(done, path, profile.useDay, DayText(d));
    if profile.useDay { path := path + "/" + DayText(d); }
    done := done + Optional(profile.useDay, DayText(d));

    ghost var y, m, dd := Optional(profile.useYear, YearText(d)), Optional(profile.useMonth, MonthText(d)), Optional(profile.useDay, DayText(d));
    assert done == ProfileHeadSegments(profile) + y + m + dd;
    ConcatAssoc(ProfileHeadSegments(profile), y, m, dd);
    p := fcpath + Trim(path, '/') + "/";
  }

  /** A whitelisted folder name that neither starts nor ends with '/'. */
  predicate CleanSegment(seg: string)
  {
    FullFolderMatch(seg) && seg[0] != '/' && seg[|seg| - 1] != '/'
  }

  lemma DateSegmentsClean(useYear: bool, useMonth: bool, useDay: bool, d: Date)
    requires ValidDate(d)
    ensures forall j :: 0 <= j < |DateSegments(useYear, useMonth, useDay, d)| ==> CleanSegment(DateSegments(useYear, useMonth, useDay, d)[j])
  {
    var segs := DateSegments(useYear, useMonth, useDay, d);
    DateSegmentsWhitelisted(useYear, useMonth, useDay, d);
    forall j | 0 <= j < |segs| ensures CleanSegment(segs[j]) {
      assert IsDecimalDigit(segs[j][0]) && IsDecimalDigit(segs[j][|segs[j]| - 1]);
    }
  }

  lemma HeadSegmentsClean(profile: Profile)
    requires CleanSegment(profile.baseFolder)
    ensures forall j :: 0 <= j < |ProfileHeadSegments(profile)| ==> CleanSegment(ProfileHeadSegments(profile)[j])
  {
    TrimUntouched(profile.baseFolder, '/');
    assert CleanSegment("storage") && CleanSegment(Visibility(profile.isPublic));
  }

  lemma CleanAppend(a: seq<string>, b: seq<string>)
    requires forall j :: 0 <= j < |a| ==> CleanSegment(a[j])
    requires forall j :: 0 <= j < |b| ==> CleanSegment(b[j])
    ensures forall j :: 0 <= j < |a + b| ==> CleanSegment((a + b)[j])
  {
    forall j | 0 <= j < |a + b| ensures CleanSegment((a + b)[j]) {
      if j >= |a| {
        assert (a + b)[j] == b[j - |a|];
      }
    }
  }

  lemma ProfileSegmentsClean(profile: Profile, d: Date)
    requires ValidDate(d)
    requires CleanSegment(profile.baseFolder)
    ensures forall j :: 0 <= j < |ProfileSegments(profile, d)| ==> CleanSegment(ProfileSegments(profile, d)[j])
  {
    HeadSegmentsClean(profile);
    DateSegmentsClean(profile.useYear, profile.useMonth, profile.useDay, d);
    CleanAppend(ProfileHeadSegments(profile), DateSegments(profile.useYear, profile.useMonth, profile.useDay, d));
  }

  /** "storage/public/" or "storage/private/" by visibility, then the base folder. */
  function ProfilePrefix(profile: Profile): string
  {
    "storage/" + (if profile.isPublic then "public/" else "private/") + profile.baseFolder
  }

  /** The joined profile path starts with the storage root, the visibility folder and the base folder. */
  lemma ProfileJoinedPrefix(profile: Profile, d: Date)
    requires ValidDate(d)
    requires CleanSegment(profile.baseFolder)
    ensures StartsWith(JoinSlash(ProfileSegments(profile, d)), ProfilePrefix(profile))
  {
    var head := ProfileHeadSegments(profile);
    JoinSlashPrefix(head, DateSegments(profile.useYear, profile.useMonth, profile.useDay, d));
    TrimUntouched(profile.baseFolder, '/');
    ProfileHead(profile.isPublic, profile.baseFolder);
  }

  /** The profile's segments are non-empty, have no outer '/', and only whitelisted characters. */
  lemma ProfileSegmentsJoinable(segs: seq<string>, profile: Profile, d: Date)
    requires ValidDate(d)
    requires CleanSegment(profile.baseFolder)
    requires segs == ProfileSegments(profile, d)
    ensures |segs| > 0
    ensures forall j :: 0 <= j < |segs| ==> segs[j] != [] && segs[j][0] != '/' && segs[j][|segs[j]| - 1] != '/'
    ensures forall j :: 0 <= j < |segs| ==> AllChars(segs[j], FolderChar)
  {
    ProfileSegmentsClean(profile, d);
    assert |ProfileHeadSegments(profile)| == 3;
    forall j | 0 <= j < |segs|
      ensures segs[j] != [] && segs[j][0] != '/' && segs[j][|segs[j]| - 1] != '/'
      ensures AllChars(segs[j], FolderChar)
    {
      assert CleanSegment(segs[j]);
    }
  }

  /** Joining such parts gives a non-empty path with no outer '/' and only whitelisted characters. */
  lemma CleanPartsJoined(segs: seq<string>)
    requires |segs| > 0
    requires forall j :: 0 <= j < |segs| ==> segs[j] != [] && segs[j][0] != '/' && segs[j][|segs[j]| - 1] != '/'
    requires forall j :: 0 <= j < |segs| ==> AllChars(segs[j], FolderChar)
    ensures var joined := JoinSlash(segs);
      joined != [] && joined[0] != '/' && joined[|joined| - 1] != '/' && AllChars(joined, FolderChar)
  {
    JoinSlashEnds(segs);
    JoinSlashChars(segs, FolderChar);
  }

  /** The joined profile path is non-empty, has no outer '/', and only whitelisted characters. */
  lemma ProfileJoinedClean(profile: Profile, d: Date)
    requires ValidDate(d)
    requires CleanSegment(profile.baseFolder)
    ensures var joined := JoinSlash(ProfileSegments(profile, d));
      joined != [] && joined[0] != '/' && joined[|joined| - 1] != '/' && AllChars(joined, FolderChar)
  {
    var segs := ProfileSegments(profile, d);
    ProfileSegmentsJoinable(segs, profile, d);
    CleanPartsJoined(segs);
  }

  /**
   * For a profile whose base_folder is whitelisted and carries no outer '/',
   * the path below FCPATH starts with "storage/public/" or "storage/private/"
   * by its visibility, then the base folder, and holds only whitelisted
   * characters.
   */
  lemma ProfilePathLayout(fcpath: string, profile: Profile, d: Date)
    requires ValidDate(d)
    requires CleanSegment(profile.baseFolder)
    ensures var p := ProfilePath(fcpath, profile, d);
      StartsWith(p, fcpath + ProfilePrefix(profile)) && AllChars(p[|fcpath|..], FolderChar)
  {
    var joined := JoinSlash(ProfileSegments(profile, d));
    var prefix := ProfilePrefix(profile);
    assert joined != [] && joined[0] != '/' && joined[|joined| - 1] != '/' && AllChars(joined, FolderChar) by {
      ProfileJoinedClean(profile, d);
    }
    assert StartsWith(joined, prefix) by {
      ProfileJoinedPrefix(profile, d);
    }
    FramedDirectory(fcpath, joined, prefix);
  }

  /** A clean joined path, framed by FCPATH and a final '/', keeps its prefix and its characters. */
  lemma FramedDirectory(fcpath: string, joined: string, prefix: string)
    requires joined != [] && joined[0] != '/' && joined[|joined| - 1] != '/'
    requires AllChars(joined, FolderChar) && StartsWith(joined, prefix)
    ensures var p := fcpath + Trim(joined, '/') + "/";
      StartsWith(p, fcpath + prefix) && AllChars(p[|fcpath|..], FolderChar)
  {
    TrimUntouched(joined, '/');
    var p := fcpath + joined + "/";
    StartsWithFramed(fcpath, joined, prefix, "/");
    assert p[|fcpath|..] == joined + "/";
  }

  /** Every registry profile's base_folder is a clean segment, so its profile path has the layout above. */
  lemma RegistryProfilesClean(name: string)
    requires name in Profiles
    ensures CleanSegment(Profiles[name].baseFolder)
  {
    BaseFoldersWhitelisted(name);
  }
}
