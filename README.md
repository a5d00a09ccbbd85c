# CDN gatekeeper: a Dafny model

This project models the request-admission core of a small CodeIgniter CDN
service. The service stores uploaded images under date-partitioned folders
and serves public files by an opaque file key. It guards its `api/` routes
with API keys and a fixed-window rate limiter. It also issues HMAC-signed
links and temporary tokens for private files.

The model covers these parts of the service:

- **Rate limiting.** The `rate_limits` table is a map from (api_key_id,
  endpoint) to a window. `check_limit`, `increment_request`, `reset_limit`
  and `cleanup` update that map in place. The pair is the table's unique
  key, as the upsert's `ON DUPLICATE KEY` implies. So when check_limit
  inserts a fresh window for a key whose stored window is stale, the
  insert is a duplicate and the stored row stays.
- **Rate-limit helpers.** The window arithmetic, the rate-limit headers, the
  status message, the retry-after wording, the client identity and the list
  of endpoints that are not limited.
- **The base controller (`MY_Controller`).** The model follows the
  constructor's admission chain: an OPTIONS preflight, then the API-endpoint
  test, API-key validation with expiry, and the rate-limit check followed by
  its increment. It also covers the log filter.
- **The API-key hook.** The model covers the hook's own chain: key lookup,
  the usage quota and the usage increment on the `api_keys` table.
- **Signed URLs and temporary tokens.** Generation and verification, with
  the URL-safe base64 escaping and its inverse.
- **Storage paths and upload admission.** The custom-folder whitelist,
  the storage path layout, the profile registry, and the upload controller's
  file and URL paths.
- **The `cdn_files` table and the public read.** `File_model` (keyed by
  file_key) and `Cdn_file_model` (keyed by file_uid, with soft deletion)
  share one table object. The public read is `Cdn::index`.

Each PHP model class is a Dafny `class` over a `seq` or `map` field that its
methods reassign. Each method's contract ties the new state to a function of
the old state, and lemmas state what those functions promise. The helpers are
pure functions. The one loop in the core, `set_rate_limit_headers`, is a
Dafny loop with invariants. `cdn_storage_path` and `cdn_profile_path` build
their segment arrays by successive appends, and their methods do the same.

Everything outside the program's own logic is a parameter of the model:

- the clock (`now`) and the current date;
- random bytes;
- HMAC-SHA256, SHA-256, JSON and base64 encoding and decoding;
- MIME sniffing (`finfo`);
- `filter_var` and the private-address test;
- the downloaded bytes;
- `file_exists` and `filesize`;
- the database's acceptance of an insert.

PHP truthiness is modelled exactly: a missing value, `""` and `"0"` are
false. Error replies of the upload controller carry HTTP status 400.

Some behaviours of the code are easy to misread, and the model keeps them as
the code has them:

- **Upload limits.** The upload controller hard-codes 5 MiB and the three
  image types JPEG, PNG and WebP. It never reads a profile's `max_size` or
  `allowed_mime`.
- **Expiry boundary.** `Cdn::index` and `_validate_api_key` refuse only an
  expiry strictly before now. A file or key expiring exactly now is accepted.
- **Expired files.** `Cdn::index` answers 410 for an expired file, not 404.
- **Soft deletion.** `Cdn::index` reads through `File_model` and never
  looks at deleted_at, so a soft-deleted file is still served.
- **Signed-URL expiry.** `verify_signed_url` accepts a link while now <=
  expires, so now == expires is still valid.
- **Fetch size.** The URL upload downloads the whole body, then compares
  its length with 5 MiB.

## Model

| member | source | states |
|---|---|---|
| RateLimitModel.BoundaryAgreement | application/models/Rate_limit_model.php:72-84 | increment_request's stale test (window_start < now - window) is exactly the negation of check_limit's live test, and a window starting at now - window is still live |
| RateLimitModel.CurrentWindow | application/models/Rate_limit_model.php:27-48 | the window check_limit counts against is the stored one when live, else a fresh window of 0 requests starting now |
| RateLimitModel.Report | application/models/Rate_limit_model.php:50-64 | exceeded iff count >= limit; remaining is limit - count floored at 0; retry_after is 0 when allowed; when exceeded it is the time to window end, and 1 when that is under one second; window end is start + window |
| RateLimitModel.AfterCheck | application/models/Rate_limit_model.php:34-48 | check_limit inserts a fresh row only for an unseen key and leaves every existing row unchanged |
| RateLimitModel.FreshWindowAllows | application/models/Rate_limit_model.php:34-64 | without a live row a positive limit is not exceeded, the whole limit remains, and the window starts now |
| RateLimitModel.CheckThenLive | application/models/Rate_limit_model.php:34-48 | the row check_limit inserts is the same window it reported on |
| RateLimitModel.Incremented | application/models/Rate_limit_model.php:70-95 | increment_request adds 1 to a live window and restarts a stale or missing one at 1 from now; other keys are unchanged |
| RateLimitModel.IncrementsWithinWindow | application/models/Rate_limit_model.php:70-95 | n increments inside one window raise its count by exactly n and keep its start; other keys are unchanged |
| RateLimitModel.CleanedUp | application/models/Rate_limit_model.php:162-169 | cleanup keeps exactly the rows with window_start >= now - 2 * window, unchanged |
| RateLimitModel.CleanupKeepsLive | application/models/Rate_limit_model.php:162-169 | cleanup never removes a live window, so later checks are unaffected |
| RateLimitModel.ResetRows | application/models/Rate_limit_model.php:147-157 | reset_limit removes exactly the key's rows, restricted to the endpoint when one is given; others survive unchanged |
| RateLimitModel.GetApiKeyLimit | application/models/Rate_limit_model.php:136-142 | the key's own rate_limit when the key exists, else the default |
| RateLimitModel.GetStatus | application/models/Rate_limit_model.php:100-131 | without a live window: zero requests, the default limit and window now..now+window; with one: its count, the key's limit, remaining = limit - count floored at 0, and the stored window start with end = start + window |
| RateLimitModel.StatusAgreesWithCheck | application/models/Rate_limit_model.php:100-131 | get_status and check_limit report the same remaining count for a live window |
| RateLimitModel.RateLimitTable.CheckLimit | application/models/Rate_limit_model.php:22-65 | returns the report on the current window and leaves the table as AfterCheck |
| RateLimitModel.RateLimitTable.IncrementRequest | application/models/Rate_limit_model.php:70-95 | the table becomes Incremented |
| RateLimitModel.RateLimitTable.ResetLimit | application/models/Rate_limit_model.php:147-157 | the table becomes ResetRows |
| RateLimitModel.RateLimitTable.Cleanup | application/models/Rate_limit_model.php:162-169 | the table becomes CleanedUp |
| RateLimitHelper.PhpMod | application/helpers/rate_limit_helper.php:55 | PHP's truncating `%` agrees with Dafny's for a non-negative dividend and positive divisor |
| RateLimitHelper.CalculateRateLimitWindow | application/helpers/rate_limit_helper.php:52-56 | the window start is the multiple of the window size at or just below now |
| RateLimitHelper.ExceededAgreesWithReport | application/helpers/rate_limit_helper.php:64-67 | is_rate_limit_exceeded agrees with check_limit's exceeded flag |
| RateLimitHelper.IsRateLimitExceeded | application/helpers/rate_limit_helper.php:64-67 | count >= limit; ExceededAgreesWithReport ties it to check_limit's exceeded flag |
| RateLimitHelper.GetRateLimitHeaders | application/helpers/rate_limit_helper.php:15-22 | exactly the three X-RateLimit headers: limit, remaining and window end |
| RateLimitHelper.RateLimitHeaderLines | application/helpers/rate_limit_helper.php:30-44 | the three header lines, then Retry-After only when exceeded |
| RateLimitHelper.RetryAfterOnlyWhenExceeded | application/helpers/rate_limit_helper.php:30-44 | a Retry-After line is present iff the limit is exceeded; the first three lines are X-RateLimit lines |
| RateLimitHelper.SetRateLimitHeaders | application/helpers/rate_limit_helper.php:30-44 | the output's header list is extended by exactly those lines, in order |
| RateLimitHelper.GetRateLimitStatus | application/helpers/rate_limit_helper.php:75-93 | exceeded iff the report says so, with its retry_after and the exact messages of either case |
| RateLimitHelper.GetClientIdentifier | application/helpers/rate_limit_helper.php:125-138 | "api_key:" and the header when one is sent, else "ip:" and the address |
| RateLimitHelper.ClientIdentifierKinds | application/helpers/rate_limit_helper.php:125-138 | the identity starts with "api_key:" iff a key header was sent, so key and IP identities never coincide |
| RateLimitHelper.ShouldRateLimitExactly | application/helpers/rate_limit_helper.php:146-158 | every endpoint is limited except exactly api/v1/status and api/v1/health |
| RateLimitHelper.ShouldRateLimit | application/helpers/rate_limit_helper.php:146-158 | membership of the skip list; ShouldRateLimitExactly names the two endpoints it excludes |
| Durations.RoundDiv | application/helpers/rate_limit_helper.php:109-115 | PHP's round(s/d) for non-negative s: the nearest multiple with halves rounded up |
| Durations.Split | application/helpers/rate_limit_helper.php:101-117 | below 60 s seconds; below an hour 1..60 minutes; else at least 1 hour; the count is 1 exactly on the singular ranges |
| Durations.HumanDuration | application/helpers/rate_limit_helper.php:101-117 | the "N second(s)/minute(s)/hour(s)" text with rounded counts, plural exactly when the count is not 1 |
| RateLimitHelper.FormatRetryAfter | application/helpers/rate_limit_helper.php:101-117 | the retry-after text is HumanDuration, whose contract states the rounding and plural rules |
| SignedUrl.VerifySignedUrl | application/helpers/signed_url_helper.php:52-65 | true iff now <= expires and the signature equals the HMAC of the file id and expiry |
| SignedUrl.SignatureRoundTrip | application/helpers/signed_url_helper.php:35-65 | a generated signature verifies at any time up to its expiry |
| SignedUrl.SeparatorlessCollision | application/helpers/signed_url_helper.php:40 | the signed data joins id and expiry without a separator, so ("a1", 23) signs ("a12", 3) too |
| SignedUrl.GenerateSignature | application/helpers/signed_url_helper.php:35-44 | the HMAC of the id and expiry; SignatureRoundTrip, SeparatorlessCollision and GeneratedLinkValid state what it guarantees |
| SignedUrl.GenerateSignedUrl | application/helpers/signed_url_helper.php:15-27 | the link for id and now + expires_in; SignedUrlLayout and GeneratedSignedUrlValid take it apart |
| SignedUrl.SignedUrlLayout | application/helpers/signed_url_helper.php:15-27 | with no '?' in base URL, prefix or id, the link splits at its first '?' into base URL without trailing '/' plus the private endpoint, and its query at the first '&' into expires=<now + expires_in> and signature=<HMAC of id and expiry> |
| SignedUrl.GeneratedSignedUrlValid | application/helpers/signed_url_helper.php:15-104 | the parts of a generated link: its path is the private endpoint, its query carries e and the signature, and with the id from segment 5 those are accepted exactly while later <= e |
| SignedUrl.SignedUrlValidUntilExpiry | application/helpers/signed_url_helper.php:15-65 | a generated link's signature verifies exactly while the time is at or before its expiry |
| SignedUrl.UriSegments | application/helpers/signed_url_helper.php:77 | the URI's segments are non-empty and hold no '/' |
| SignedUrl.UriSegment | application/helpers/signed_url_helper.php:77 | the n-th segment from 1, none exactly when there are fewer than n |
| SignedUrl.SegmentsOfJoin | application/helpers/signed_url_helper.php:77 | pieces without '/' joined by '/' segment back into exactly those pieces |
| SignedUrl.PrivateEndpointSegments | application/helpers/signed_url_helper.php:24 | the private endpoint under "api/v1/" has the five segments api, v1, files, private and the id |
| SignedUrl.ParseSignedUrlAsWritten | application/helpers/signed_url_helper.php:73-87 | the id is segment 4, present iff the path has four segments; expires and signature are passed on |
| SignedUrl.ParseSignedUrl | application/helpers/signed_url_helper.php:73-87 | the id read from segment 5, where the route api/v1/files/private/{id} puts it |
| SignedUrl.GeneratedLinkReadsPrivate | application/helpers/signed_url_helper.php:77-104 | as written, a generated link is read with id "private" and accepted iff unexpired and the signature of "private" equals the id's |
| SignedUrl.GeneratedLinkValid | application/helpers/signed_url_helper.php:15-104 | reading segment 5, a generated link yields its own id and is accepted exactly until its expiry |
| SignedUrl.IsSignedUrlValid | application/helpers/signed_url_helper.php:94-104 | false when a parameter is missing or falsy, otherwise exactly verify_signed_url |
| SignedUrl.SignedUrlExpires | application/helpers/signed_url_helper.php:112-116 | none exactly when the expires parameter is missing or 0, else its value |
| SignedUrl.TimeRemaining | application/helpers/signed_url_helper.php:124-135 | never negative; 0 without an expiry or once it has passed, else expires - now |
| SignedUrl.RemainingMeansUnexpired | application/helpers/signed_url_helper.php:124-135 | positive remaining time implies an expiry strictly after now |
| SignedUrl.FormatTimeRemaining | application/helpers/signed_url_helper.php:231-252 | "Expired" exactly when no time remains; otherwise HumanDuration, whose contract gives the rounded "N second(s)/minute(s)/hour(s)" text |
| SignedUrl.Escape | application/helpers/signed_url_helper.php:152 | the escaped token holds no '+', '/' or '=' |
| SignedUrl.Unescape | application/helpers/signed_url_helper.php:166-173 | the unescaped token's length is a multiple of 4 |
| SignedUrl.AlphabetSwapRoundTrip | application/helpers/signed_url_helper.php:152-166 | swapping +/ to -_ and back restores any base64 body |
| SignedUrl.EscapeDropsPadding | application/helpers/signed_url_helper.php:152 | escaping strips the '=' padding and swaps the alphabet of what remains |
| SignedUrl.EscapeRoundTrip | application/helpers/signed_url_helper.php:151-173 | unescaping an escaped standard base64 string restores it exactly |
| SignedUrl.TokenPayload | application/helpers/signed_url_helper.php:145-149 | the payload holds the file id, expires = now + expires_in and 32 lowercase hex digits of randomness |
| SignedUrl.GenerateTemporaryToken | application/helpers/signed_url_helper.php:143-153 | the token is URL-safe: no '+', '/' or '=' |
| SignedUrl.VerifyTemporaryToken | application/helpers/signed_url_helper.php:161-194 | the file id iff the token decodes to a payload whose file id and expiry are set (isset) and whose expiry is not before now |
| SignedUrl.TemporaryTokenRoundTrip | application/helpers/signed_url_helper.php:143-188 | a generated token verifies up to its expiry, given a faithful codec |
| MyController.ValidateApiKey | application/core/MY_Controller.php:71-105 | the first failing check answers (401 required, 401 invalid, 403 inactive, 403 expired); valid exactly when the key is found, active and not expired |
| MyController.ExpiryBoundary | application/core/MY_Controller.php:98-101 | a key expiring exactly now is accepted; one that expired a second ago answers 403 |
| MyController.EffectiveLimit | application/core/MY_Controller.php:116 | the key's rate_limit when set and nonzero, else the default |
| MyController.CheckRateLimit | application/core/MY_Controller.php:110-130 | exceeded answers 429 with retry_after and no increment; otherwise the request proceeds and is counted |
| MyController.Admit | application/core/MY_Controller.php:14-39 | OPTIONS is a preflight; non-API requests proceed untouched; API requests pass key validation, then the rate limit |
| MyController.CountingOnlyAfterAuthentication | application/core/MY_Controller.php:28-38 | preflights, non-API requests and rejected keys never change the rate-limit table |
| MyController.AdmittedCountsOnce | application/core/MY_Controller.php:110-130 | an admitted API request adds exactly one to its window |
| MyController.RunWithinWindow | application/core/MY_Controller.php:110-130 | inside one window starting with count c, the i-th request is admitted iff c + i < limit |
| MyController.BurstAdmission | application/core/MY_Controller.php:110-130 | a burst on a new key within one window admits exactly the first `limit` requests |
| MyController.ApiEndpointScope | application/core/MY_Controller.php:62-66 | every URI under the prefix is an API endpoint; under "api/v1/" the public read cdn/<key> is not |
| MyController.IsApiEndpoint | application/core/MY_Controller.php:62-66 | the URI starts with the API prefix; ApiEndpointScope and SignedLinkNeedsApiKey state its reach |
| MyController.SignedLinkNeedsApiKey | application/core/MY_Controller.php:28-38 | a GET of a signed link's endpoint without an API key is refused 401 and counts nothing |
| MyController.LogFilter | application/core/MY_Controller.php:176-180 | uploads, downloads and errors are logged only when their switch is on; every other action is logged |
| MyController.MyController.Construct | application/core/MY_Controller.php:14-39 | the outcome and table update are Admit's, and api_key_data is set only for a validated key |
| ApiKeyHook.CheckDecision | application/hooks/ApiKeyHook.php:28-59 | non-API URIs skip; then 401 without a header, 401 for an unknown key, 429 at quota; accepted iff an active key is under its quota |
| ApiKeyHook.UsageQuota | application/hooks/ApiKeyHook.php:49-55 | n requests with one key accept exactly min(n, rate_limit - usage_count) of them |
| ApiKeyHook.ApiKeyHook.constructor | application/hooks/ApiKeyHook.php:9-26 | without an active row for the header key the request ends with 401; otherwise the key's id and value are recorded |
| ApiKeyHook.ApiKeyHook.Check | application/hooks/ApiKeyHook.php:28-59 | the decision is CheckDecision, usage grows only on acceptance, and a rejection ends the request |
| ApiKeyModel.GetActiveKey | application/models/Api_key_model.php:17-23 | an active row with that key, or none exactly when no row is both active and that key |
| ApiKeyModel.UsageIncremented | application/models/Api_key_model.php:28-34 | usage_count + 1 on the rows with that key; every other row unchanged |
| ApiKeyModel.IncrementUnknownKey | application/models/Api_key_model.php:28-34 | incrementing a key no row has changes nothing |
| ApiKeyModel.IncrementKeepsActiveRow | application/models/Api_key_model.php:17-34 | after an increment the same row is found, with its usage one higher |
| ApiKeyModel.UsageReset | application/models/Api_key_model.php:39-44 | every row's usage_count becomes 0, nothing else changes |
| ApiKeyModel.ApiKeyTable.IncrementUsage | application/models/Api_key_model.php:28-34 | the table becomes UsageIncremented |
| ApiKeyModel.ApiKeyTable.ResetUsage | application/models/Api_key_model.php:39-44 | the table becomes UsageReset |
| ApiKeyHelper.GenerateApiKey | application/helpers/api_key_helper.php:15-18 | 64 lowercase hex digits |
| ApiKeyHelper.TrailingNewlineAccepted | application/helpers/api_key_helper.php:26-29 | the pattern as written accepts 64 hex digits plus a newline, a key of the wrong length |
| ApiKeyHelper.ValidateApiKeyFormatAsWritten | application/helpers/api_key_helper.php:26-29 | the pattern as written; TrailingNewlineAccepted and FormatImpliesLength state what it admits beyond 64 hex digits |
| ApiKeyHelper.ValidateApiKeyFormat | application/helpers/api_key_helper.php:26-29 | the pattern as intended; FormatImpliesLength and GeneratedKeyValid relate it to the length test and to generated keys |
| ApiKeyHelper.IsValidApiKeyLength | application/helpers/api_key_helper.php:65-68 | 64 characters; FormatImpliesLength shows every well-formed key has it |
| ApiKeyHelper.FormatImpliesLength | application/helpers/api_key_helper.php:26-68 | a well-formed key has the valid length, and the written pattern accepts more only by a final newline |
| ApiKeyHelper.GeneratedKeyValid | application/helpers/api_key_helper.php:15-29 | every generated key is well formed |
| ApiKeyHelper.MaskApiKey | application/helpers/api_key_helper.php:37-45 | same length; the first show_chars characters kept and the rest '*', all '*' when the key is that short |
| ApiKeyHelper.HashRoundTrip | application/helpers/api_key_helper.php:76-90 | a key verifies against its own hash, and against a hash iff it is that hash |
| ApiKeyHelper.HashApiKey | application/helpers/api_key_helper.php:76-79 | the SHA-256 of the key; HashRoundTrip shows the key verifies against it |
| ApiKeyHelper.VerifyApiKeyHash | application/helpers/api_key_helper.php:87-90 | HashRoundTrip: true exactly for the key's own hash |
| Config.RegistryNames | application/config/cdn.php:27-68 | the registry holds exactly the four profiles |
| Config.OnlyAnswerSheetPrivate | application/config/cdn.php:29-60 | answer_sheet is the only private profile |
| Config.DatePartitioning | application/config/cdn.php:31-64 | which date parts each profile partitions by |
| Config.ProfileImageLimits | application/config/cdn.php:43-66 | profile_image's 2 MiB, its three image types and 300x300 resize; public_asset allows image/* |
| Config.BaseFoldersWhitelisted | application/config/cdn.php:26-61 | every base folder matches the folder pattern and holds no ".." |
| Storage.DateSegmentsWhitelisted | application/helpers/storage_helper.php:23-31 | the year, month and day segments are decimal digits matching the folder pattern |
| Storage.NewlineFolderAccepted | application/helpers/storage_helper.php:52-66 | the folder check as written lets a whitelisted folder with a final newline through, newline kept |
| Storage.SafeFolderAsWritten | application/helpers/storage_helper.php:46-67 | the folder check as written; NewlineFolderAccepted and NewlineFolderInPath show it keeps a final newline |
| Storage.SafeFolder | application/helpers/storage_helper.php:46-67 | some iff the folder is truthy and its trimmed form matches; the result is that trimmed form, with no "..", "/" at either end |
| Storage.SafeFolderIdempotent | application/helpers/storage_helper.php:46-67 | cleaning a cleaned folder changes nothing unless it is "0" |
| Storage.SafeFolderZero | application/helpers/storage_helper.php:48-52 | "0/" is cleaned to "0", which itself is then refused as falsy |
| Storage.CdnProfile | application/helpers/storage_helper.php:70-75 | the registry entry for the name, or none exactly when it is not registered |
| Storage.CustomSegment | application/helpers/storage_helper.php:33-38 | at most one segment; present exactly when custom folders are allowed, the folder is truthy and its cleaned form is truthy, and then that cleaned form |
| Storage.CdnStoragePath | application/helpers/storage_helper.php:15-41 | the successive appends build exactly StoragePath, the layout then the custom folder under the corrected check |
| Storage.UnsafeFolderDropped | application/helpers/storage_helper.php:33-38 | an unsafe or disallowed custom folder yields the path without one |
| Storage.StorageSegmentsWhitelisted | application/helpers/storage_helper.php:19-38 | with whitelisted configured folders, the joined segments hold only whitelisted characters |
| Storage.StoragePathConfined | application/helpers/storage_helper.php:15-41 | the path starts with FCPATH and what follows has only whitelisted characters and no ".." |
| Storage.StoragePath | application/helpers/storage_helper.php:15-41 | the directory for the corrected folder check; StoragePathConfined and UnsafeFolderDropped state its layout and confinement |
| Storage.CustomSegmentAsWritten | application/helpers/storage_helper.php:33-38 | the custom segment with the folder check as written: present exactly when allowed, truthy and its checked form truthy, and then that form |
| Storage.NewlineFolderInPath | application/helpers/storage_helper.php:33-66 | as written, a whitelisted folder plus "\n" reaches the directory, which ends in the newline and '/'; the corrected segment is empty |
| Storage.StoragePathAsWrittenNoParent | application/helpers/storage_helper.php:15-66 | as written, with whitelisted configured folders the directory below FCPATH still holds no ".." for any custom folder |
| Storage.ConfiguredStorageWhitelisted | application/config/cdn.php:9-13 | the configured base, public and private folders are whitelisted |
| Storage.CdnProfilePath | application/helpers/storage_helper.php:77-88 | the successive appends build exactly ProfilePath: storage, the visibility folder, the base folder, then the enabled date parts |
| Storage.ProfileJoinedPrefix | application/helpers/storage_helper.php:79-86 | the joined profile path starts with storage/, the visibility folder and the base folder |
| Storage.ProfilePathLayout | application/helpers/storage_helper.php:77-88 | the profile path starts with FCPATH and that prefix, and holds only whitelisted characters after FCPATH |
| Storage.ProfilePath | application/helpers/storage_helper.php:77-88 | the profile directory; ProfilePathLayout and StoredUnderProfile state its prefix and characters |
| Storage.RegistryProfilesClean | application/config/cdn.php:30-61 | every registered base folder is a clean segment |
| Upload.AllowedSubtypes | application/controllers/Api/Upload.php:59-61 | the extension taken from image/jpeg, image/png and image/webp is jpeg, png and webp |
| Upload.Subtype | application/controllers/Api/Upload.php:59 | `explode('/', mime)[1]`; AllowedSubtypes gives its value for the three allowed types |
| Upload.StoredFileWellFormed | application/controllers/Api/Upload.php:59-64 | a stored name is 32 hex digits and the type's extension, and the target is the base path plus that name |
| Upload.FromFile | application/controllers/Api/Upload.php:43-68 | too large above 5 MiB, then invalid type unless JPEG, PNG or WebP; stored exactly when both pass |
| Upload.UrlGate | application/controllers/Api/Upload.php:75-93 | the URL passes iff it is valid, http or https, and resolves to a public address |
| Upload.FromUrl | application/controllers/Api/Upload.php:73-130 | the gates answer in order (invalid URL, scheme, private IP, failed download, too large, type); stored exactly when all pass |
| Upload.RejectedBeforeFetch | application/controllers/Api/Upload.php:75-102 | a URL refused by a gate is answered before and regardless of any download |
| Upload.UploadReply | application/controllers/Api/Upload.php:8-38 | unknown profile, then file, then image_url (the reply is then FromUrl under the profile's path), else "required"; a stored reply lies under the profile's path |
| Upload.UploadStatus | application/controllers/Api/Upload.php:135-157 | 200 exactly for a stored file and 400 exactly for an error; an unknown profile answers 400 |
| Upload.Status | application/controllers/Api/Upload.php:135-157 | 400 for an error, 200 for a stored file; UploadStatus states it for every upload reply |
| Upload.FileTakesPrecedence | application/controllers/Api/Upload.php:23-35 | when a file is sent, the image_url fields are ignored |
| Upload.SizeBoundary | application/controllers/Api/Upload.php:48-110 | exactly 5 MiB passes and one byte more fails, in both paths |
| Upload.StoredUnderProfile | application/controllers/Api/Upload.php:17-64 | a stored upload lies under FCPATH, storage/<visibility>/<base folder>/, with whitelisted characters |
| Upload.UploadController.Index | application/controllers/Api/Upload.php:8-38 | the reply is UploadReply, and basePath is set only for a known profile |
| Upload.UploadController.UploadFromFile | application/controllers/Api/Upload.php:43-68 | the reply is FromFile under the current basePath |
| Upload.UploadController.UploadFromUrl | application/controllers/Api/Upload.php:73-130 | the reply is FromUrl under the current basePath |
| CdnFiles.FilterUpTo | application/models/File_model.php:62-70 | a limited query returns the first `limit` matching rows, in table order |
| FileModel.GetByKey | application/models/File_model.php:24-31 | a row with the key, or none exactly when no row has it |
| FileModel.GetValidFile | application/models/File_model.php:36-47 | a row with the key whose expiry is null or after now, or none exactly when no such row exists |
| FileModel.GetExpiredFiles | application/models/File_model.php:62-70 | at most limit rows expired strictly before now, and all of them when fewer are returned |
| FileModel.ValidAndExpiredDisjoint | application/models/File_model.php:41-66 | no row is both valid and expired, and one expiring exactly now is neither |
| FileModel.InsertThenGetByKey | application/models/File_model.php:16-31 | a row inserted under a fresh key is what getByKey then finds |
| FileModel.WithoutId | application/models/File_model.php:52-57 | exactly the rows with another id remain |
| FileModel.DownloadIncremented | application/models/File_model.php:89-95 | download_count + 1 on the rows with that id; every other row unchanged |
| FileModel.IncrementKeepsOtherKeys | application/models/File_model.php:89-95 | counting a download leaves getByKey unchanged for keys that file does not carry |
| FileModel.FilePath | application/models/File_model.php:100-103 | the path is FCPATH../storage/<path>/ followed by the stored name, and exactly that long |
| FileModel.Model.Insert | application/models/File_model.php:16-19 | the row is appended iff the database accepts it, and the result says so |
| FileModel.Model.DeleteById | application/models/File_model.php:52-57 | the table becomes WithoutId |
| FileModel.Model.IncrementDownload | application/models/File_model.php:89-95 | the table becomes DownloadIncremented |
| CdnFileModel.FindByUid | application/models/Cdn_file_model.php:20-27 | a live (not soft-deleted) row with the uid, or none exactly when there is none |
| CdnFileModel.SoftDeleted | application/models/Cdn_file_model.php:29-36 | deleted_at := now on the uid's rows; nothing else changes |
| CdnFileModel.SoftDeleteHides | application/models/Cdn_file_model.php:20-36 | after a soft delete the uid is not found, though its rows remain, marked |
| CdnFileModel.SoftDeleteKeepsOthers | application/models/Cdn_file_model.php:20-36 | a soft delete does not change what other uids find |
| CdnFileModel.Model.Create | application/models/Cdn_file_model.php:8-18 | true exactly when one row was added, and then it is last |
| CdnFileModel.Model.SoftDelete | application/models/Cdn_file_model.php:29-36 | the table becomes SoftDeleted |
| CdnController.Index | application/controllers/Cdn.php:12-46 | 404 for a missing key or row, 410 when expired before now, 403 when private, 404 when absent on disk; served with its four headers exactly otherwise |
| CdnController.ExpiryBeforeVisibility | application/controllers/Cdn.php:24-30 | an expired private file answers 410, not 403 |
| CdnController.ExpiringNowServed | application/controllers/Cdn.php:24 | a public file expiring exactly now is still served |
| CdnController.SoftDeleteInvisibleToRead | application/controllers/Cdn.php:18-36 | a soft delete of any uid leaves every public read's answer unchanged |

## Left out

- CORS headers (application/core/MY_Controller.php:44-57) only emit headers; the preflight itself is modelled.
- JSON reply bodies, `log_message`, `readfile` and the route table are I/O. Only the decision each request takes is modelled.
- `hash_hmac`, `hash('sha256')`, `random_bytes`, `json_encode`/`json_decode`, base64, `finfo`, `filter_var`, `gethostbyname`, `file_get_contents`, `file_exists` and `filesize` are parameters. Their results are inputs, not computed.
- `move_uploaded_file`, `file_put_contents` and `ensure_dir` write to disk. The model stops at the target path and stored name.
- Dates and times are integer seconds, and the current date is an input. `date()`/`strtotime()` formatting is not modelled, and window_end is an integer.
- Upload.FromFile and Upload.FromUrl: the profile's max_size and allowed_mime do not govern uploads, because the controller hard-codes 5 MiB and three image types.
- Upload.UploadController.Index: the `is_public` flag (Upload.php:18) is passed to uploadFromFile and uploadFromUrl, which never use it, so it is not modelled.
- The success reply's `base_url` URL (Upload.php:143) is a display string. It is not modelled.
- `cdn_max_file_size` and `cdn_allowed_types` (cdn.php:23-24) are not read by the modelled code.
- `folder_permission` (cdn.php:21) only affects `mkdir`.
- Upload.Subtype: the extension is proved only for the allowed image types, which are the only ones that reach it.
- RateLimitHelper.CalculateRateLimitWindow: a window size of 0, where PHP's `%` throws DivisionByZeroError, is excluded by the precondition, and the default argument of 3600 is not modelled; the callers always pass the configured window.
- MaskApiKey: a negative show_chars is not modelled. The count is a natural number.
- FileModel.GetExpiredFiles: a negative limit is not modelled. The limit is a natural number.
- RateLimitModel.GetApiKeyLimit: a NULL rate_limit column is not modelled. The stored limit is an integer.
- ApiKeyHook.ApiKeyHook.constructor: the key column the constructor reads as `$apiKey->key` (ApiKeyHook.php:25) is modelled as the `api_key` column.
- ApiKeyHook.ApiKeyHook.Check: the `xss_clean` filter on the header is not modelled.
- MyController.ValidateApiKey: `get_by_key` belongs to a model class that is not part of this model. It is the parameter `lookup`.
- MyController.MyController.Construct: requests are sequential. The race between the check and the increment under concurrent requests is not modelled.
- `get_stats` and `get_top_endpoints` are not modelled; they are reporting queries outside admission.
- `logAccess` only writes a log row. It is not modelled.
- RateLimitHelper.GetRateLimitStatus: `percentage_used` is a float, and divides by zero when the limit is 0. It is not modelled.
- `get_signed_url_info` only echoes the parsed parameters. It is not modelled.
- SignedUrl.ParseSignedUrl: the `expires` query parameter is a string in PHP, and `(int)` and truthiness are applied to it. The model takes it already as an integer, so strings such as "0x10" or " 5" are not modelled.
- SignedUrl.VerifySignedUrl: the source signs the expiry text as sent. The model signs the decimal rendering of the integer, so the two differ for an expiry sent with leading zeros.
- SignedUrl.IsSignedUrlValid, get_signed_url_expires and get_signed_url_time_remaining take the parsed parameters as input, so they are modelled with the corrected segment 5. GeneratedLinkReadsPrivate shows what segment 4 does.
- Storage.CdnStoragePath: the method and StoragePath use the corrected folder check SafeFolder. The helper as written is StoragePathAsWritten, and NewlineFolderInPath shows it keeps a folder such as "abc\n" with its newline.
- Storage.CustomSegment: describes the corrected check. The as-written segment is CustomSegmentAsWritten.
- Storage.UnsafeFolderDropped: holds for the corrected check only. As written, a whitelisted folder with a final newline is kept (NewlineFolderInPath).
- Storage.StorageSegmentsWhitelisted: holds for the corrected check only. As written, the joined segments may also hold a newline.
- Storage.StoragePathConfined: the whitelist part holds for the corrected check only. As written, only the absence of ".." holds (StoragePathAsWrittenNoParent).
- PHP strings are byte strings and the model uses `seq<char>`. `strlen` in mask_api_key, is_valid_api_key_length and verify_temporary_token counts characters here, which differs from bytes for non-ASCII input.
- `get_api_key_from_header` only reads a request header, which is the input `header`.
- Database failures other than a refused insert are not modelled.

## Findings

| source | as written | input that shows it | evidently intended | confidence | as-written member | corrected member |
|---|---|---|---|---|---|---|
| application/helpers/api_key_helper.php:28 | `/^[a-f0-9]{64}$/` without the D modifier: `$` also matches before a final newline | 64 hex digits followed by "\n" (65 characters) is accepted | exactly 64 lowercase hex digits | not executed | ApiKeyHelper.TrailingNewlineAccepted | ApiKeyHelper.ValidateApiKeyFormat |
| application/helpers/storage_helper.php:62 | the folder pattern `/^[a-z0-9\/_-]+$/` has the same `$`, so the whitelist lets a final newline through | "abc\n" is returned as a safe folder, newline included | only characters a-z, 0-9, '/', '_' and '-' | not executed | Storage.NewlineFolderInPath | Storage.SafeFolder |
| application/helpers/signed_url_helper.php:77 | `segment(4)` of api/v1/files/private/{id} is "private", not the id | any link from generate_signed_url, e.g. for id "abc": the signature of "private" is checked | segment 5, the file id | not executed | SignedUrl.GeneratedLinkReadsPrivate | SignedUrl.GeneratedLinkValid |
