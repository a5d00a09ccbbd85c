/**
 * application/helpers/signed_url_helper.php: HMAC-signed private links, the
 * time left on them, and the temporary-token transport that carries a
 * base64 payload in the URL-safe alphabet.
 *
 * `hash_hmac('sha256', data, key)` is the parameter `hmac`, the JSON and
 * base64 codec of the token payload the parameters `encode` and `decode`,
 * and the clock the integer `now`.
 */
module SignedUrl {
  import opened Wrappers
  import opened Strings
  import opened Durations
  import opened Config

  /** HMAC-SHA-256 (RFC 2104) of the data under the key, as lowercase hex. */
  type Hmac = (string, string) -> string

  /** The signed text: the file id followed directly by the decimal expiry. */
  function SignedData(fileId: string, expires: int): string
  {
    fileId + IntToString(expires)
  }

  /** `generate_signature` */
  function GenerateSignature(hmac: Hmac, secret: string, fileId: string, expires: int): string
  {
    hmac(SignedData(fileId, expires), secret)
  }

  /** `verify_signed_url`: a link past its expiry is refused whatever it carries; otherwise the signature must be the recomputed one. */
  function VerifySignedUrl(hmac: Hmac, secret: string, fileId: string, expires: int, signature: string, now: int): (ok: bool)
    ensures expires < now ==> !ok
    ensures ok <==> now <= expires && signature == GenerateSignature(hmac, secret, fileId, expires)
  {
    if expires < now then false
    else GenerateSignature(hmac, secret, fileId, expires) == signature
  }

  /** A signature made for an expiry that has not passed verifies. */
  lemma SignatureRoundTrip(hmac: Hmac, secret: string, fileId: string, expires: int, now: int)
    requires now <= expires
    ensures VerifySignedUrl(hmac, secret, fileId, expires, GenerateSignature(hmac, secret, fileId, expires), now)
  {
  }

  /**
   * No separator stands between id and expiry, so ("a1", 23) and ("a12", 3)
   * sign the same text and any signature for one verifies for the other.
   */
  lemma SeparatorlessCollision(hmac: Hmac, secret: string, now: int)
    requires now <= 3
    ensures GenerateSignature(hmac, secret, "a1", 23) == GenerateSignature(hmac, secret, "a12", 3)
    ensures VerifySignedUrl(hmac, secret, "a12", 3, GenerateSignature(hmac, secret, "a1", 23), now)
  {
    assert IntToString(23) == "23" by {
      assert NatToString(2) == "2";
      assert NatToString(23) == NatToString(2) + [DecimalDigit(3)];
    }
    assert IntToString(3) == "3";
    assert SignedData("a1", 23) == "a123" == SignedData("a12", 3);
  }

  /** The path of a private file below the API prefix. */
  function PrivateEndpoint(site: Site, fileId: string): string
  {
    site.apiPrefix + "files/private/" + fileId
  }

  /** `generate_signed_url`: base URL without trailing '/', the private endpoint, then the expiry and signature parameters. */
  function GenerateSignedUrl(site: Site, hmac: Hmac, fileId: string, expiresIn: int, now: int): (url: string)
    ensures var expires := now + expiresIn;
      url == TrimRight(site.baseUrl, '/') + "/" + PrivateEndpoint(site, fileId)
        + "?expires=" + IntToString(expires)
        + "&signature=" + GenerateSignature(hmac, site.signedUrlSecret, fileId, expires)
  {
    var expires := now + expiresIn;
    var signature := GenerateSignature(hmac, site.signedUrlSecret, fileId, expires);
    var baseUrl := TrimRight(site.baseUrl, '/');
    baseUrl + "/" + PrivateEndpoint(site, fileId) + "?expires=" + IntToString(expires) + "&signature=" + signature
  }

  /** A decimal rendering holds neither '&' nor '?'. */
  lemma IntToStringPlain(n: int)
    ensures '&' !in IntToString(n) && '?' !in IntToString(n)
  {
    var r := IntToString(n);
    if n < 0 {
      var t := NatToString(-n);
      assert r == "-" + t;
      forall i | 0 <= i < |r| ensures r[i] != '&' && r[i] != '?' {
        if i > 0 {
          assert r[i] == t[i - 1] && IsDecimalDigit(t[i - 1]);
        }
      }
    } else {
      forall i | 0 <= i < |r| ensures r[i] != '&' && r[i] != '?' {
        assert IsDecimalDigit(r[i]);
      }
    }
  }

  /** Splitting at the first c of a text whose head holds no c gives back the head and the rest. */
  lemma SplitAtFirst(head: string, c: char, rest: string)
    requires c !in head
    ensures UpTo(head + [c] + rest, c) == head && After(head + [c] + rest, c) == rest
  {
    UpToFirst(head, rest, c);
    AfterFirst(head, rest, c);
  }

  /** The query of a generated link splits at its first '&' into the expiry and the signature parameters. */
  lemma QueryLayout(expires: int, sig: string)
    ensures var q := "expires=" + IntToString(expires) + "&signature=" + sig;
      UpTo(q, '&') == "expires=" + IntToString(expires) && After(q, '&') == "signature=" + sig
  {
    var first := "expires=" + IntToString(expires);
    var second := "signature=" + sig;
    assert '&' !in first by {
      IntToStringPlain(expires);
      var digits := IntToString(expires);
      forall i | 0 <= i < |first| ensures first[i] != '&' {
        if i >= 8 {
          assert first[i] == digits[i - 8];
        }
      }
    }
    assert first + "&signature=" + sig == first + ['&'] + second;
    SplitAtFirst(first, '&', second);
  }

  /** The base URL and private endpoint hold no '?' when neither the base URL, the prefix nor the id does. */
  lemma LinkPathPlain(site: Site, fileId: string)
    requires '?' !in site.baseUrl && '?' !in site.apiPrefix && '?' !in fileId
    ensures '?' !in TrimRight(site.baseUrl, '/') + "/" + PrivateEndpoint(site, fileId)
  {
    var base := TrimRight(site.baseUrl, '/');
    assert forall i :: 0 <= i < |base| ==> base[i] == site.baseUrl[i];
    var head := base + "/" + PrivateEndpoint(site, fileId);
    assert head == base + "/" + site.apiPrefix + "files/private/" + fileId;
  }

  /**
   * A generated link splits at its first '?' into the base URL and private
   * endpoint, and its query at the first '&' into the expiry and the
   * signature, when '?' is in none of the base URL, the prefix and the id.
   */
  lemma SignedUrlLayout(site: Site, hmac: Hmac, fileId: string, expiresIn: int, now: int)
    requires '?' !in site.baseUrl && '?' !in site.apiPrefix && '?' !in fileId
    ensures var e := now + expiresIn;
      var sig := GenerateSignature(hmac, site.signedUrlSecret, fileId, e);
      var url := GenerateSignedUrl(site, hmac, fileId, expiresIn, now);
      var query := After(url, '?');
      UpTo(url, '?') == TrimRight(site.baseUrl, '/') + "/" + PrivateEndpoint(site, fileId)
      && query == "expires=" + IntToString(e) + "&signature=" + sig
      && UpTo(query, '&') == "expires=" + IntToString(e)
      && After(query, '&') == "signature=" + sig
  {
    var e := now + expiresIn;
    var sig := GenerateSignature(hmac, site.signedUrlSecret, fileId, e);
    var head := TrimRight(site.baseUrl, '/') + "/" + PrivateEndpoint(site, fileId);
    var query := "expires=" + IntToString(e) + "&signature=" + sig;
    LinkPathPlain(site, fileId);
    UrlAsPathAndQuery(head, IntToString(e), sig);
    SplitAtFirst(head, '?', query);
    QueryLayout(e, sig);
  }

  /** The text `generate_signed_url` concatenates is its path, a '?' and its query. */
  lemma UrlAsPathAndQuery(head: string, expires: string, sig: string)
    ensures head + "?expires=" + expires + "&signature=" + sig
      == head + ['?'] + ("expires=" + expires + "&signature=" + sig)
  {
  }

  /** A generated link's signature verifies until its expiry has passed, and not after. */
  lemma SignedUrlValidUntilExpiry(site: Site, hmac: Hmac, fileId: string, expiresIn: int, now: int, later: int)
    ensures var expires := now + expiresIn;
      var signature := GenerateSignature(hmac, site.signedUrlSecret, fileId, expires);
      VerifySignedUrl(hmac, site.signedUrlSecret, fileId, expires, signature, later) <==> later <= expires
  {
  }

  /** The three request parameters `parse_signed_url` collects; an absent one is None. */
  datatype SignedParams = SignedParams(fileId: Option<string>, expires: Option<int>, signature: Option<string>)

  /**
   * CodeIgniter's URI segments: the path split at '/', with the empty pieces
   * that doubled, leading and trailing slashes leave dropped.
   */
  function UriSegments(uri: string): (segs: seq<string>)
    ensures forall j :: 0 <= j < |segs| ==> segs[j] != [] && '/' !in segs[j]
    decreases |uri|
  {
    if uri == [] then []
    else
      var piece := UpTo(uri, '/');
      var rest := if |piece| < |uri| then uri[|piece| + 1..] else [];
      if piece == [] then UriSegments(rest) else [piece] + UriSegments(rest)
  }

  /** `$this->uri->segment(n)`: the n-th segment counting from 1, or null when there are fewer. */
  function UriSegment(uri: string, n: nat): (r: Option<string>)
    ensures r.Some? <==> 1 <= n <= |UriSegments(uri)|
    ensures r.Some? ==> r.value == UriSegments(uri)[n - 1] && r.value != [] && '/' !in r.value
  {
    var segs := UriSegments(uri);
    if 1 <= n <= |segs| then Some(segs[n - 1]) else None
  }

  /** A piece without '/' followed by '/' is the first segment, and the segmenting goes on after it. */
  lemma SegmentsCons(piece: string, rest: string)
    requires piece != [] && '/' !in piece
    ensures UriSegments(piece + "/" + rest) == [piece] + UriSegments(rest)
  {
    var uri := piece + "/" + rest;
    UpToFirst(piece, rest, '/');
    assert uri[|piece| + 1..] == rest;
  }

  /** A piece without '/' is one segment. */
  lemma SegmentsSingle(piece: string)
    requires piece != [] && '/' !in piece
    ensures UriSegments(piece) == [piece]
  {
    UpToAbsent(piece, '/');
  }

  /** Pieces without '/', joined by '/', are segmented back into those pieces. */
  lemma {:induction false} SegmentsOfJoin(parts: seq<string>)
    requires forall j :: 0 <= j < |parts| ==> parts[j] != [] && '/' !in parts[j]
    ensures UriSegments(JoinSlash(parts)) == parts
  {
    if |parts| == 1 {
      SegmentsSingle(parts[0]);
    } else if |parts| > 1 {
      SegmentsCons(parts[0], JoinSlash(parts[1..]));
      SegmentsOfJoin(parts[1..]);
    }
  }

  /** The private endpoint under "api/v1/" is the '/'-join of its five pieces. */
  lemma EndpointJoined(site: Site, fileId: string)
    requires site.apiPrefix == "api/v1/"
    ensures PrivateEndpoint(site, fileId) == JoinSlash(["api", "v1", "files", "private", fileId])
  {
    var t1 := [fileId];
    var t2 := ["private"] + t1;
    var t3 := ["files"] + t2;
    var t4 := ["v1"] + t3;
    var t5 := ["api"] + t4;
    JoinCons("private", t1);
    JoinCons("files", t2);
    JoinCons("v1", t3);
    JoinCons("api", t4);
    assert t5 == ["api", "v1", "files", "private", fileId];
    assert "api" + "/" + ("v1" + "/" + ("files" + "/" + ("private" + "/" + fileId))) == PrivateEndpoint(site, fileId);
  }

  /** Joining a piece in front of at least one more puts a '/' between them. */
  lemma JoinCons(piece: string, rest: seq<string>)
    requires |rest| >= 1
    ensures JoinSlash([piece] + rest) == piece + "/" + JoinSlash(rest)
  {
    assert ([piece] + rest)[1..] == rest;
  }


  /** The five pieces of the private endpoint are non-empty and hold no '/'. */
  lemma EndpointPiecesPlain(fileId: string)
    requires fileId != [] && '/' !in fileId
    ensures var parts := ["api", "v1", "files", "private", fileId];
      forall j :: 0 <= j < |parts| ==> parts[j] != [] && '/' !in parts[j]
  {
    var parts := ["api", "v1", "files", "private", fileId];
    forall j | 0 <= j < |parts| ensures parts[j] != [] && '/' !in parts[j] {
      if j < 4 {
        assert parts[j] in ["api", "v1", "files", "private"];
      }
    }
  }

  /** The path of a generated private link under the prefix "api/v1/" has five segments, the id last. */
  lemma PrivateEndpointSegments(site: Site, fileId: string)
    requires site.apiPrefix == "api/v1/"
    requires fileId != [] && '/' !in fileId
    ensures UriSegments(PrivateEndpoint(site, fileId)) == ["api", "v1", "files", "private", fileId]
  {
    EndpointJoined(site, fileId);
    EndpointPiecesPlain(fileId);
    SegmentsOf(PrivateEndpoint(site, fileId), ["api", "v1", "files", "private", fileId]);
  }


  lemma SegmentsOf(uri: string, parts: seq<string>)
    requires forall j :: 0 <= j < |parts| ==> parts[j] != [] && '/' !in parts[j]
    requires uri == JoinSlash(parts)
    ensures UriSegments(uri) == parts
  {
    SegmentsOfJoin(parts);
  }

  /** `parse_signed_url` as written: the id is read from segment 4 of the request path. */
  function ParseSignedUrlAsWritten(uri: string, expires: Option<int>, signature: Option<string>): (params: SignedParams)
    ensures params.fileId.Some? <==> |UriSegments(uri)| >= 4
    ensures params.expires == expires && params.signature == signature
  {
    SignedParams(UriSegment(uri, 4), expires, signature)
  }

  /** `parse_signed_url` reading the id from segment 5, where `api/v1/files/private/{id}` puts it. */
  function ParseSignedUrl(uri: string, expires: Option<int>, signature: Option<string>): (params: SignedParams)
    ensures params.fileId.Some? <==> |UriSegments(uri)| >= 5
    ensures params.expires == expires && params.signature == signature
  {
    SignedParams(UriSegment(uri, 5), expires, signature)
  }

  /** PHP truthiness of an optional integer: null and 0 are falsy. */
  predicate IsFalsyInt(n: Option<int>)
  {
    n.None? || n.value == 0
  }

  /** `is_signed_url_valid`: a missing or falsy parameter refuses the link; otherwise the signature is verified. */
  function IsSignedUrlValid(hmac: Hmac, secret: string, params: SignedParams, now: int): (ok: bool)
    ensures IsFalsy(params.fileId) || IsFalsyInt(params.expires) || IsFalsy(params.signature) ==> !ok
    ensures ok <==> (!IsFalsy(params.fileId) && !IsFalsyInt(params.expires) && !IsFalsy(params.signature)
      && VerifySignedUrl(hmac, secret, params.fileId.value, params.expires.value, params.signature.value, now))
  {
    if IsFalsy(params.fileId) || IsFalsyInt(params.expires) || IsFalsy(params.signature) then false
    else VerifySignedUrl(hmac, secret, params.fileId.value, params.expires.value, params.signature.value, now)
  }

  /**
   * As written, a link generated for any id arrives with "private" as its
   * id, so it is accepted only when the id's signature is also the
   * signature of "private" for the same expiry.
   */
  lemma GeneratedLinkReadsPrivate(site: Site, hmac: Hmac, fileId: string, expiresIn: int, now: int, later: int)
    requires site.apiPrefix == "api/v1/"
    requires fileId != [] && '/' !in fileId
    requires now + expiresIn != 0
    requires |GenerateSignature(hmac, site.signedUrlSecret, fileId, now + expiresIn)| == 64
    ensures var e := now + expiresIn;
      var sig := GenerateSignature(hmac, site.signedUrlSecret, fileId, e);
      var params := ParseSignedUrlAsWritten(PrivateEndpoint(site, fileId), Some(e), Some(sig));
      params.fileId == Some("private")
      && (IsSignedUrlValid(hmac, site.signedUrlSecret, params, later)
          <==> later <= e && GenerateSignature(hmac, site.signedUrlSecret, "private", e) == sig)
  {
    PrivateEndpointSegments(site, fileId);
  }

  /**
   * Reading the id from segment 5, a link generated for an id that PHP reads
   * as true is accepted exactly until its expiry passes.
   */
  lemma GeneratedLinkValid(site: Site, hmac: Hmac, fileId: string, expiresIn: int, now: int, later: int)
    requires site.apiPrefix == "api/v1/"
    requires fileId != [] && '/' !in fileId && fileId != "0"
    requires now + expiresIn != 0
    requires |GenerateSignature(hmac, site.signedUrlSecret, fileId, now + expiresIn)| == 64
    ensures var e := now + expiresIn;
      var sig := GenerateSignature(hmac, site.signedUrlSecret, fileId, e);
      var params := ParseSignedUrl(PrivateEndpoint(site, fileId), Some(e), Some(sig));
      params.fileId == Some(fileId)
      && (IsSignedUrlValid(hmac, site.signedUrlSecret, params, later) <==> later <= e)
  {
    PrivateEndpointSegments(site, fileId);
  }

  /**
   * The generated link as a whole: its path is the private endpoint, its two
   * query values are the expiry and the signature, and with the id read from
   * segment 5 those values are accepted exactly until the expiry.
   */
  lemma GeneratedSignedUrlValid(site: Site, hmac: Hmac, fileId: string, expiresIn: int, now: int, later: int)
    requires site.apiPrefix == "api/v1/" && '?' !in site.baseUrl
    requires fileId != [] && '/' !in fileId && '?' !in fileId && fileId != "0"
    requires now + expiresIn != 0
    requires |GenerateSignature(hmac, site.signedUrlSecret, fileId, now + expiresIn)| == 64
    ensures var e := now + expiresIn;
      var sig := GenerateSignature(hmac, site.signedUrlSecret, fileId, e);
      var url := GenerateSignedUrl(site, hmac, fileId, expiresIn, now);
      var params := ParseSignedUrl(PrivateEndpoint(site, fileId), Some(e), Some(sig));
      UpTo(url, '?') == TrimRight(site.baseUrl, '/') + "/" + PrivateEndpoint(site, fileId)
      && UpTo(After(url, '?'), '&') == "expires=" + IntToString(e)
      && After(After(url, '?'), '&') == "signature=" + sig
      && params.fileId == Some(fileId)
      && (IsSignedUrlValid(hmac, site.signedUrlSecret, params, later) <==> later <= e)
  {
    assert '?' !in site.apiPrefix;
    SignedUrlLayout(site, hmac, fileId, expiresIn, now);
    GeneratedLinkValid(site, hmac, fileId, expiresIn, now, later);
  }

  /** `get_signed_url_expires`: the expiry, or null when it is absent or 0. */
  function SignedUrlExpires(params: SignedParams): (e: Option<int>)
    ensures e.None? <==> IsFalsyInt(params.expires)
    ensures e.Some? ==> e == params.expires && e.value != 0
  {
    if IsFalsyInt(params.expires) then None else params.expires
  }

  /** `get_signed_url_time_remaining`: seconds until expiry, never negative, 0 without an expiry. */
  function TimeRemaining(params: SignedParams, now: int): (r: int)
    ensures r >= 0
    ensures SignedUrlExpires(params).None? ==> r == 0
    ensures SignedUrlExpires(params).Some? ==> r == if params.expires.value < now then 0 else params.expires.value - now
  {
    var e := SignedUrlExpires(params);
    if e.None? then 0
    else
      var remaining := e.value - now;
      if remaining < 0 then 0 else remaining
  }

  /** A link with time remaining is one whose expiry has not passed, so the expiry test of verification lets it through. */
  lemma RemainingMeansUnexpired(params: SignedParams, now: int)
    requires TimeRemaining(params, now) > 0
    ensures params.expires.Some? && now < params.expires.value
    ensures TimeRemaining(params, now) == params.expires.value - now
  {
  }

  /** `format_time_remaining`: "Expired" for no time left, otherwise the human duration. */
  function FormatTimeRemaining(seconds: int): (s: string)
    ensures seconds <= 0 <==> s == "Expired"
    ensures seconds > 0 ==> s == HumanDuration(seconds)
  {
    if seconds <= 0 then "Expired"
    else
      DurationNotExpired(seconds);
      HumanDuration(seconds)
  }

  lemma DurationNotExpired(seconds: int)
    requires seconds > 0
    ensures HumanDuration(seconds) != "Expired"
  {
    var a := Split(seconds);
    assert a.count >= 1;
    assert IsDecimalDigit(IntToString(a.count)[0]);
    assert HumanDuration(seconds)[0] == IntToString(a.count)[0];
  }

  // ---------------------------------------------------------------------
  // Token transport between standard base64 and the URL-safe alphabet
  // (sections 4 and 5 of RFC 4648).
  // ---------------------------------------------------------------------

  /** A character of the standard base64 alphabet (section 4 of RFC 4648). */
  predicate IsBase64Char(c: char)
  {
    'A' <= c <= 'Z' || 'a' <= c <= 'z' || '0' <= c <= '9' || c == '+' || c == '/'
  }

  /** Standard base64 text: a multiple of four characters, alphabet characters followed by at most two '='. */
  predicate IsStdBase64(s: string)
  {
    var body := TrimRight(s, '=');
    |s| % 4 == 0 && |s| - |body| <= 2 && AllChars(body, IsBase64Char)
  }

  /** `str_replace(['+', '/', '='], ['-', '_', ''], token)`: each replacement applied in turn. */
  function Escape(token: string): (t: string)
    ensures forall i :: 0 <= i < |t| ==> t[i] != '+' && t[i] != '/' && t[i] != '='
  {
    var t := RemoveChar(ToUrlAlphabet(token), '=');
    RemoveCharSubset(ToUrlAlphabet(token), '=');
    t
  }

  lemma {:induction false} RemoveCharSubset(s: string, c: char)
    ensures forall i :: 0 <= i < |RemoveChar(s, c)| ==> RemoveChar(s, c)[i] in s
  {
    if s != [] {
      RemoveCharSubset(s[1..], c);
      var rest := RemoveChar(s[1..], c);
      assert RemoveChar(s, c) == (if s[0] == c then [] else [s[0]]) + rest;
      forall i | 0 <= i < |rest| ensures rest[i] in s {
        assert rest[i] in s[1..];
      }
    }
  }

  /** `verify_temporary_token`'s first two steps: back to '+' and '/', then '=' up to a multiple of four characters. */
  function Unescape(token: string): (s: string)
    ensures |s| % 4 == 0
  {
    var t := FromUrlAlphabet(token);
    var padding := |t| % 4;
    if padding != 0 then t + Repeat('=', 4 - padding) else t
  }

  /** The first two replacements of the escaping: '+' to '-' and '/' to '_'. */
  function ToUrlAlphabet(t: string): string
  {
    ReplaceChar(ReplaceChar(t, '+', '-'), '/', '_')
  }

  function FromUrlAlphabet(t: string): string
  {
    ReplaceChar(ReplaceChar(t, '-', '+'), '_', '/')
  }

  /** Swapping '+'/'/' for '-'/'_' and back restores text over the standard alphabet. */
  lemma AlphabetSwapRoundTrip(body: string)
    requires AllChars(body, IsBase64Char)
    ensures FromUrlAlphabet(ToUrlAlphabet(body)) == body
    ensures forall i :: 0 <= i < |ToUrlAlphabet(body)| ==> ToUrlAlphabet(body)[i] != '='
  {
    var r := FromUrlAlphabet(ToUrlAlphabet(body));
    forall i | 0 <= i < |body| ensures r[i] == body[i] && ToUrlAlphabet(body)[i] != '=' {
      assert IsBase64Char(body[i]);
    }
  }

  /** Standard base64 text is its alphabet part followed by its '=' padding. */
  lemma PaddingSplit(s: string)
    requires IsStdBase64(s)
    ensures var body := TrimRight(s, '=');
      s == body + Repeat('=', |s| - |body|)
  {
    var body := TrimRight(s, '=');
    var pads := Repeat('=', |s| - |body|);
    forall i | 0 <= i < |s| ensures s[i] == (body + pads)[i] {
      if i < |body| {
        assert s[i] == body[i];
      }
    }
  }

  /** The alphabet swap acts on the body and leaves the padding after it as it is. */
  lemma SwapKeepsPadding(body: string, n: nat)
    ensures ToUrlAlphabet(body + Repeat('=', n)) == ToUrlAlphabet(body) + Repeat('=', n)
  {
    var s := body + Repeat('=', n);
    var swap := ToUrlAlphabet(s);
    var split := ToUrlAlphabet(body) + Repeat('=', n);
    forall i | 0 <= i < |swap| ensures swap[i] == split[i] {
      if i < |body| {
        assert s[i] == body[i];
      } else {
        assert s[i] == '=';
      }
    }
  }

  /** Escaping standard base64 text swaps the alphabet of its body and drops the padding. */
  lemma EscapeDropsPadding(s: string)
    requires IsStdBase64(s)
    ensures Escape(s) == ToUrlAlphabet(TrimRight(s, '='))
  {
    var body := TrimRight(s, '=');
    var pads := Repeat('=', |s| - |body|);
    PaddingSplit(s);
    var bodySwap := ToUrlAlphabet(body);
    assert ToUrlAlphabet(s) == bodySwap + pads by {
      SwapKeepsPadding(body, |s| - |body|);
    }
    RemoveCharAppend(bodySwap, pads, '=');
    AlphabetSwapRoundTrip(body);
    RemoveCharAbsent(bodySwap, '=');
    RemoveCharOnly(pads, '=');
    assert bodySwap + [] == bodySwap;
  }

  /** Removing k <= 2 padding characters from a multiple of four leaves a remainder of 4 - k, or 0 when k is 0. */
  lemma PaddingRemainder(n: nat, k: nat)
    requires n % 4 == 0 && k <= 2 && k <= n
    ensures (n - k) % 4 == if k == 0 then 0 else 4 - k
  {
    var q := n / 4;
    assert n == 4 * q;
    if k > 0 {
      assert n - k == 4 * (q - 1) + (4 - k);
    }
  }

  /** Undoing the URL-safe escaping restores every standard base64 string. */
  lemma EscapeRoundTrip(s: string)
    requires IsStdBase64(s)
    ensures Unescape(Escape(s)) == s
  {
    var body := TrimRight(s, '=');
    var k := |s| - |body|;
    assert FromUrlAlphabet(Escape(s)) == body by {
      EscapeDropsPadding(s);
      AlphabetSwapRoundTrip(body);
    }
    PaddingRemainder(|s|, k);
    PaddingSplit(s);
    if k == 0 {
      assert body + Repeat('=', 0) == body;
    }
  }

  // ---------------------------------------------------------------------
  // Temporary tokens.
  // ---------------------------------------------------------------------

  /** The decoded token payload; a key that is absent or null is None. */
  datatype TokenData = TokenData(fileId: Option<string>, expires: Option<int>, random: string)

  /** `base64_encode(json_encode(data))` */
  type Encode = TokenData -> string

  /** `json_decode(base64_decode(text), true)`, None when it is not a non-empty object. */
  type Decode = string -> Option<TokenData>

  /** The payload `generate_temporary_token` encodes: the id, the expiry `now + expires_in`, and 16 random bytes as hex. */
  function TokenPayload(fileId: string, expiresIn: int, random: seq<byte>, now: int): (d: TokenData)
    requires |random| == 16
    ensures d.fileId == Some(fileId) && d.expires == Some(now + expiresIn)
    ensures |d.random| == 32 && AllChars(d.random, IsLowerHexDigit)
  {
    TokenData(Some(fileId), Some(now + expiresIn), Bin2Hex(random))
  }

  /** `generate_temporary_token` */
  function GenerateTemporaryToken(encode: Encode, fileId: string, expiresIn: int, random: seq<byte>, now: int): (token: string)
    requires |random| == 16
    ensures forall i :: 0 <= i < |token| ==> token[i] != '+' && token[i] != '/' && token[i] != '='
  {
    Escape(encode(TokenPayload(fileId, expiresIn, random, now)))
  }

  /** `verify_temporary_token`: false (None) for an undecodable payload, a missing id or expiry, or an expiry that has passed. */
  function VerifyTemporaryToken(decode: Decode, token: string, now: int): (r: Option<string>)
    ensures r.Some? <==> var d := decode(Unescape(token));
      d.Some? && d.value.fileId.Some? && d.value.expires.Some? && now <= d.value.expires.value
    ensures r.Some? ==> r == decode(Unescape(token)).value.fileId
  {
    var data := decode(Unescape(token));
    if data.None? || data.value.fileId.None? || data.value.expires.None? then None
    else if data.value.expires.value < now then None
    else data.value.fileId
  }

  /**
   * With a codec whose output is standard base64 and that decodes what it
   * encoded, a generated token yields its file id until its expiry passes.
   */
  lemma TemporaryTokenRoundTrip(encode: Encode, decode: Decode, fileId: string, expiresIn: int, random: seq<byte>, now: int, later: int)
    requires |random| == 16
    requires IsStdBase64(encode(TokenPayload(fileId, expiresIn, random, now)))
    requires decode(encode(TokenPayload(fileId, expiresIn, random, now))) == Some(TokenPayload(fileId, expiresIn, random, now))
    ensures VerifyTemporaryToken(decode, GenerateTemporaryToken(encode, fileId, expiresIn, random, now), later)
      == if later <= now + expiresIn then Some(fileId) else None
  {
    EscapeRoundTrip(encode(TokenPayload(fileId, expiresIn, random, now)));
  }
}
