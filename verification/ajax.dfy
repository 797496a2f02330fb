/**
 * The configuration and request-preparation helpers of the `Ajax` HTTP
 * client. Header and fetch-option objects are maps (a spread `{...a, ...b}`
 * is `a + b`: keys of `b` win); option values other than headers are
 * opaque strings. Timeouts are milliseconds as reals.
 */
module Ajax {
  import opened Wrappers
  import opened Text

  type Headers = map<string, string>

  datatype Config = Config(baseURL: string, headers: Headers, timeout: real, fetchOptions: map<string, string>)

  const DefaultTimeout := 5000.0

  /** The options of the constructor, `_mergeOptions` and `updateConfig`.
      `None` is a field that is `undefined`; for `headers` and
      `fetchOptions` also one that is falsy. */
  datatype Options = Options(baseURL: Option<string>, timeout: Option<real>,
                             headers: Option<Headers>, fetchOptions: Option<map<string, string>>)

  const NoOptions := Options(None, None, None, None)

  /** `new Ajax(options)`: the defaults overridden by every given option. */
  function NewConfig(options: Options): (c: Config)
    ensures c.baseURL == options.baseURL.GetOr("")
    ensures c.timeout == options.timeout.GetOr(DefaultTimeout)
    ensures c.headers == options.headers.GetOr(map[])
    ensures c.fetchOptions == options.fetchOptions.GetOr(map[])
  {
    Config(options.baseURL.GetOr(""), options.headers.GetOr(map[]),
           options.timeout.GetOr(DefaultTimeout), options.fetchOptions.GetOr(map[]))
  }

  /** `setBaseURL(url)`: a falsy argument (here `None` or the empty string)
      clears the base. */
  function SetBaseURL(c: Config, url: Option<string>): (r: Config)
    ensures url.Some? ==> r.baseURL == url.value
    ensures url.None? ==> r.baseURL == ""
    ensures r.headers == c.headers && r.timeout == c.timeout && r.fetchOptions == c.fetchOptions
  {
    c.(baseURL := url.GetOr(""))
  }

  /** `setTimeout(ms)`: only a positive number is taken; `None` is a value
      that is not a number (NaN, which is never positive, is `None` too). */
  function SetTimeout(c: Config, ms: Option<real>): (r: Config)
    ensures ms.Some? && ms.value > 0.0 ==> r == c.(timeout := ms.value)
    ensures !(ms.Some? && ms.value > 0.0) ==> r == c
  {
    if ms.Some? && ms.value > 0.0 then c.(timeout := ms.value) else c
  }

  /** `setHeaders(h)`: merged over the current headers. */
  function SetHeaders(c: Config, h: Option<Headers>): (r: Config)
    ensures h.None? ==> r == c
    ensures h.Some? ==> r.headers.Keys == c.headers.Keys + h.value.Keys
    ensures h.Some? ==> forall k :: k in h.value ==> r.headers[k] == h.value[k]
    ensures h.Some? ==> forall k :: k in c.headers && k !in h.value ==> r.headers[k] == c.headers[k]
    ensures r.baseURL == c.baseURL && r.timeout == c.timeout && r.fetchOptions == c.fetchOptions
  {
    match h
    case None => c
    case Some(m) => c.(headers := c.headers + m)
  }

  /** A field of `updateConfig`'s argument: `undefined`, or a value that
      may itself be falsy or not a number. */
  datatype Partial = Partial(baseURL: Option<Option<string>>, timeout: Option<Option<real>>,
                             headers: Option<Headers>, fetchOptions: Option<map<string, string>>)

  /** `updateConfig(partial)`: a missing or non-object argument is `None`
      and changes nothing; every present field goes through its setter. */
  function UpdateConfig(c: Config, partial: Option<Partial>): (r: Config)
    ensures partial.None? ==> r == c
    ensures partial.Some? ==> var p := partial.value;
      && r.baseURL == (if p.baseURL.Some? then p.baseURL.value.GetOr("") else c.baseURL)
      && r.timeout == (if p.timeout.Some? && p.timeout.value.Some? && p.timeout.value.value > 0.0
                       then p.timeout.value.value else c.timeout)
      && r.headers == (if p.headers.Some? then c.headers + p.headers.value else c.headers)
      && r.fetchOptions == (if p.fetchOptions.Some? then c.fetchOptions + p.fetchOptions.value else c.fetchOptions)
  {
    match partial
    case None => c
    case Some(p) =>
      var c1 := if p.baseURL.Some? then SetBaseURL(c, p.baseURL.value) else c;
      var c2 := if p.timeout.Some? then SetTimeout(c1, p.timeout.value) else c1;
      var c3 := SetHeaders(c2, p.headers);
      if p.fetchOptions.Some? then c3.(fetchOptions := c3.fetchOptions + p.fetchOptions.value) else c3
  }

  /** An empty update leaves the configuration alone. */
  lemma UpdateConfigEmpty(c: Config)
    ensures UpdateConfig(c, Some(Partial(None, None, None, None))) == c
  {
  }

  /** `_mergeOptions(local)`: per-call values win where they are given. */
  function MergeOptions(c: Config, local: Options): (r: Config)
    ensures r.baseURL == (if local.baseURL.Some? then local.baseURL.value else c.baseURL)
    ensures r.timeout == (if local.timeout.Some? then local.timeout.value else c.timeout)
    ensures r.headers.Keys == c.headers.Keys + local.headers.GetOr(map[]).Keys
    ensures forall k :: k in r.headers ==>
      r.headers[k] == (if local.headers.Some? && k in local.headers.value then local.headers.value[k] else c.headers[k])
    ensures r.fetchOptions.Keys == c.fetchOptions.Keys + local.fetchOptions.GetOr(map[]).Keys
    ensures forall k :: k in r.fetchOptions ==>
      r.fetchOptions[k] == (if local.fetchOptions.Some? && k in local.fetchOptions.value
                            then local.fetchOptions.value[k] else c.fetchOptions[k])
  {
    Config(local.baseURL.GetOr(c.baseURL), c.headers + local.headers.GetOr(map[]),
           local.timeout.GetOr(c.timeout), c.fetchOptions + local.fetchOptions.GetOr(map[]))
  }

  /** Merging no per-call options gives the configuration back. */
  lemma MergeNoOptions(c: Config)
    ensures MergeOptions(c, NoOptions) == c
  {
    assert c.headers + map[] == c.headers;
    assert c.fetchOptions + map[] == c.fetchOptions;
  }

  /** ASCII-only case-insensitive prefix test, as the `/i` flag does it
      for a pattern of ASCII letters. */
  predicate StartsWithIgnoringCase(s: string, prefix: string)
  {
    |prefix| <= |s| && Lower(s[..|prefix|]) == prefix
  }

  /** `/^https?:\/\//i`. */
  predicate IsAbsolute(url: string)
  {
    StartsWithIgnoringCase(url, "http://") || StartsWithIgnoringCase(url, "https://")
  }

  /** `replace(/\/+$/, '')`. */
  function StripTrailingSlashes(s: string): (r: string)
    ensures |r| <= |s| && s[..|r|] == r
    ensures forall k :: |r| <= k < |s| ==> s[k] == '/'
    ensures r == [] || r[|r| - 1] != '/'
  {
    if s != [] && s[|s| - 1] == '/' then StripTrailingSlashes(s[..|s| - 1]) else s
  }

  /** `replace(/^\/+/, '')`. */
  function StripLeadingSlashes(s: string): (r: string)
    ensures |r| <= |s| && s[|s| - |r|..] == r
    ensures forall k :: 0 <= k < |s| - |r| ==> s[k] == '/'
    ensures r == [] || r[0] != '/'
  {
    if s != [] && s[0] == '/' then StripLeadingSlashes(s[1..]) else s
  }

  /** `_buildURL(url, baseURL)`: an empty base or an absolute URL is
      returned as it is; otherwise base and path are joined by exactly one
      slash. */
  function BuildURL(url: string, baseURL: string): (r: string)
    ensures baseURL == "" || IsAbsolute(url) ==> r == url
    ensures baseURL != "" && !IsAbsolute(url) ==>
      r == StripTrailingSlashes(baseURL) + "/" + StripLeadingSlashes(url)
  {
    if baseURL == "" then url
    else if IsAbsolute(url) then url
    else StripTrailingSlashes(baseURL) + "/" + StripLeadingSlashes(url)
  }

  /** A joined URL has a single slash at the seam: the base without its
      trailing slashes, then `/`, then the path without its leading
      slashes. */
  lemma BuildURLSeam(url: string, baseURL: string)
    requires baseURL != "" && !IsAbsolute(url)
    ensures var r := BuildURL(url, baseURL);
      var n := |StripTrailingSlashes(baseURL)|;
      && n < |r| && r[n] == '/'
      && r[..n] == baseURL[..n]
      && (n == 0 || r[n - 1] != '/')
      && (n + 1 == |r| || r[n + 1] != '/')
      && r[n + 1..] == url[|url| - (|r| - n - 1)..]
  {
  }

  /** Slashes at the seam do not matter: a base with extra trailing and a
      path with extra leading slashes give the same URL. */
  lemma BuildURLIgnoresSeamSlashes(url: string, baseURL: string, i: nat, j: nat)
    requires baseURL != "" && !IsAbsolute(url) && !IsAbsolute(Slashes(i) + url)
    ensures BuildURL(Slashes(i) + url, baseURL + Slashes(j)) == BuildURL(url, baseURL)
  {
    StripTrailingMore(baseURL, j);
    StripLeadingMore(url, i);
  }

  function Slashes(n: nat): (r: string)
    ensures |r| == n && forall k :: 0 <= k < n ==> r[k] == '/'
  {
    if n == 0 then "" else Slashes(n - 1) + "/"
  }

  lemma {:induction false} StripTrailingMore(s: string, j: nat)
    ensures StripTrailingSlashes(s + Slashes(j)) == StripTrailingSlashes(s)
    decreases j
  {
    if j > 0 {
      assert (s + Slashes(j))[..|s + Slashes(j)| - 1] == s + Slashes(j - 1);
      StripTrailingMore(s, j - 1);
    } else {
      assert s + Slashes(j) == s;
    }
  }

  lemma StripLeadingMore(s: string, i: nat)
    ensures StripLeadingSlashes(Slashes(i) + s) == StripLeadingSlashes(s)
  {
    var t := Slashes(i) + s;
    assert t[i..] == s;
    StripLeadingPrefix(t, i);
  }

  lemma {:induction false} StripLeadingPrefix(t: string, n: nat)
    requires n <= |t| && forall k :: 0 <= k < n ==> t[k] == '/'
    ensures StripLeadingSlashes(t) == StripLeadingSlashes(t[n..])
    decreases n
  {
    if n > 0 {
      assert t[1..][n - 1..] == t[n..];
      StripLeadingPrefix(t[1..], n - 1);
    }
  }

  /** The `toLowerCase() === 'content-type'` test of one key. */
  predicate IsContentTypeKey(k: string)
  {
    Lower(k) == "content-type"
  }

  /** `_hasContentType(headers)`, over the keys in `Object.keys` order. */
  function HasContentTypeIn(keys: seq<string>): (b: bool)
    ensures b <==> exists k :: k in keys && IsContentTypeKey(k)
  {
    if keys == [] then false else IsContentTypeKey(keys[0]) || HasContentTypeIn(keys[1..])
  }

  const JsonType := "application/json"

  /** The headers `_request` sends: a JSON `Content-Type` is added only for
      a request with a body and no content-type header in any spelling. */
  function RequestHeaders(h: Headers, keys: seq<string>, hasBody: bool): (r: Headers)
    requires forall k :: k in h <==> k in keys
    ensures !hasBody || HasContentTypeIn(keys) ==> r == h
    ensures hasBody && !HasContentTypeIn(keys) ==> r == h["Content-Type" := JsonType]
  {
    if hasBody && !HasContentTypeIn(keys) then h["Content-Type" := JsonType] else h
  }

  /** After preparation a request with a body always carries a content
      type, and no header the caller set is overwritten. */
  lemma RequestHeadersKeep(h: Headers, keys: seq<string>, hasBody: bool)
    requires forall k :: k in h <==> k in keys
    ensures var r := RequestHeaders(h, keys, hasBody);
      && (forall k :: k in h ==> k in r && r[k] == h[k])
      && (hasBody ==> exists k :: k in r && IsContentTypeKey(k))
  {
    var r := RequestHeaders(h, keys, hasBody);
    if hasBody {
      if HasContentTypeIn(keys) {
        var k :| k in keys && IsContentTypeKey(k);
        assert k in r;
      } else {
        assert IsContentTypeKey("Content-Type");
        assert "Content-Type" in r;
      }
    }
  }

  /** What `_request` does with a response it got. */
  datatype ResponseKind = HttpError | NoContent | JsonBody | RawText

  /** The status and content-type rules of `_request`; a missing
      `Content-Type` header reads as the empty string. */
  function ClassifyResponse(ok: bool, status: int, contentType: Option<string>): (k: ResponseKind)
    ensures k == HttpError <==> !ok
    ensures k == NoContent <==> ok && status == 204
    ensures k == JsonBody <==> ok && status != 204 && Contains(contentType.GetOr(""), JsonType)
    ensures k == RawText <==> ok && status != 204 && !Contains(contentType.GetOr(""), JsonType)
  {
    if !ok then HttpError
    else if status == 204 then NoContent
    else if Contains(contentType.GetOr(""), JsonType) then JsonBody
    else RawText
  }

  const PreviewLimit := 120

  /** `_safeJsonPreview`: `serialized` is what `JSON.stringify` produced,
      `None` when it threw or gave `undefined`. Lengths are JavaScript
      lengths, in UTF-16 code units. */
  function SafePreview(serialized: Option<string>): (r: string)
    ensures Utf16Length(r) <= PreviewLimit
    ensures serialized.None? ==> r == ""
    ensures serialized.Some? && Utf16Length(serialized.value) <= PreviewLimit ==> r == serialized.value
    ensures serialized.Some? && Utf16Length(serialized.value) > PreviewLimit ==>
      |r| >= 3 && r[|r| - 3..] == "..." &&
      var head := r[..|r| - 3];
      && |head| < |serialized.value| && head == serialized.value[..|head|]
      && 116 <= Utf16Length(head) <= 117
      && Utf16Length(head) + Units(serialized.value[|head|]) > 117
  {
    match serialized
    case None => ""
    case Some(s) =>
      if Utf16Length(s) > PreviewLimit then
        var head := Utf16Prefix(s, 117);
        Utf16LengthAppend(head, "...");
        assert (head + "...")[..|head|] == head;
        head + "..."
      else s
  }

  /** A preview of a preview is the same preview. */
  lemma SafePreviewIdempotent(serialized: Option<string>)
    ensures SafePreview(Some(SafePreview(serialized))) == SafePreview(serialized)
  {
    assert Utf16Length(SafePreview(serialized)) <= PreviewLimit;
  }

  /** The body part of the `HTTP ...` error: a JSON body that is an empty
      object adds nothing, another one its preview; a text body its first
      120 UTF-16 units once trimmed. */
  datatype ErrorBody = JsonError(serialized: Option<string>, emptyObject: bool) | TextError(text: string)

  function ErrorSnippet(body: ErrorBody): (r: string)
    ensures r == "" || r[0] == ' '
    ensures Utf16Length(r) <= PreviewLimit + 1
    ensures body.JsonError? && body.emptyObject ==> r == ""
    ensures body.JsonError? && !body.emptyObject ==>
      r == (if SafePreview(body.serialized) == "" then "" else " " + SafePreview(body.serialized))
    ensures body.TextError? && Trim(body.text) == "" ==> r == ""
    ensures body.TextError? && Trim(body.text) != "" ==> var t := Trim(body.text);
      && 2 <= |r| <= |t| + 1 && r[1..] == t[..|r| - 1]
      && (Utf16Length(t) <= PreviewLimit ==> r[1..] == t)
      && (|r| - 1 < |t| ==> Utf16Length(r[1..]) + Units(t[|r| - 1]) > PreviewLimit)
  {
    match body
    case JsonError(serialized, empty) =>
      var p := SafePreview(serialized);
      Utf16LengthAppend(" ", p);
      if empty || p == "" then "" else " " + p
    case TextError(text) =>
      var t := Trim(text);
      var head := Utf16Prefix(t, PreviewLimit);
      Utf16LengthAppend(" ", head);
      assert (" " + head)[1..] == head;
      if t == "" then "" else " " + head
  }

  /** The URL, timeout and headers `_request` hands to `fetch`. */
  datatype Prepared = Prepared(url: string, timeout: real, headers: Headers)

  function Prepare(c: Config, url: string, local: Options, keys: seq<string>, hasBody: bool): (p: Prepared)
    requires forall k :: k in MergeOptions(c, local).headers <==> k in keys
    ensures p.url == BuildURL(url, MergeOptions(c, local).baseURL)
    ensures p.timeout == MergeOptions(c, local).timeout
    ensures p.headers == RequestHeaders(MergeOptions(c, local).headers, keys, hasBody)
  {
    var cfg := MergeOptions(c, local);
    Prepared(BuildURL(url, cfg.baseURL), cfg.timeout, RequestHeaders(cfg.headers, keys, hasBody))
  }
}
