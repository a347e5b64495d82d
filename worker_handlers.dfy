/** The decisions of the worker's request handlers around the playlist code:
    the upstream request headers and response of `/api/proxy`, Plan B of
    `/api/get-m3u8`, and the choice of `best`. Upstream calls are oracles. */
module WorkerHandlers {
  import opened Wrappers
  import opened JsString
  import opened JsObject
  import opened UriCodec
  import opened ProxyLink
  import opened Ranking
  import opened MasterPlaylist
  import opened MediaPlaylist
  import opened Storyboard

  /** `COMMON_HEADERS`, in declaration order. */
  const COMMON_HEADERS: Dict := [
    ("Access-Control-Allow-Origin", "*"),
    ("Access-Control-Allow-Methods", "GET, POST, OPTIONS"),
    ("Access-Control-Allow-Headers", "Content-Type, Cache-Control, Range"),
    ("Access-Control-Expose-Headers", "Content-Length, Content-Range"),
    ("User-Agent", "Mozilla/5.0 (Windows NT 10.0; Win64; x64) AppleWebKit/537.36 (KHTML, like Gecko) Chrome/91.0.4472.124 Safari/537.36"),
    ("Referer", "https://www.twitch.tv/"),
    ("Origin", "https://www.twitch.tv")
  ]

  const RANGE: string := "Range"

  lemma RangeNotCommon()
    ensures RANGE !in Keys(COMMON_HEADERS)
  {
    var d := COMMON_HEADERS;
    forall i | 0 <= i < |d| ensures d[i].0 != RANGE {
      var key := d[i].0;
      assert key[0] != 'R' || key[1] != 'a';
    }
    NotAKey(d, RANGE);
  }

  /** The headers the worker sends upstream: `COMMON_HEADERS`, then `Range`
      copied from the incoming request when it carries one. */
  function FetchHeaders(range: Option<string>): Dict
  {
    if Truthy(range) then COMMON_HEADERS + [(RANGE, range.value)] else COMMON_HEADERS
  }

  /** worker.js builds the upstream headers by copying `COMMON_HEADERS` and
      then assigning `Range` when the request has one. */
  method BuildFetchHeaders(range: Option<string>) returns (h: Dict)
    ensures h == FetchHeaders(range)
  {
    h := COMMON_HEADERS;
    if range.Some? && range.value != "" {
      RangeNotCommon();
      h := Put(h, RANGE, range.value);
    }
  }

  /** Upstream receives `Range` exactly when the request carried a non-empty
      one, with the same value, and every common header unchanged. */
  lemma FetchHeadersForwardRange(range: Option<string>, k: string)
    ensures Lookup(FetchHeaders(range), RANGE) == if Truthy(range) then range else None
    ensures k != RANGE ==> Lookup(FetchHeaders(range), k) == Lookup(COMMON_HEADERS, k)
  {
    RangeNotCommon();
    OptionalHeaderLookup(COMMON_HEADERS, RANGE, range, k);
  }

  /** Appending a header absent from `common` when the request carries a
      non-empty value for it. */
  lemma OptionalHeaderLookup(common: Dict, name: string, value: Option<string>, k: string)
    requires name !in Keys(common)
    ensures var h := if Truthy(value) then common + [(name, value.value)] else common;
            && Lookup(h, name) == (if Truthy(value) then value else None)
            && (k != name ==> Lookup(h, k) == Lookup(common, k))
  {
    if Truthy(value) {
      LookupAppendAbsent(common, (name, value.value), name);
      LookupAppendAbsent(common, (name, value.value), k);
    } else {
      LookupFindsKeys(common, name);
    }
  }

  // ----- /api/proxy -----

  /** What `fetch` gives: a response (status, post-redirect URL, headers,
      body), or a rejection. */
  datatype Fetched = Answered(status: int, finalUrl: string, headers: Dict, body: string) | Rejected

  /** The worker's reply: a response, or the 500 JSON error of the top-level `catch`. */
  datatype Reply = Sent(status: int, headers: Dict, body: string) | ServerError

  /** The statuses for which the Fetch standard allows no body: `new Response`
      given a text body, even `""`, with one of them throws a `TypeError`. */
  predicate NullBodyStatus(status: int) {
    status == 101 || status == 103 || status == 204 || status == 205 || status == 304
  }

  /** The response of `/api/proxy` for target `target` once upstream has
      answered: the upstream status and headers with two CORS headers set, and
      for a `.m3u8` target the rewritten playlist as body, else the body as is.
      Every other upstream header, such as `Content-Length` and
      `Content-Range` of a 206 segment, is passed through unchanged. A
      rewritten playlist with a null-body status makes `new Response` throw,
      and the top-level `catch` answers 500; a segment's body is then `null`,
      which `new Response` accepts. */
  function Relay(target: string, isVod: bool, origin: string, res: Fetched): (r: Reply)
    ensures r.ServerError? <==> res.Rejected? || (IsPlaylistRef(target) && NullBodyStatus(res.status))
    ensures r.Sent? ==> r.status == res.status
                        && Lookup(r.headers, "Access-Control-Allow-Origin") == Some("*")
                        && Lookup(r.headers, "Access-Control-Expose-Headers") == Some("*")
    ensures r.Sent? && IsPlaylistRef(target) ==>
              r.body == WorkerRewrite(res.body, res.finalUrl, origin, isVod)
              && Lookup(r.headers, "Content-Type") == Some("application/vnd.apple.mpegurl")
    ensures r.Sent? && !IsPlaylistRef(target) ==> r.body == res.body
    ensures r.Sent? ==>
              forall k :: k != "Access-Control-Allow-Origin" && k != "Access-Control-Expose-Headers"
                          && !(IsPlaylistRef(target) && k == "Content-Type")
                          ==> Lookup(r.headers, k) == Lookup(res.headers, k)
  {
    if res.Rejected? then ServerError
    else
      var h := Put(Put(res.headers, "Access-Control-Allow-Origin", "*"), "Access-Control-Expose-Headers", "*");
      CorsSet(res.headers);
      if IsPlaylistRef(target) && NullBodyStatus(res.status) then ServerError
      else if IsPlaylistRef(target) then
        ContentTypeKeepsCors(h);
        Sent(res.status, Put(h, "Content-Type", "application/vnd.apple.mpegurl"),
             WorkerRewrite(res.body, res.finalUrl, origin, isVod))
      else Sent(res.status, h, res.body)
  }

  /** Setting the two CORS headers one after the other leaves both set. */
  lemma CorsSet(h0: Dict)
    ensures var h := Put(Put(h0, "Access-Control-Allow-Origin", "*"), "Access-Control-Expose-Headers", "*");
            Lookup(h, "Access-Control-Allow-Origin") == Some("*") && Lookup(h, "Access-Control-Expose-Headers") == Some("*")
  {
    assert "Access-Control-Allow-Origin" != "Access-Control-Expose-Headers" by {
      assert "Access-Control-Allow-Origin"[15] != "Access-Control-Expose-Headers"[15];
    }
    TwoPuts(h0, "Access-Control-Allow-Origin", "Access-Control-Expose-Headers", "*");
  }

  /** Setting two different headers to the same value leaves both set. */
  lemma TwoPuts(h0: Dict, a: string, b: string, v: string)
    requires a != b
    ensures Lookup(Put(Put(h0, a, v), b, v), a) == Some(v) && Lookup(Put(Put(h0, a, v), b, v), b) == Some(v)
  {
    PutElsewhere(Put(h0, a, v), b, v, a);
  }

  lemma ContentTypeKeepsCors(h: Dict)
    ensures Lookup(Put(h, "Content-Type", "application/vnd.apple.mpegurl"), "Access-Control-Allow-Origin")
         == Lookup(h, "Access-Control-Allow-Origin")
    ensures Lookup(Put(h, "Content-Type", "application/vnd.apple.mpegurl"), "Access-Control-Expose-Headers")
         == Lookup(h, "Access-Control-Expose-Headers")
  {
    assert "Content-Type" != "Access-Control-Allow-Origin" by {
      assert "Content-Type"[0] != "Access-Control-Allow-Origin"[0];
    }
    assert "Content-Type" != "Access-Control-Expose-Headers" by {
      assert "Content-Type"[0] != "Access-Control-Expose-Headers"[0];
    }
    PutElsewhere(h, "Content-Type", "application/vnd.apple.mpegurl", "Access-Control-Allow-Origin");
    PutElsewhere(h, "Content-Type", "application/vnd.apple.mpegurl", "Access-Control-Expose-Headers");
  }

  /** `handleProxy(url, request)`: `url` is the request URL, `origin` its
      origin, `range` the request's `Range` header and `fetch` the upstream. */
  function HandleProxy(requestUrl: string, origin: string, range: Option<string>,
                       fetch: (string, Dict) -> Fetched): Reply
  {
    var target := SearchParam(requestUrl, "url");
    if !Truthy(target) then Sent(400, [], "URL manquante")
    else
      var isVod := SearchParam(requestUrl, "isVod") == Some("true");
      Relay(target.value, isVod, origin, fetch(target.value, FetchHeaders(range)))
  }

  /** A request without a (non-empty) `url` parameter is refused with 400. */
  lemma MissingTargetRefused(requestUrl: string, origin: string, range: Option<string>,
                             fetch: (string, Dict) -> Fetched)
    requires !Truthy(SearchParam(requestUrl, "url"))
    ensures HandleProxy(requestUrl, origin, range, fetch).Sent?
    ensures HandleProxy(requestUrl, origin, range, fetch).status == 400
  {
  }

  /** Following a link the worker wrote fetches exactly the wrapped URL, with
      the forwarded headers, and relays it with the VOD flag it was written with. */
  lemma ProxyLinkFollowed(linkOrigin: string, u: string, isVod: bool, origin: string,
                          range: Option<string>, fetch: (string, Dict) -> Fetched)
    requires '?' !in linkOrigin && u != ""
    ensures HandleProxy(ProxyUrl(linkOrigin, u, isVod), origin, range, fetch)
         == Relay(u, isVod, origin, fetch(u, FetchHeaders(range)))
  {
    ProxyUrlRoundTrip(linkOrigin, u, isVod);
  }

  // ----- best -----

  /** `links["Source"] || links["Auto"]` */
  function BestOf(links: Dict): Option<string>
  {
    var s := Lookup(links, "Source");
    if Truthy(s) then s else Lookup(links, AUTO)
  }

  lemma ProxyUrlNotEmpty(origin: string, u: string, isVod: bool)
    ensures ProxyUrl(origin, u, isVod) != ""
  {
    assert |ProxyUrl(origin, u, isVod)| >= |"/api/proxy?url="|;
  }

  /** For a master playlist (live or Plan A), `best` is the `Source` variant
      when the playlist has one, and otherwise the `Auto` link. */
  lemma ParsedBest(content: string, master: string, origin: string, isVod: bool)
    ensures var u := Variants(content, origin, isVod);
            var links := Parsed(content, master, origin, isVod);
            BestOf(links) == if "Source" in Keys(u) then Lookup(u, "Source") else Lookup(links, AUTO)
  {
    var u := Variants(content, origin, isVod);
    ParsedLookup(content, master, origin, isVod, "Source");
    LookupFindsKeys(u, "Source");
    if "Source" in Keys(u) {
      ScanValues(Lines(content), origin, isVod, "Source");
    }
  }

  // ----- Plan B -----

  /** The wrapping Plan B applies to every found URL. */
  function VodWrapper(origin: string): string -> string {
    u => ProxyUrl(origin, u, true)
  }

  /** The links Plan B answers with for the tiers `raw` found by the storyboard
      scan: `Auto` with the first tier found, then the tiers regrouped by
      display order and wrapped; tiers matching no display key are dropped. */
  function PlanBLinks(raw: Dict, origin: string): Dict
    requires raw != []
  {
    Assign([(AUTO, ProxyUrl(origin, raw[0].1, true))],
           MapValues(ClassesUpTo(raw, DISPLAY_ORDER, |DISPLAY_ORDER|), VodWrapper(origin)))
  }

  /** Plan B of `handleGetM3U8` once `storyboardHack` has resolved to `raw`:
      nothing when it found no tier, else the regrouped links. */
  method PlanB(raw: Dict, origin: string) returns (links: Option<Dict>)
    requires UniqueKeys(raw)
    ensures raw == [] ==> links == None
    ensures raw != [] ==> links == Some(PlanBLinks(raw, origin))
  {
    if |Keys(raw)| == 0 {
      return None;
    }
    var proxied: Dict := [];
    var first := ProxyUrl(origin, Values(raw)[0], true);
    proxied := Put(proxied, AUTO, first);
    assert proxied == [(AUTO, first)];
    var leftover;
    proxied, leftover := Regroup(proxied, raw, DISPLAY_ORDER, VodWrapper(origin));
    links := Some(proxied);
  }

  lemma NoMatchLonger(tier: string, key: string)
    requires |key| > |tier|
    ensures !Matches(tier, key)
  {
    NotContained(ToLower(tier), ToLower(key));
  }

  /** `Auto` contains no display key: every key is longer than it. */
  lemma AutoUnranked()
    ensures Rank(AUTO, DISPLAY_ORDER) == |DISPLAY_ORDER|
  {
    forall j | 0 <= j < |DISPLAY_ORDER| ensures !Matches(AUTO, DISPLAY_ORDER[j]) {
      var key := DISPLAY_ORDER[j];
      assert key in DISPLAY_ORDER;
      NoMatchLonger(AUTO, key);
    }
    Unranked(AUTO, DISPLAY_ORDER);
  }

  /** What Plan B stores under each key: the wrapped URL of every found tier
      that contains a display key, `Auto` with the first tier found, and
      nothing else. */
  lemma PlanBLookup(raw: Dict, origin: string, k: string)
    requires UniqueKeys(raw) && raw != []
    ensures Lookup(PlanBLinks(raw, origin), k)
         == if Rank(k, DISPLAY_ORDER) < |DISPLAY_ORDER| && Lookup(raw, k).Some?
            then Some(ProxyUrl(origin, Lookup(raw, k).value, true))
            else if k == AUTO then Some(ProxyUrl(origin, raw[0].1, true))
            else None
  {
    var first := ProxyUrl(origin, raw[0].1, true);
    WrappedGroupsLookup(raw, DISPLAY_ORDER, VodWrapper(origin), [(AUTO, first)], k);
    assert Lookup([(AUTO, first)], k) == if k == AUTO then Some(first) else None;
    AutoUnranked();
  }

  /** Assigning the regrouped entries of `raw`, with `w` applied to every value,
      onto `a`: a key of `raw` that matches a key of the order holds its
      wrapped value, and any other key reads as in `a`. */
  lemma WrappedGroupsLookup(raw: Dict, order: seq<string>, w: string -> string, a: Dict, k: string)
    requires UniqueKeys(raw)
    ensures Lookup(Assign(a, MapValues(ClassesUpTo(raw, order, |order|), w)), k)
         == if Rank(k, order) < |order| && Lookup(raw, k).Some? then Some(w(Lookup(raw, k).value))
            else Lookup(a, k)
  {
    var c := ClassesUpTo(raw, order, |order|);
    var m := MapValues(c, w);
    assert UniqueKeys(m) by {
      ClassesUnique(raw, order, |order|);
      forall i, j | 0 <= i < j < |m| ensures m[i].0 != m[j].0 {
        assert m[i].0 == c[i].0 && m[j].0 == c[j].0;
      }
    }
    assert Lookup(Assign(a, m), k) == if Lookup(m, k).Some? then Lookup(m, k) else Lookup(a, k) by {
      AssignLookup(a, m, k);
      LookupFindsKeys(m, k);
    }
    assert Lookup(m, k) == if Lookup(c, k).Some? then Some(w(Lookup(c, k).value)) else None by {
      MapValuesLookup(c, w, k);
    }
    assert Lookup(c, k) == if Rank(k, order) < |order| then Lookup(raw, k) else None by {
      ClassesLookup(raw, order, |order|, k);
    }
  }

  lemma LowerOfLower(s: string)
    requires forall i :: 0 <= i < |s| ==> !('A' <= s[i] <= 'Z')
    ensures ToLower(s) == s
  {
  }

  /** The first characters of the display keys before `audio_only`, lower-cased, do not occur in `chunked`. */
  lemma LeadNotInChunked(c: char)
    requires c in "S17431"
    ensures LowerChar(c) !in "chunked"
  {
  }

  lemma ChunkedMissesKey(j: int)
    requires 0 <= j < |DISPLAY_ORDER| && ToLower("chunked") == "chunked"
    ensures !Matches("chunked", DISPLAY_ORDER[j])
  {
    var t := "chunked";
    var key := DISPLAY_ORDER[j];
    if j == 8 {
      assert key == "audio_only";
      NoMatchLonger(t, key);
    } else {
      assert key in DISPLAY_ORDER[..8];
      assert key[0] in "S17431";
      assert ToLower(key)[0] == LowerChar(key[0]);
      LeadNotInChunked(key[0]);
      NotContained(t, ToLower(key));
    }
  }

  /** `chunked` contains no display key, so Plan B never lists a `chunked` tier. */
  lemma ChunkedDropped(raw: Dict, origin: string)
    requires UniqueKeys(raw) && raw != []
    ensures Lookup(PlanBLinks(raw, origin), "chunked") == None
  {
    ChunkedUnranked();
    ChunkedIsNotAuto();
    PlanBUnranked(raw, origin, "chunked");
  }

  lemma ChunkedIsNotAuto()
    ensures "chunked" != AUTO
  {
    assert "chunked"[0] != AUTO[0];
  }

  /** `chunked` falls in the group of labels matching no display key. */
  lemma ChunkedUnranked()
    ensures Rank("chunked", DISPLAY_ORDER) == |DISPLAY_ORDER|
  {
    var t := "chunked";
    LowerOfLower(t);
    forall j | 0 <= j < |DISPLAY_ORDER| ensures !Matches(t, DISPLAY_ORDER[j]) {
      ChunkedMissesKey(j);
    }
    Unranked(t, DISPLAY_ORDER);
  }

  /** A key other than `Auto` that matches no display key is absent from Plan B's links. */
  lemma PlanBUnranked(raw: Dict, origin: string, k: string)
    requires UniqueKeys(raw) && raw != []
    requires Rank(k, DISPLAY_ORDER) == |DISPLAY_ORDER| && k != AUTO
    ensures Lookup(PlanBLinks(raw, origin), k) == None
  {
    PlanBLookup(raw, origin, k);
  }

  /** Plan B's tiers are lower-case names from `QUALITY_ORDER`, never
      `Source`, so its `best` is always the `Auto` link. */
  lemma PlanBBestIsAuto(raw: Dict, origin: string)
    requires UniqueKeys(raw) && raw != []
    requires forall i :: 0 <= i < |raw| ==> raw[i].0 in QUALITY_ORDER
    ensures BestOf(PlanBLinks(raw, origin)) == Some(ProxyUrl(origin, raw[0].1, true))
  {
    assert "Source" !in QUALITY_ORDER;
    assert "Source" !in Keys(raw);
    LookupFindsKeys(raw, "Source");
    PlanBLookup(raw, origin, "Source");
    PlanBLookup(raw, origin, AUTO);
    AutoUnranked();
  }

  // ----- /api/get-m3u8 -----

  /** A JSON answer of the worker: links with their `best`, or an error. */
  datatype Answer = Links(links: Dict, best: Option<string>, backup: bool) | Error(status: int, message: string)

  /** `handleGetM3U8`. `id` is the `id` query parameter; `planA` is the body
      and final URL of the usher playlist when a token was granted and the
      fetch succeeded, `None` otherwise; `raw` is what `storyboardHack`
      resolved to (`[]` also when there was no `seekPreviewsURL`). A missing
      `id` is answered by `jsonError` without a status, hence 200. */
  function HandleGetM3U8(id: Option<string>, planA: Option<(string, string)>, raw: Dict, origin: string): Answer
  {
    if !Truthy(id) then Error(200, "ID manquant")
    else if planA.Some? then
      var links := Parsed(planA.value.0, planA.value.1, origin, true);
      Links(links, BestOf(links), false)
    else if raw != [] then
      var links := PlanBLinks(raw, origin);
      Links(links, BestOf(links), true)
    else Error(404, "VOD introuvable ou protégée")
  }

  /** What the worker's `storyboardHack` returns meets the requirements of
      Plan B and of `handleGetM3U8`: unique keys, each a tier of `QUALITY_ORDER`. */
  lemma StoryboardFitsPlanB(seekUrl: string, host: Option<string>, probe: string -> Probe, completion: seq<string>)
    requires IsCompletionOrder(completion)
    ensures var raw := WorkerResult(seekUrl, host, probe, completion);
            UniqueKeys(raw) && forall i :: 0 <= i < |raw| ==> raw[i].0 in QUALITY_ORDER
  {
    var raw := WorkerResult(seekUrl, host, probe, completion);
    var root := WorkerRoot(seekUrl, host);
    WorkerFound(seekUrl, host, probe, completion, "");
    if root.Some? && !AnyFailed(root.value, probe) {
      forall i | 0 <= i < |raw| ensures raw[i].0 in QUALITY_ORDER {
        assert Keys(raw)[i] == raw[i].0;
        FoundKeys(root.value, completion, probe, raw[i].0);
      }
    }
  }

  /** The outcomes of `handleGetM3U8`: an error only for a missing `id` (with
      status 200) or when both plans fail (404); a Plan A answer lists `Auto`
      first; a Plan B answer from a storyboard scan has the `Auto` link as `best`. */
  lemma HandleGetM3U8Outcomes(id: Option<string>, planA: Option<(string, string)>, raw: Dict, origin: string)
    requires UniqueKeys(raw) && forall i :: 0 <= i < |raw| ==> raw[i].0 in QUALITY_ORDER
    ensures var a := HandleGetM3U8(id, planA, raw, origin);
            (a.Error? <==> !Truthy(id) || (planA.None? && raw == []))
            && (a.Error? ==> a.status == if Truthy(id) then 404 else 200)
            && (a.Links? && !a.backup ==> |a.links| >= 1 && a.links[0].0 == AUTO)
            && (a.Links? && a.backup ==> a.best == Some(ProxyUrl(origin, raw[0].1, true)))
  {
    if Truthy(id) && planA.Some? {
      ParsedLookup(planA.value.0, planA.value.1, origin, true, AUTO);
    } else if Truthy(id) && raw != [] {
      PlanBBestIsAuto(raw, origin);
    }
  }
}
