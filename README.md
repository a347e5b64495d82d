# twitch-no-sub: the HLS playlist core, in Dafny

This project models the core of a small proxy that makes Twitch videos
playable without a subscription. It exists in two variants: a Cloudflare
Worker (`worker.js`) and an Express server (`server.js`). The model covers
the following.

- **Master playlists**: `parseAndProxyM3U8` (worker.js). It scans the lines
  of an usher master playlist and takes each variant's quality from its
  `VIDEO="…"` attribute, renaming `chunked` to `Source`. It pairs each
  quality with the next `http` line and wraps that link in a proxy link
  (`{origin}/api/proxy?url=…&isVod=…`). It returns an insertion-ordered
  object that starts with `Auto`, the proxied master playlist, followed by
  the qualities regrouped by the display order `Source`, `1080p60`, …,
  `audio_only`, matched case-insensitively by substring. Labels that match
  no display key come last.
- **Media playlists**: the two `/api/proxy` rewriters. Each splits on line
  feeds, trims each line, and keeps empty lines and `#` lines. Other lines
  are resolved against the playlist's directory. The worker wraps a
  resolved line when it names a `.m3u8` or the playlist is a VOD. The
  server always wraps, with a relative `/api/proxy?url=…` link.
- **The proxy handlers**: the worker's header set with a forwarded
  `Range`, the passed-through status, and the two CORS headers. The
  server's status as decided by axios, and its 500 on failure. Both give
  400 for a missing `url`.
- **Storyboard probing** (`storyboardHack`), in both variants. The storage
  path before `storyboards` is taken from the seek-preview URL, and one
  candidate `https://{host}/{path}/{quality}/index-dvr.m3u8` is probed per
  entry of `QUALITY_ORDER`. The worker probes with `fetch` and the server
  with `checkLink`, which is axios with `validateStatus` 200..499. A probe
  answering 200 keeps its candidate. `Promise.all`'s interleaving is a
  parameter: the order in which the callbacks complete.
- **`/api/get-m3u8`** in both variants. In the worker, Plan A is a token
  plus the master playlist; Plan B is storyboard probing, with its own
  regrouping and `best`. In the server, Plan A is the official usher URL,
  accepted only for a string body containing `#EXTM3U`, and the fallback
  is the probed storyboard tiers. The model also covers the server's
  `/api/get-channel-videos` decisions.

JavaScript objects are modelled as sequences of (key, value) pairs in
insertion order (`JsObject`). Assignment replaces a value in place, and a
fresh key goes at the end. `delete` removes a key, and `Object.assign`
copies entries one after the other. Strings are `seq<char>`.
`encodeURIComponent` is spelled out over UTF-8, and the query parsing of
`URL.searchParams` is modelled with it. So "reading a proxy link back gives
what was wrapped" is a theorem about the model, not an assumption.

Behaviour of the code that the model reproduces, as written:

- A variant whose label contains `Source` ends up in the `Source` group
  even when it also carries a resolution. A label containing `1080p60`
  ranks there unless it holds `source` too.
- In the worker's Plan B, the found keys are the lower-case tiers of
  `QUALITY_ORDER`. So `chunked` matches no display key and is dropped.
  `source` is kept under its own lower-case name, so `links["Source"]` is
  never set and `best` is always the `Auto` link.
- The worker's storyboard probe returns `{}` as soon as any probe rejects,
  even when other tiers answered 200.
- The worker's `jsonError` without a status answers with status 200.
- `/api/get-channel-videos` answers 404 only when the user does not exist
  or the query failed. An existing channel with no videos gets 200 and an
  empty list. The route's own 404 message (`Chaîne introuvable ou aucune
  VOD.`, server.js) suggests that a channel without videos should get 404;
  the model follows the code.

## Model

| member | source | states |
|---|---|---|
| JsString.SplitOn | worker.js:234 | `split` always gives at least one part |
| JsString.JoinSplit | worker.js:168-176 | joining the parts of a split with the same separator gives back the text |
| JsString.SplitJoin | worker.js:234 | splitting on a character undoes joining on it when no part contains it |
| JsString.SplitAtFirst | worker.js:240 | a split cuts at the first occurrence of the separator |
| JsString.ContainsIffOccurs | worker.js:239 | `includes` holds exactly when the needle occurs at some position |
| JsString.Trim | worker.js:169 | `trim` removes JavaScript white space from both ends only, leaving a slice that neither starts nor ends with white space |
| JsString.ToLower | worker.js:248 | `toLowerCase` keeps the length and lowers each character |
| JsString.LastIndexOf | worker.js:166 | `lastIndexOf` finds the last occurrence, or -1 when there is none |
| UriCodec.EncodeUriComponent | worker.js:242 | `encodeURIComponent` output holds only unreserved characters and `%` |
| UriCodec.Utf8RoundTrip | worker.js:242 | decoding the UTF-8 encoding of a string gives the string back |
| UriCodec.PercentRoundTrip | worker.js:242 | percent-decoding the percent-encoding of bytes gives the bytes back |
| UriCodec.UriComponentRoundTrip | worker.js:142 | the query decoder undoes `encodeURIComponent` for every string |
| ProxyLink.ProxyUrlRoundTrip | worker.js:142-145 | `url` and `isVod` read from a proxy link give back the wrapped URL and the VOD flag |
| ProxyLink.RelativeProxyUrlRoundTrip | server.js:135 | `req.query.url` of the server's relative proxy link is the wrapped URL |
| ProxyLink.RewrapIsIdentity | worker.js:173 | wrapping again the URL read back from a proxy link reproduces the same link |
| JsObject.LookupFindsKeys | worker.js:86 | a property is present exactly when its key is among the object's keys |
| JsObject.Put | worker.js:242 | assignment sets the key, leaves the other keys' values alone, and appends only a fresh key |
| JsObject.KeyIndex | worker.js:242 | the position assignment overwrites is the first holding the key, and there is none exactly when the key is absent |
| JsObject.DeleteSpec | worker.js:248 | `delete` removes the key, leaves the other keys' values alone, and changes nothing when the key is absent |
| JsObject.DeleteAppend | worker.js:248 | deleting a key from two objects laid end to end deletes it from each |
| JsObject.AssignLookup | worker.js:249 | after `Object.assign(d, src)` a key has its value in `src` when `src` has it, otherwise its value in `d` |
| JsObject.AssignConcat | worker.js:249 | assigning two sources one after the other is assigning their concatenation |
| JsObject.AssignFresh | worker.js:249 | assigning entries whose keys are all fresh appends them in order |
| JsObject.AssignKeepsFirst | worker.js:245-249 | `Object.assign` never moves the first key of the target |
| JsObject.LookupPermutation | worker.js:248 | two objects with the same entries and unique keys give the same value for every key |
| Ranking.RankFirstMatch | worker.js:248 | the group of a label is the first display key it contains case-insensitively; it contains none of the keys before it |
| Ranking.Unranked | worker.js:248-249 | a label containing no display key falls in the last group, the one `Object.assign` appends |
| Ranking.RankedIsStableSort | worker.js:247-249 | the regrouped entries are a permutation of the scanned ones, sorted by group, in scan order within each group, with keys still unique |
| Ranking.ClassesLookup | worker.js:248 | after the regrouping a label holds its scanned link if it matched some display key, and is absent otherwise |
| Ranking.ClassesStable | worker.js:248 | each display group keeps the entries of that group in their original order |
| Ranking.OfRankOfRank | worker.js:248 | taking one group of a group gives that group, or nothing for another group |
| Ranking.AtLeastSplits | worker.js:248 | the entries still unsorted before group `i` split into group `i` and those still unsorted before group `i+1` |
| Ranking.MoveGroup | worker.js:248 | one pass of the inner `forEach` appends that group's entries to `sorted` and deletes exactly them from `unsorted` |
| Ranking.Regroup | worker.js:247-248 | the whole `displayOrder.forEach` leaves `sorted` extended by the groups in display order and `unsorted` holding the labels that matched no key |
| Ranking.PrependRanked | worker.js:245-249 | assigning the regrouped labels onto an object holding only `Auto` appends them after it, keys unique |
| Ranking.AssignRankedOne | worker.js:245-249 | with one scanned variant the result is `Auto` then that variant |
| MasterPlaylist.LabelOfQuoted | worker.js:239-240 | a line `…VIDEO="v"…` whose first `VIDEO="` is the one shown names quality `v`, or `Source` when `v` is `chunked`, for any `v` without a quote or an `=` |
| MasterPlaylist.InertLinesSkipped | worker.js:238-244 | lines that are neither `VIDEO="` lines nor `http` lines change nothing in the scan |
| MasterPlaylist.Pairing | worker.js:238-243 | a labelled `VIDEO="` line, lines of other kinds, then an `http` line store that link, proxied, under that label (nothing for the label `__proto__`, whose assignment JavaScript ignores), and no label is left waiting |
| MasterPlaylist.UnlabelledLinkIgnored | worker.js:241 | an `http` line with no label waiting is ignored |
| MasterPlaylist.LabelReplaced | worker.js:239-240 | a later `VIDEO="` line replaces a label still waiting |
| MasterPlaylist.ScanLines | worker.js:237-244 | the `lines.forEach` loop ends with the labels and proxied links of the scan and the label left waiting |
| MasterPlaylist.ScanKeys | worker.js:237-243 | the scanned object has unique keys and never the empty label nor `__proto__` |
| MasterPlaylist.ScanValues | worker.js:238-243 | every scanned value is non-empty and is the proxy link, with the playlist's VOD flag, of an `http` line of the playlist that holds no `VIDEO="` |
| MasterPlaylist.ParseAndProxyM3U8 | worker.js:233-251 | the method returns `Auto` linked to the proxied master playlist, with the scanned labels assigned onto it regrouped by the display order |
| MasterPlaylist.ParsedLookup | worker.js:245-250 | `Auto` is always the first key; each other key holds its scanned link; `Auto` holds the master playlist unless a variant took that label |
| MasterPlaylist.ParsedValues | worker.js:233-251 | every value returned is a proxy link whose `url` reads back as the master playlist (under `Auto`) or as an `http` line of the playlist, and whose `isVod` reads back as the VOD flag |
| MasterPlaylist.ParsedOrder | worker.js:245-250 | with no variant labelled `Auto`, the result is `Auto` followed by a stable, group-sorted permutation of the variants, keys unique |
| MasterPlaylist.ParsedOfOne | worker.js:245-250 | a playlist whose scan finds one variant not labelled `Auto` yields `Auto` then that variant |
| MasterPlaylist.ParsedOfNone | worker.js:245-250 | a playlist whose scan finds no variant yields `Auto` alone |
| MasterPlaylist.SingleVariantScan | worker.js:237-244 | a header, one `VIDEO="` line, its `http` link and an empty line scan to that one variant, proxied, or to nothing when the label is `__proto__` |
| MasterPlaylist.SingleVariantPlaylist | worker.js:233-251 | a header, one `VIDEO="` line and its `http` link give exactly `Auto` then that variant (`Auto` alone for the label `__proto__`) |
| MasterPlaylist.ChunkedLabel | worker.js:239-240 | a line ending in `VIDEO="chunked"` with no `V` before the attribute names `Source` |
| MasterPlaylist.ChunkedPlaylistExample | worker.js:233-251 | a header, a `…VIDEO="chunked"` line and its `http` link give `Auto`, then that link under `Source`, both proxied |
| MediaPlaylist.Directory | worker.js:166 | the base is the longest prefix of the final URL that ends with `/`, or empty when there is no `/` |
| MediaPlaylist.Absolute | worker.js:171 | an `http` line is kept; any other line is appended to the base |
| MediaPlaylist.WrappedLink | worker.js:173 | a worker proxy link starts with `{origin}/api/proxy?url=` and its `url` and `isVod` read back as the wrapped URL and the VOD flag |
| MediaPlaylist.WrappedRelativeLink | server.js:168 | a server proxy link starts with `/api/proxy?url=` and its `url` reads back as the wrapped URL |
| MediaPlaylist.WorkerLineCases | worker.js:169-175 | an empty or `#` line passes through trimmed; the others are resolved, and are wrapped, so that `url` and `isVod` read back, exactly when they contain `.m3u8` or the playlist is a VOD |
| MediaPlaylist.ServerLineCases | server.js:159-168 | an empty or `#` line passes through trimmed; every other line is resolved and wrapped in a relative proxy link whose `url` reads back |
| MediaPlaylist.WorkerRewriteLines | worker.js:168-176 | the rewritten playlist has as many lines as the original, line `i` being the rewrite of line `i` |
| MediaPlaylist.ServerRewriteLines | server.js:158-169 | the same for the server's rewrite |
| MediaPlaylist.DirectoryExample | worker.js:166-171 | `seg1.ts` in `https://host/a/b/index.m3u8` resolves to `https://host/a/b/seg1.ts` |
| Storyboard.CheckLink | server.js:86-91 | `checkLink` is true exactly for a probe answering 200 |
| Storyboard.DistinctQualities | worker.js:14 | the quality tiers are pairwise distinct |
| Storyboard.FirstEqual | worker.js:218 | `indexOf` gives the first equal part, or -1 |
| Storyboard.FirstContaining | server.js:101 | `findIndex` gives the first part containing `storyboards`, or -1 |
| Storyboard.SomeFailedIff | worker.js:224-230 | the probes reject exactly when some candidate's fetch fails |
| Storyboard.FoundKeys | worker.js:224-228 | a tier is found exactly when it was probed and answered 200 |
| Storyboard.FoundValues | worker.js:225-227 | every found link is the candidate of its own tier under the root |
| Storyboard.FoundLookup | worker.js:224-228 | a found tier holds its candidate URL; any other key is absent |
| Storyboard.FoundOrderFree | worker.js:224-228 | the settled object gives the same value for every key whatever order the probes complete in |
| Storyboard.AnyFailedInCompletion | worker.js:224-230 | some probe rejects in completion order exactly when some tier's probe fails |
| Storyboard.WorkerStoryboardHack | worker.js:215-231 | `{}` without `storyboards`, without a host, or when any probe rejects; otherwise the tiers answering 200, in completion order |
| Storyboard.WorkerFound | worker.js:215-231 | without a `storyboards` part the result is empty; otherwise keys are unique and each tier holds its candidate exactly when it answered 200 |
| Storyboard.ServerStoryboardHack | server.js:93-128 | the method (probes in any completion order, then the pass over `QUALITY_ORDER`) returns the storyboard result of the server |
| Storyboard.ProbeTiers | server.js:109-116 | the probes, completing in the given order, leave `unsortedLinks` holding the tiers that answered 200 with their candidates |
| Storyboard.SortTiers | server.js:118-123 | the pass over `QUALITY_ORDER` copies the found tiers into `sortedLinks` in `QUALITY_ORDER` order, whatever order they were found in |
| Storyboard.FoundStep | worker.js:224-228 | one more probe completing adds its tier with its candidate exactly when it answered 200 |
| Storyboard.ServerNull | server.js:94-127 | the result is `null` exactly when the URL is empty or unparsable, lacks a `storyboards` part, or no tier answers 200 |
| Storyboard.ServerFound | server.js:106-124 | a non-null result has unique keys, holds exactly the tiers answering 200 with their candidates, and lists them in `QUALITY_ORDER` order |
| Storyboard.FoundInOrder | server.js:118-123 | the entries are listed in the order of the qualities probed |
| WorkerHandlers.RangeNotCommon | worker.js:4-12 | `Range` is not among the fixed request headers |
| WorkerHandlers.BuildFetchHeaders | worker.js:149-152 | the method builds the fixed headers plus `Range` when the request carries one |
| WorkerHandlers.FetchHeadersForwardRange | worker.js:149-152 | the upstream request carries the request's `Range` exactly when it is non-empty, and every other header as fixed |
| WorkerHandlers.OptionalHeaderLookup | worker.js:149-152 | adding `Range` only when the request carries a non-empty one sets it to that value and leaves every other header alone |
| WorkerHandlers.Relay | worker.js:156-186 | a failed fetch, or a `.m3u8` target whose upstream status is a null-body status (101, 103, 204, 205, 304), for which `new Response` with a text body throws, gives the 500 error; otherwise the reply keeps the upstream status and sets both CORS headers to `*`; a `.m3u8` target gets the rewritten body and the playlist content type; any other target gets the body as is; every other upstream header (such as `Content-Length` and `Content-Range`) is passed through unchanged |
| WorkerHandlers.StoryboardFitsPlanB | worker.js:118-119 | what the worker's `storyboardHack` returns has unique keys, each a tier of `QUALITY_ORDER`, as Plan B and `handleGetM3U8` require |
| WorkerHandlers.CorsSet | worker.js:157-159 | after the two `set` calls both CORS headers read `*` |
| WorkerHandlers.ContentTypeKeepsCors | worker.js:158-163 | setting the content type leaves the CORS headers alone |
| WorkerHandlers.MissingTargetRefused | worker.js:142-143 | a request without a non-empty `url` gets 400 |
| WorkerHandlers.ProxyLinkFollowed | worker.js:141-154 | following a proxy link fetches the wrapped URL with the forwarded headers and relays the answer with the wrapped VOD flag |
| WorkerHandlers.ParsedBest | worker.js:107 | `best` is the `Source` variant's link when there is one, and the `Auto` link otherwise |
| WorkerHandlers.PlanB | worker.js:119-131 | the method gives nothing for an empty storyboard result, and otherwise `Auto` then the regrouped proxied tiers |
| WorkerHandlers.AutoUnranked | worker.js:122-131 | the key `Auto` matches no display key |
| WorkerHandlers.PlanBLookup | worker.js:120-131 | in Plan B a tier that matches a display key holds its proxied link, `Auto` holds the first found link proxied, and nothing else appears |
| WorkerHandlers.WrappedGroupsLookup | worker.js:122-131 | after assigning the regrouped, wrapped tiers onto an object, a tier matching a display key holds its wrapped link and every other key reads as before |
| WorkerHandlers.ChunkedDropped | worker.js:121-131 | the `chunked` tier never appears in Plan B's links |
| WorkerHandlers.ChunkedUnranked | worker.js:121-131 | `chunked` contains no display key, so it falls in the group of unmatched labels |
| WorkerHandlers.PlanBBestIsAuto | worker.js:132 | Plan B's `best` is always the `Auto` link |
| WorkerHandlers.HandleGetM3U8Outcomes | worker.js:95-138 | an error only for a missing `id` (status 200) or when both plans fail (404); Plan A starts with `Auto`; Plan B's `best` is its `Auto` link |
| ServerHandlers.ProxyOutcomes | server.js:134-194 | 400 exactly without a `url`; 200 exactly when axios resolves; otherwise 500; both errors are sent as `text/html; charset=utf-8`; a playlist is rewritten and sent as `application/vnd.apple.mpegurl; charset=utf-8`, the charset `res.send` adds to a string body; a segment's body and upstream content type are passed as is |
| ServerHandlers.ProxyLinkFollowed | server.js:134-188 | requesting a relative proxy link relays the wrapped URL |
| ServerHandlers.FoundHead | server.js:228 | the first found entry is the first tier, in probe order, that answered 200 |
| ServerHandlers.GetM3U8Outcomes | server.js:208-234 | 400 exactly without an `id`; the official link exactly when Plan A's body is a string containing `#EXTM3U`; otherwise, when `storyboardHack` finds tiers, those tiers as links with `best` the first tier that answered 200 and the owner's login in `info`, or no reply at all when the video has no owner; 404 exactly when neither plan gives links |
| ServerHandlers.ChannelVideosOutcomes | server.js:196-206 | 400 exactly without a name, 404 exactly when the lookup gave `null`, otherwise the videos as resolved |

## Left out

- The GraphQL calls (`twitchGQL`, `getAccessToken`, `getChannelVideos`, `getVodStoryboardData`), `fetch` and axios are left out. Handlers take what these resolved to as parameters, and fetch and probe oracles are functions.
- `handleGetLive` and the worker's `handleGetVideos` are left out. Apart from the `parseAndProxyM3U8` and `best` logic they share with `/api/get-m3u8`, they only query GraphQL and build JSON.
- The routing switch, `OPTIONS`, CORS middleware, static files and the listening port are HTTP plumbing and are left out.
- Streaming (`res.body`, `pipe`) is not modelled: a body is a string. Timeouts and `Math.random` in the device id are left out too.
- Parsing a URL into host, pathname and final URL after redirects is not modelled. The handlers take those parts as parameters.
- JSON serialisation is left out, as is the `undefined` that a missing `best` becomes in JSON.
- JsString.ToLower: lowers ASCII letters only. Full Unicode case mapping is not modelled, and all the labels involved are ASCII.
- UriCodec.FormDecode: malformed UTF-8 is replaced one byte at a time. The WHATWG decoder's exact grouping of invalid sequences is not modelled.
- ServerHandlers.HandleProxy: `req.query` is parsed by Express's `qs`. Its bracket and array syntax is not modelled; the model reads the query like `URLSearchParams`.
- WorkerHandlers.Relay: the Fetch standard's other `Response` checks (a status outside 200..599 is a `RangeError`) are not modelled; upstream `fetch` never yields such a status.
- WorkerHandlers.Relay: the `Headers` object is modelled as an ordered list. Case-insensitive header names and the sorted iteration order of `Headers` are not modelled.
- JsObject.Assign: JavaScript puts integer-like keys before the others in any object. That ordering is not modelled; no quality label is integer-like.
- JsObject.Put: assigning a string to the key `__proto__` of a plain object stores nothing in JavaScript, but `Put` appends it. The scan skips that label explicitly, so `Put`, `Delete` and `Assign` only ever see other keys.
- ServerHandlers.HandleProxy: Express's `res.set` writes the text `undefined` when upstream sends no `Content-Type`, and adds a `charset` to a segment's text type. Neither is modelled; the reply carries the upstream content type as a string.
- ServerHandlers.HandleProxy: `res.send` of the rewritten playlist also adds an `ETag`, and answers 304 with no body when the request is fresh (its `If-None-Match` matches that tag). Request headers and the tag's hash are not modelled, so `ProxyOutcomes` gives 200 in that case.
- ServerHandlers.HandleGetM3U8: a `TypeError` thrown by the route (a video with no owner) leaves the request without a reply (`Unanswered`), as an uncaught rejection does in Express 4; on Node 15 and later that rejection also ends the whole process, since server.js registers no `unhandledRejection` handler, which the model does not capture. An owner without a `login`, which would give the text `VOD de undefined`, is not modelled.
