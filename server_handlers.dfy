/** The decisions of the Express server's routes around the playlist code:
    `/api/proxy`, the plan A acceptance and `best` choice of `/api/get-m3u8`,
    and the statuses of `/api/get-channel-videos`. Upstream calls are oracles. */
module ServerHandlers {
  import opened Wrappers
  import opened JsString
  import opened JsObject
  import opened UriCodec
  import opened ProxyLink
  import opened MediaPlaylist
  import opened Storyboard

  /** What an axios request without `AXIOS_CONFIG` gives: a response, which
      axios only resolves to for a 2xx status, or a thrown error. */
  datatype Upstream = Got(status: int, contentType: string, body: string) | Threw

  /** axios' default `validateStatus`. */
  predicate AxiosResolves(status: int) {
    200 <= status < 300
  }

  /** A reply of the server. */
  datatype Reply = Sent(status: int, contentType: Option<string>, body: string)

  const PLAYLIST_TYPE: string := "application/vnd.apple.mpegurl"

  /** `res.send` of a string sets the `utf-8` charset on the content type it
      finds, or on `text/html` when none was set. */
  const SENT_PLAYLIST_TYPE: string := PLAYLIST_TYPE + "; charset=utf-8"
  const SENT_HTML_TYPE: string := "text/html; charset=utf-8"

  /** `/api/proxy`. `requestUrl` is the request URL and `fetch` the upstream. */
  function HandleProxy(requestUrl: string, fetch: string -> Upstream): Reply
  {
    var target := SearchParam(requestUrl, "url");
    if !Truthy(target) then Sent(400, Some(SENT_HTML_TYPE), "URL manquante")
    else
      var res := fetch(target.value);
      if res.Threw? || !AxiosResolves(res.status) then Sent(500, Some(SENT_HTML_TYPE), "Erreur lors du proxy")
      else if IsPlaylistRef(target.value) then Sent(200, Some(SENT_PLAYLIST_TYPE), ServerRewrite(res.body, target.value))
      else Sent(200, Some(res.contentType), res.body)
  }

  /** The proxy answers 400 without a target, 500 when upstream fails or
      answers outside 2xx, both as `text/html`, and otherwise 200: a `.m3u8`
      target with its rewritten playlist as a `utf-8` playlist, any other with
      the upstream body and content type. */
  lemma ProxyOutcomes(requestUrl: string, fetch: string -> Upstream)
    ensures var target := SearchParam(requestUrl, "url");
            var r := HandleProxy(requestUrl, fetch);
            (r.status == 400 <==> !Truthy(target))
            && (r.status != 200 ==> r.contentType == Some(SENT_HTML_TYPE))
            && (Truthy(target) ==>
                  var res := fetch(target.value);
                  (r.status == 200 <==> res.Got? && AxiosResolves(res.status))
                  && (r.status != 200 ==> r.status == 500)
                  && (r.status == 200 && IsPlaylistRef(target.value) ==>
                        r.body == ServerRewrite(res.body, target.value) && r.contentType == Some(SENT_PLAYLIST_TYPE))
                  && (r.status == 200 && !IsPlaylistRef(target.value) ==>
                        r.body == res.body && r.contentType == Some(res.contentType)))
  {
  }

  /** A link the server wrote into a playlist leads back to the absolute URL it wraps. */
  lemma ProxyLinkFollowed(full: string, fetch: string -> Upstream)
    requires full != ""
    ensures HandleProxy(RelativeProxyUrl(full), fetch)
         == if fetch(full).Threw? || !AxiosResolves(fetch(full).status) then Sent(500, Some(SENT_HTML_TYPE), "Erreur lors du proxy")
            else if IsPlaylistRef(full) then Sent(200, Some(SENT_PLAYLIST_TYPE), ServerRewrite(fetch(full).body, full))
            else Sent(200, Some(fetch(full).contentType), fetch(full).body)
  {
    RelativeProxyUrlRoundTrip(full);
  }

  // ----- /api/get-m3u8 -----

  /** What `axios.get(url, AXIOS_CONFIG)` gives for the usher playlist: a
      string body, a body of another type, or an error. */
  datatype Checked = TextBody(text: string) | OtherBody | CheckThrew

  /** Plan A is taken only for a string body containing `#EXTM3U` (an empty
      string, being false, cannot contain it either). */
  predicate PlanAAccepted(c: Checked) {
    c.TextBody? && Contains(c.text, "#EXTM3U")
  }

  const OFFICIAL: string := "Auto (Officiel)"

  /** A reply of `/api/get-m3u8`: links with `best` (absent when `undefined`)
      and an optional note, or an error; or no reply at all, when the async
      route throws, since Express does not catch a rejected handler. */
  datatype Answer = Links(links: Dict, best: Option<string>, info: Option<string>)
                  | Error(status: int, message: string)
                  | Unanswered

  /** `/api/get-m3u8`. `id` is the `id` query parameter; `usher` is the usher
      URL built from the granted token with what fetching it gave (`None`
      without a token); `seek` is the video's `seekPreviewsURL` (`None` without
      metadata), `url` its parsed form, `probe` the HEAD oracle and `owner` the
      owner's login (`None` when the video has no owner: reading its `login`
      then throws a `TypeError`). */
  function HandleGetM3U8(id: Option<string>, usher: Option<(string, Checked)>, seek: Option<string>,
                         url: Option<UrlParts>, probe: string -> Probe, owner: Option<string>): Answer
  {
    if !Truthy(id) then Error(400, "ID manquant")
    else if usher.Some? && PlanAAccepted(usher.value.1) then
      Links([(OFFICIAL, usher.value.0)], Some(usher.value.0), None)
    else if Truthy(seek) && ServerResult(seek.value, url, probe).Some? then
      var links := ServerResult(seek.value, url, probe).value;
      if owner.None? then Unanswered
      else Links(links, if links == [] then None else Some(links[0].1), Some("VOD de " + owner.value))
    else Error(404, "VOD introuvable.")
  }

  /** The first found tier is the first of `qs` whose probe answered 200. */
  lemma {:induction false} FoundHead(root: string, qs: seq<string>, probe: string -> Probe)
    requires Found(root, qs, probe) != []
    ensures exists m :: 0 <= m < |qs|
              && Found(root, qs, probe)[0] == (qs[m], Candidate(root, qs[m]))
              && probe(Candidate(root, qs[m])) == Status(200)
              && forall j :: 0 <= j < m ==> probe(Candidate(root, qs[j])) != Status(200)
    decreases |qs|
  {
    var init := qs[..|qs| - 1];
    var q := qs[|qs| - 1];
    var f := Found(root, init, probe);
    if f != [] {
      FoundHead(root, init, probe);
      var m :| 0 <= m < |init| && f[0] == (init[m], Candidate(root, init[m]))
               && probe(Candidate(root, init[m])) == Status(200)
               && forall j :: 0 <= j < m ==> probe(Candidate(root, init[j])) != Status(200);
      assert Found(root, qs, probe)[0] == f[0];
      assert qs[m] == init[m];
      forall j | 0 <= j < m ensures probe(Candidate(root, qs[j])) != Status(200) {
        assert qs[j] == init[j];
      }
    } else {
      forall j | 0 <= j < |init| ensures probe(Candidate(root, qs[j])) != Status(200) {
        assert qs[j] == init[j];
        FoundKeys(root, init, probe, init[j]);
      }
      assert Found(root, qs, probe)[0] == (q, Candidate(root, q));
    }
  }

  /** Plan A is answered exactly when a token was granted and the usher body
      is a string containing `#EXTM3U`, with the single `Auto (Officiel)`
      link as `best`. Otherwise, when the video has a preview URL for which
      `storyboardHack` finds tiers, the links are those tiers and `best` the
      candidate of the first tier of `QUALITY_ORDER` whose probe answered
      200, unless the video has no owner, when no reply is sent; in every
      other case the answer is 404. */
  lemma GetM3U8Outcomes(id: Option<string>, usher: Option<(string, Checked)>, seek: Option<string>,
                        url: Option<UrlParts>, probe: string -> Probe, owner: Option<string>)
    ensures var a := HandleGetM3U8(id, usher, seek, url, probe, owner);
            var planA := usher.Some? && PlanAAccepted(usher.value.1);
            var planB := Truthy(seek) && ServerResult(seek.value, url, probe).Some?;
            (a.Error? && a.status == 400 <==> !Truthy(id))
            && (a.Links? && a.info.None? <==> Truthy(id) && planA)
            && (a.Links? && a.info.None? ==> a.links == [(OFFICIAL, usher.value.0)] && a.best == Some(usher.value.0))
            && (a.Links? && a.info.Some? <==> Truthy(id) && !planA && planB && owner.Some?)
            && (a.Unanswered? <==> Truthy(id) && !planA && planB && owner.None?)
            && (a.Error? && a.status == 404 <==> Truthy(id) && !planA && !planB)
            && (a.Error? ==> a.status == 400 || a.status == 404)
            && (a.Links? && a.info.Some? ==>
                  a.links == ServerResult(seek.value, url, probe).value
                  && a.info == Some("VOD de " + owner.value))
            && (a.Links? && a.info.Some? ==>
                  var root := ServerRoot(url.value).value;
                  exists m :: 0 <= m < |QUALITY_ORDER|
                    && a.best == Some(Candidate(root, QUALITY_ORDER[m]))
                    && probe(Candidate(root, QUALITY_ORDER[m])) == Status(200)
                    && forall j :: 0 <= j < m ==> probe(Candidate(root, QUALITY_ORDER[j])) != Status(200))
  {
    var a := HandleGetM3U8(id, usher, seek, url, probe, owner);
    if a.Links? && a.info.Some? {
      var root := ServerRoot(url.value).value;
      FoundHead(root, QUALITY_ORDER, probe);
    }
  }

  // ----- /api/get-channel-videos -----

  /** A reply of `/api/get-channel-videos`. */
  datatype VideosAnswer<V> = Videos(list: seq<V>) | VideosError(status: int, message: string)

  /** `/api/get-channel-videos`. `name` is the `name` query parameter and
      `videos` what `getChannelVideos` resolved to (`None` for `null`: no such
      user, or an error). */
  function HandleChannelVideos<V>(name: Option<string>, videos: Option<seq<V>>): VideosAnswer<V>
  {
    if !Truthy(name) then VideosError(400, "Nom de chaîne manquant")
    else if videos.None? then VideosError(404, "Chaîne introuvable ou aucune VOD.")
    else Videos(videos.value)
  }

  /** 400 without a name, 404 without a user, otherwise the user's videos,
      even when there are none (an empty array is true in JavaScript). */
  lemma ChannelVideosOutcomes<V>(name: Option<string>, videos: Option<seq<V>>)
    ensures var a := HandleChannelVideos(name, videos);
            (a.VideosError? && a.status == 400 <==> !Truthy(name))
            && (a.VideosError? && a.status == 404 <==> Truthy(name) && videos.None?)
            && (a.Videos? <==> Truthy(name) && videos.Some?)
            && (a.Videos? ==> a.list == videos.value)
  {
  }
}
