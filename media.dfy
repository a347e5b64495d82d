/** The `.m3u8` branch of the proxy: a media playlist fetched upstream has
    each URI line made absolute (by plain concatenation with the playlist's
    directory) and wrapped in a proxy link, each tag or blank line trimmed and
    otherwise kept; worker.js and server.js differ in when and how they wrap. */
module MediaPlaylist {
  import opened Wrappers
  import opened JsString
  import opened UriCodec
  import opened ProxyLink

  /** `url.substring(0, url.lastIndexOf('/') + 1)`: everything up to and
      including the last `/` (empty when there is none). */
  function Directory(url: string): (base: string)
    ensures |base| <= |url| && base == url[..|base|]
    ensures base != [] ==> base[|base| - 1] == '/'
    ensures forall j :: |base| <= j < |url| ==> url[j] != '/'
  {
    url[..LastIndexOf(url, '/') + 1]
  }

  /** Both proxies test targets and lines for `.m3u8` with `includes`. */
  predicate IsPlaylistRef(s: string) {
    Contains(s, ".m3u8")
  }

  /** A trimmed line that is kept as it is: blank, or a tag or comment. */
  predicate IsPassThrough(line: string) {
    line == "" || StartsWith(line, "#")
  }

  /** The absolute form of a URI line: kept when it starts with `http`,
      otherwise appended to the playlist's directory. */
  function Absolute(line: string, base: string): (full: string)
    ensures StartsWith(line, "http") ==> full == line
    ensures !StartsWith(line, "http") ==> full == base + line
  {
    if StartsWith(line, "http") then line else base + line
  }

  /** worker.js: one line of the rewrite. A URI line is wrapped in an absolute
      proxy link iff it mentions `.m3u8` or the stream is a VOD. */
  function WorkerLine(l: string, base: string, origin: string, isVod: bool): string
  {
    var line := Trim(l);
    if IsPassThrough(line) then line
    else
      var full := Absolute(line, base);
      if IsPlaylistRef(line) || isVod then ProxyUrl(origin, full, isVod) else full
  }

  /** server.js: one line of the rewrite. Every URI line is wrapped in a
      relative proxy link. */
  function ServerLine(l: string, base: string): string
  {
    var line := Trim(l);
    if IsPassThrough(line) then line else RelativeProxyUrl(Absolute(line, base))
  }

  /** `text.split('\n').map(...).join('\n')` of worker.js, with `base` the
      directory of the final (post-redirect) playlist URL. */
  function WorkerRewrite(text: string, finalUrl: string, origin: string, isVod: bool): string
  {
    var ls := Lines(text);
    var base := Directory(finalUrl);
    Join(seq(|ls|, i requires 0 <= i < |ls| => WorkerLine(ls[i], base, origin, isVod)), "\n")
  }

  /** The same rewrite in server.js, with `base` the directory of the
      requested target URL. */
  function ServerRewrite(text: string, targetUrl: string): string
  {
    var ls := Lines(text);
    var base := Directory(targetUrl);
    Join(seq(|ls|, i requires 0 <= i < |ls| => ServerLine(ls[i], base)), "\n")
  }

  // ----- properties -----

  lemma TrimKeepsAbsentChar(l: string, c: char)
    requires c !in l
    ensures c !in Trim(l)
  {
    var r := Trim(l);
    var i := TrimOffset(l);
    forall j | 0 <= j < |r| ensures r[j] != c { assert r[j] == l[i + j]; }
  }

  lemma EncodedHasNoNewline(u: string)
    ensures '\n' !in EncodeUriComponent(u)
  {
    var t := EncodeUriComponent(u);
    forall j | 0 <= j < |t| ensures t[j] != '\n' { assert IsUnreservedChar(t[j]) || t[j] == '%'; }
  }

  lemma NoNewlineConcat(a: string, b: string)
    requires '\n' !in a && '\n' !in b
    ensures '\n' !in a + b
  {
  }

  lemma ProxyUrlSingle(origin: string, u: string, isVod: bool)
    requires '\n' !in origin
    ensures '\n' !in ProxyUrl(origin, u, isVod)
  {
    EncodedHasNoNewline(u);
    var e := EncodeUriComponent(u);
    var b := BoolText(isVod);
    assert '\n' !in b;
    NoNewlineConcat(origin, "/api/proxy?url=");
    NoNewlineConcat(origin + "/api/proxy?url=", e);
    NoNewlineConcat(origin + "/api/proxy?url=" + e, "&isVod=");
    NoNewlineConcat(origin + "/api/proxy?url=" + e + "&isVod=", b);
  }

  /** A rewritten line never holds a line break. */
  lemma WorkerLineSingle(l: string, base: string, origin: string, isVod: bool)
    requires '\n' !in l && '\n' !in base && '\n' !in origin
    ensures '\n' !in WorkerLine(l, base, origin, isVod)
  {
    var line := Trim(l);
    TrimKeepsAbsentChar(l, '\n');
    var full := Absolute(line, base);
    ProxyUrlSingle(origin, full, isVod);
  }

  lemma ServerLineSingle(l: string, base: string)
    requires '\n' !in l
    ensures '\n' !in ServerLine(l, base)
  {
    var line := Trim(l);
    TrimKeepsAbsentChar(l, '\n');
    if !IsPassThrough(line) {
      var full := Absolute(line, base);
      EncodedHasNoNewline(full);
      NoNewlineConcat("/api/proxy?url=", EncodeUriComponent(full));
    }
  }

  /** A proxy link starts with the proxy path and reads back as the wrapped
      URL and the VOD flag. */
  lemma WrappedLink(origin: string, full: string, isVod: bool)
    requires '?' !in origin
    ensures var out := ProxyUrl(origin, full, isVod);
            StartsWith(out, origin + "/api/proxy?url=")
            && SearchParam(out, "url") == Some(full)
            && SearchParam(out, "isVod") == Some(BoolText(isVod))
  {
    var out := ProxyUrl(origin, full, isVod);
    var p := origin + "/api/proxy?url=";
    assert StartsWith(out, p) by {
      assert out[..|p|] == p;
    }
    ProxyUrlRoundTrip(origin, full, isVod);
  }

  /** A relative proxy link starts with the proxy path and reads back as the wrapped URL. */
  lemma WrappedRelativeLink(full: string)
    ensures var out := RelativeProxyUrl(full);
            StartsWith(out, "/api/proxy?url=") && SearchParam(out, "url") == Some(full)
  {
    PrefixStartsWith("/api/proxy?url=", EncodeUriComponent(full));
    RelativeProxyUrlRoundTrip(full);
  }

  /** What worker.js does to one line: a blank or `#` line comes out trimmed;
      any other line is made absolute and, iff it mentions `.m3u8` or the
      stream is a VOD, replaced by a proxy link whose `url` and `isVod`
      parameters read back as that absolute URL and the VOD flag. */
  lemma WorkerLineCases(l: string, base: string, origin: string, isVod: bool)
    requires '?' !in origin
    ensures var line := Trim(l);
            var out := WorkerLine(l, base, origin, isVod);
            (IsPassThrough(line) ==> out == line)
            && (!IsPassThrough(line) && !(IsPlaylistRef(line) || isVod) ==> out == Absolute(line, base))
            && (!IsPassThrough(line) && (IsPlaylistRef(line) || isVod) ==>
                  StartsWith(out, origin + "/api/proxy?url=")
                  && SearchParam(out, "url") == Some(Absolute(line, base))
                  && SearchParam(out, "isVod") == Some(BoolText(isVod)))
  {
    var line := Trim(l);
    if !IsPassThrough(line) && (IsPlaylistRef(line) || isVod) {
      WrappedLink(origin, Absolute(line, base), isVod);
    }
  }

  /** What server.js does to one line: a blank or `#` line comes out trimmed;
      any other line becomes a relative proxy link whose `url` parameter reads
      back as the absolute URL of the line. */
  lemma ServerLineCases(l: string, base: string)
    ensures var line := Trim(l);
            var out := ServerLine(l, base);
            (IsPassThrough(line) ==> out == line)
            && (!IsPassThrough(line) ==>
                  StartsWith(out, "/api/proxy?url=")
                  && SearchParam(out, "url") == Some(Absolute(line, base)))
  {
    var line := Trim(l);
    if !IsPassThrough(line) {
      WrappedRelativeLink(Absolute(line, base));
    }
  }

  /** The worker's rewritten playlist has exactly as many lines as the original,
      and its `i`-th line is the rewrite of the original's `i`-th line. */
  lemma WorkerRewriteLines(text: string, finalUrl: string, origin: string, isVod: bool)
    requires '\n' !in finalUrl && '\n' !in origin
    ensures var ls := Lines(text);
            var out := Lines(WorkerRewrite(text, finalUrl, origin, isVod));
            |out| == |ls|
            && forall i :: 0 <= i < |ls| ==> out[i] == WorkerLine(ls[i], Directory(finalUrl), origin, isVod)
  {
    var ls := Lines(text);
    var base := Directory(finalUrl);
    var m := seq(|ls|, i requires 0 <= i < |ls| => WorkerLine(ls[i], base, origin, isVod));
    SplitPartsFreeOfSeparator(text, '\n');
    assert '\n' !in base by {
      forall j | 0 <= j < |base| ensures base[j] != '\n' { assert base[j] == finalUrl[j]; }
    }
    forall i | 0 <= i < |m| ensures '\n' !in m[i] {
      WorkerLineSingle(ls[i], base, origin, isVod);
    }
    SplitJoin(m, '\n');
  }

  /** The server's rewritten playlist has exactly as many lines as the original,
      and its `i`-th line is the rewrite of the original's `i`-th line. */
  lemma ServerRewriteLines(text: string, targetUrl: string)
    ensures var ls := Lines(text);
            var out := Lines(ServerRewrite(text, targetUrl));
            |out| == |ls|
            && forall i :: 0 <= i < |ls| ==> out[i] == ServerLine(ls[i], Directory(targetUrl))
  {
    var ls := Lines(text);
    var base := Directory(targetUrl);
    var m := seq(|ls|, i requires 0 <= i < |ls| => ServerLine(ls[i], base));
    SplitPartsFreeOfSeparator(text, '\n');
    forall i | 0 <= i < |m| ensures '\n' !in m[i] {
      ServerLineSingle(ls[i], base);
    }
    SplitJoin(m, '\n');
  }

  /** A segment line of a playlist served from `https://host/a/b/index.m3u8`
      resolves inside `https://host/a/b/`. */
  lemma DirectoryExample()
    ensures Directory("https://host/a/b/index.m3u8") == "https://host/a/b/"
    ensures Absolute("seg1.ts", Directory("https://host/a/b/index.m3u8")) == "https://host/a/b/seg1.ts"
  {
    var url := "https://host/a/b/index.m3u8";
    assert url[16] == '/';
    assert forall j :: 16 < j < |url| ==> url[j] != '/';
    assert "seg1.ts"[0] != "http"[0];
  }
}
