/** The links that send a player back through the proxy, and reading them back. */
module ProxyLink {
  import opened Wrappers
  import opened JsString
  import opened UriCodec

  /** `${b}` for a boolean. */
  function BoolText(b: bool): string {
    if b then "true" else "false"
  }

  /** Worker: `${origin}/api/proxy?url=${encodeURIComponent(u)}&isVod=${isVod}`. */
  function ProxyUrl(origin: string, u: string, isVod: bool): string {
    origin + "/api/proxy?url=" + EncodeUriComponent(u) + "&isVod=" + BoolText(isVod)
  }

  /** Express server: `/api/proxy?url=${encodeURIComponent(u)}` (relative to the server). */
  function RelativeProxyUrl(u: string): string {
    "/api/proxy?url=" + EncodeUriComponent(u)
  }

  lemma PlainText(t: string)
    requires forall i :: 0 <= i < |t| ==> 'a' <= t[i] <= 'z' || 'A' <= t[i] <= 'Z'
    ensures FormDecode(t) == t
    ensures IndexOf(t, '=') < 0 && IndexOf(t, '&') < 0 && IndexOf(t, '#') < 0
  {
    assert FormDecode(t) == t by {
      assert forall i :: 0 <= i < |t| ==> IsPlain(t[i]);
      PlainDecodes(t);
    }
    IndexOfAbsent(t, '=');
    IndexOfAbsent(t, '&');
    IndexOfAbsent(t, '#');
  }

  /** The `url=` pair of a proxy link decodes to the wrapped URL. */
  lemma UrlPairDecodes(u: string)
    ensures '&' !in "url=" + EncodeUriComponent(u)
    ensures NameValue("url=" + EncodeUriComponent(u)) == ("url", u)
  {
    var e := EncodeUriComponent(u);
    var a := "url=" + e;
    forall j | 0 <= j < |a| ensures a[j] != '&' {
      if j >= 4 { assert a[j] == e[j - 4]; }
    }
    IndexOfIs(a, '=', 3);
    assert a[..3] == "url" && a[4..] == e;
    PlainText("url");
    UriComponentRoundTrip(u);
  }

  /** The query that follows `?` in both kinds of proxy link, read back pair by pair. */
  lemma {:induction false} QueryRoundTrip(u: string, tail: seq<string>, tailPairs: seq<(string, string)>)
    requires FreeOf(tail, '&') && forall i :: 0 <= i < |tail| ==> tail[i] != ""
    requires NameValues(tail) == tailPairs
    ensures ParseQuery(Join(["url=" + EncodeUriComponent(u)] + tail, "&")) == [("url", u)] + tailPairs
  {
    var a := "url=" + EncodeUriComponent(u);
    var segs := [a] + tail;
    UrlPairDecodes(u);
    assert FreeOf(segs, '&') by {
      forall i | 0 <= i < |segs| ensures '&' !in segs[i] {
        if i > 0 { assert segs[i] == tail[i - 1]; }
      }
    }
    SplitJoin(segs, '&');
    assert segs[1..] == tail;
    assert NameValues(segs) == [NameValue(a)] + NameValues(tail);
  }

  /** An encoded component followed by `&isVod=...` holds no `#`. */
  lemma NoFragment(e: string, b: string)
    requires forall i :: 0 <= i < |e| ==> IsUnreservedChar(e[i]) || e[i] == '%'
    requires b == "true" || b == "false"
    ensures IndexOf("url=" + e + "&isVod=" + b, '#') == -1
  {
    var rest := "url=" + e + "&isVod=" + b;
    forall j | 0 <= j < |rest| ensures rest[j] != '#' {
      if 4 <= j < 4 + |e| { assert rest[j] == e[j - 4]; }
    }
    IndexOfAbsent(rest, '#');
  }

  /** The `?` of a proxy link is the one after `/api/proxy`. */
  lemma QuestionMarkAt(origin: string, rest: string, url: string)
    requires '?' !in origin
    requires url == origin + "/api/proxy" + "?" + rest
    ensures IndexOf(url, '?') == |origin| + 10
  {
    var p := |origin| + 10;
    forall j | 0 <= j < p ensures url[j] != '?' {
      if j < |origin| { assert url[j] == origin[j]; } else { assert url[j] == "/api/proxy"[j - |origin|]; }
    }
    IndexOfIs(url, '?', p);
  }

  lemma ProxyShape(origin: string, e: string, b: string)
    ensures origin + "/api/proxy?url=" + e + "&isVod=" + b == origin + "/api/proxy" + "?" + ("url=" + e + "&isVod=" + b)
  {
    assert "/api/proxy?url=" == "/api/proxy" + "?" + "url=";
  }

  /** The query of a worker proxy link is everything after its `?`. */
  lemma QueryOfProxyUrl(origin: string, u: string, isVod: bool)
    requires '?' !in origin
    ensures QueryOf(ProxyUrl(origin, u, isVod)) == "url=" + EncodeUriComponent(u) + "&isVod=" + BoolText(isVod)
  {
    var e := EncodeUriComponent(u);
    var url := ProxyUrl(origin, u, isVod);
    var rest := "url=" + e + "&isVod=" + BoolText(isVod);
    ProxyShape(origin, e, BoolText(isVod));
    assert IndexOf(url, '?') == |origin| + 10 by {
      QuestionMarkAt(origin, rest, url);
    }
    assert url[|origin| + 11..] == rest;
    assert IndexOf(rest, '#') == -1 by {
      NoFragment(e, BoolText(isVod));
    }
  }

  lemma VodSegmentEquals(b: string, seg: string)
    requires b == "true" || b == "false"
    requires seg == "isVod=" + b
    ensures IndexOf(seg, '=') == 5
  {
    IndexOfIs(seg, '=', 5);
  }

  lemma VodSegmentName(b: string, seg: string)
    requires b == "true" || b == "false"
    requires seg == "isVod=" + b
    ensures NameValue(seg).0 == "isVod"
  {
    VodSegmentEquals(b, seg);
    assert seg[..5] == "isVod";
    PlainText("isVod");
  }

  lemma VodSegmentValue(b: string, seg: string)
    requires b == "true" || b == "false"
    requires seg == "isVod=" + b
    ensures NameValue(seg).1 == b
  {
    VodSegmentEquals(b, seg);
    assert seg[6..] == b;
    PlainText(b);
  }

  /** The `isVod=` pair decodes to the flag's text. */
  lemma VodPairDecodes(isVod: bool)
    ensures var seg := "isVod=" + BoolText(isVod);
            seg != "" && FreeOf([seg], '&') && NameValues([seg]) == [("isVod", BoolText(isVod))]
  {
    var b := BoolText(isVod);
    var seg := "isVod=" + b;
    VodSegmentName(b, seg);
    VodSegmentValue(b, seg);
    assert '&' !in seg by {
      assert '&' !in "isVod=" && '&' !in b;
    }
    assert NameValues([seg]) == [NameValue(seg)] + NameValues([]);
  }

  lemma AmpVod()
    ensures "&" + "isVod=" == "&isVod="
  {
  }

  /** The worker's `handleProxy` reads back exactly the wrapped URL and the VOD flag. */
  lemma ProxyUrlRoundTrip(origin: string, u: string, isVod: bool)
    requires '?' !in origin
    ensures SearchParam(ProxyUrl(origin, u, isVod), "url") == Some(u)
    ensures SearchParam(ProxyUrl(origin, u, isVod), "isVod") == Some(BoolText(isVod))
  {
    var b := BoolText(isVod);
    var e := EncodeUriComponent(u);
    var vodSeg := "isVod=" + b;
    var segs := ["url=" + e] + [vodSeg];
    var q := QueryOf(ProxyUrl(origin, u, isVod));
    assert q == Join(segs, "&") by {
      QueryOfProxyUrl(origin, u, isVod);
      assert segs[1..] == [vodSeg];
      assert Join(segs, "&") == ("url=" + e) + "&" + vodSeg;
      AmpVod();
      assert ("url=" + e) + "&" + ("isVod=" + b) == "url=" + e + "&isVod=" + b;
    }
    var pairs := ParseQuery(q);
    assert pairs == [("url", u), ("isVod", b)] by {
      VodPairDecodes(isVod);
      QueryRoundTrip(u, [vodSeg], [("isVod", b)]);
    }
    assert GetParam(pairs, "url") == Some(u);
    assert GetParam(pairs, "isVod") == Some(b) by {
      assert pairs[1..] == [("isVod", b)];
      assert "url"[0] != "isVod"[0];
    }
  }

  /** The Express server's proxy route reads back exactly the wrapped URL. */
  lemma RelativeShape(e: string)
    ensures "/api/proxy?url=" + e == "/api/proxy" + "?" + ("url=" + e)
  {
    assert "/api/proxy?url=" == "/api/proxy" + "?" + "url=";
  }

  lemma {:induction false} RelativeProxyUrlRoundTrip(u: string)
    ensures SearchParam(RelativeProxyUrl(u), "url") == Some(u)
  {
    var e := EncodeUriComponent(u);
    var url := RelativeProxyUrl(u);
    var rest := "url=" + e;
    assert QueryOf(url) == rest by {
      assert url == "/api/proxy" + "?" + rest by { RelativeShape(e); }
      IndexOfIs(url, '?', 10);
      assert url[11..] == rest;
      assert IndexOf(rest, '#') == -1 by {
        forall j | 0 <= j < |rest| ensures rest[j] != '#' {
          if 4 <= j { assert rest[j] == e[j - 4]; }
        }
        IndexOfAbsent(rest, '#');
      }
    }
    QueryRoundTrip(u, [], []);
  }

  /** Unwrapping a proxy link and wrapping the result again reproduces the link. */
  lemma RewrapIsIdentity(origin: string, u: string, isVod: bool)
    requires '?' !in origin
    ensures var link := ProxyUrl(origin, u, isVod);
            SearchParam(link, "url").Some? && SearchParam(link, "isVod").Some?
            && ProxyUrl(origin, SearchParam(link, "url").value, SearchParam(link, "isVod").value == "true") == link
  {
    ProxyUrlRoundTrip(origin, u, isVod);
  }
}
