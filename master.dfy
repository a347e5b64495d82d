/** `parseAndProxyM3U8` of worker.js: a master playlist is turned into an
    object from quality label to proxied variant link, with `Auto` (the master
    playlist itself) first and the labels regrouped by display order. */
module MasterPlaylist {
  import opened Wrappers
  import opened JsString
  import opened JsObject
  import opened UriCodec
  import opened ProxyLink
  import opened Ranking

  /** The attribute whose quoted value names a variant's quality. */
  const VIDEO_ATTR: string := "VIDEO=\""

  /** The key under which the master playlist itself is offered. */
  const AUTO: string := "Auto"

  /** The quality named by a line that contains `VIDEO="`: the text after the
      first `VIDEO="` up to the next quote, with `chunked` renamed `Source`.
      (The split always has a second part here, so the `catch` around it in
      `parseAndProxyM3U8` never runs.) */
  function LabelOf(l: string): string
    requires Contains(l, VIDEO_ATTR)
  {
    SplitOnContained(l, VIDEO_ATTR);
    var n := SplitOn(SplitOn(l, VIDEO_ATTR)[1], "\"")[0];
    if n == "chunked" then "Source" else n
  }

  /** No `VIDEO="` starts inside a label nor at its closing quote. */
  lemma AttributeNotInLabel(v: string, y: string)
    requires '"' !in v && '=' !in v
    requires |y| > |v| && y[..|v|] == v && y[|v|] == '"'
    ensures NoOccurrenceBefore(y, VIDEO_ATTR, |v| + 1)
  {
    forall i: nat | i < |v| + 1 ensures !OccursAt(y, VIDEO_ATTR, i) {
      if i + 5 < |v| {
        assert y[i + 5] == v[i + 5] != '=';
      } else {
        assert y[|v|] == '"';
      }
    }
  }

  /** A line `pre VIDEO="v" post`, whose first `VIDEO="` is the one after
      `pre`, names quality `v` (or `Source` for `chunked`) whenever `v` holds no
      quote and no `=`. */
  lemma LabelOfQuoted(pre: string, v: string, post: string)
    requires NoOccurrenceBefore(pre + VIDEO_ATTR + v + "\"" + post, VIDEO_ATTR, |pre|)
    requires '"' !in v && '=' !in v
    ensures Contains(pre + VIDEO_ATTR + v + "\"" + post, VIDEO_ATTR)
    ensures LabelOf(pre + VIDEO_ATTR + v + "\"" + post) == if v == "chunked" then "Source" else v
  {
    var y := v + "\"" + post;
    var l := pre + VIDEO_ATTR + v + "\"" + post;
    assert l == pre + VIDEO_ATTR + y;
    assert Contains(l, VIDEO_ATTR) by {
      assert l[|pre|..|pre| + |VIDEO_ATTR|] == VIDEO_ATTR;
      assert OccursAt(l, VIDEO_ATTR, |pre|);
      ContainsIffOccurs(l, VIDEO_ATTR);
    }
    var w := SplitOn(y, VIDEO_ATTR)[0];
    assert SplitOn(l, VIDEO_ATTR)[1] == w by {
      SplitAtFirst(pre, VIDEO_ATTR, y);
    }
    assert w == v + "\"" + w[|v| + 1..] by {
      assert y[..|v|] == v && y[|v|] == '"';
      AttributeNotInLabel(v, y);
      SplitFirstPartPrefix(y, VIDEO_ATTR, |v| + 1);
      assert y[..|v| + 1] == v + "\"";
    }
    assert SplitOn(w, "\"")[0] == v by {
      NoOccurrenceOfAbsentChar(w, '"', |v|);
      SplitAtFirst(v, "\"", w[|v| + 1..]);
    }
  }

  /** What the line scan has gathered: the links found so far, by label, and
      the label still waiting for its link (`""` when none is). */
  datatype ScanState = ScanState(unsorted: Dict, last: string)

  /** One line of the scan: a `VIDEO="` line sets the waiting label; an `http`
      line when a label is waiting stores its proxied link under that label
      (an assignment JavaScript ignores for the label `__proto__`) and clears
      it; any other line changes nothing. */
  function Step(st: ScanState, l: string, origin: string, isVod: bool): ScanState
  {
    if Contains(l, VIDEO_ATTR) then ScanState(st.unsorted, LabelOf(l))
    else if StartsWith(l, "http") && st.last != "" then
      ScanState(if st.last == PROTO then st.unsorted else Put(st.unsorted, st.last, ProxyUrl(origin, l, isVod)), "")
    else st
  }

  /** The scan state after the given lines, in order. */
  function Scan(lines: seq<string>, origin: string, isVod: bool): ScanState
  {
    if lines == [] then ScanState([], "")
    else Step(Scan(lines[..|lines| - 1], origin, isVod), lines[|lines| - 1], origin, isVod)
  }

  /** The links by label gathered from a playlist text. */
  function Variants(content: string, origin: string, isVod: bool): Dict
  {
    Scan(Lines(content), origin, isVod).unsorted
  }

  /** A line that does neither of the two things a scan reacts to. */
  predicate Inert(l: string) {
    !Contains(l, VIDEO_ATTR) && !StartsWith(l, "http")
  }

  lemma ScanSnoc(ls: seq<string>, l: string, origin: string, isVod: bool)
    ensures Scan(ls + [l], origin, isVod) == Step(Scan(ls, origin, isVod), l, origin, isVod)
  {
    assert (ls + [l])[..|ls + [l]| - 1] == ls;
  }

  /** The scan state after one more line, case by case, as the loop of
      `parseAndProxyM3U8` computes it. */
  lemma ScanNext(lines: seq<string>, n: nat, unsorted: Dict, last: string, origin: string, isVod: bool)
    requires n < |lines| && ScanState(unsorted, last) == Scan(lines[..n], origin, isVod)
    ensures Contains(lines[n], VIDEO_ATTR) ==> Scan(lines[..n + 1], origin, isVod) == ScanState(unsorted, LabelOf(lines[n]))
    ensures !Contains(lines[n], VIDEO_ATTR) && StartsWith(lines[n], "http") && last != "" ==>
              Scan(lines[..n + 1], origin, isVod)
              == ScanState(if last == PROTO then unsorted else Put(unsorted, last, ProxyUrl(origin, lines[n], isVod)), "")
    ensures !Contains(lines[n], VIDEO_ATTR) && !(StartsWith(lines[n], "http") && last != "") ==>
              Scan(lines[..n + 1], origin, isVod) == ScanState(unsorted, last)
  {
    assert lines[..n + 1] == lines[..n] + [lines[n]];
    ScanSnoc(lines[..n], lines[n], origin, isVod);
  }

  /** Lines that are neither `VIDEO="` lines nor `http` lines leave the scan as it was. */
  lemma {:induction false} InertLinesSkipped(ls: seq<string>, mid: seq<string>, origin: string, isVod: bool)
    requires forall i :: 0 <= i < |mid| ==> Inert(mid[i])
    ensures Scan(ls + mid, origin, isVod) == Scan(ls, origin, isVod)
    decreases |mid|
  {
    if mid == [] {
      assert ls + mid == ls;
    } else {
      var init := mid[..|mid| - 1];
      assert ls + mid == (ls + init) + [mid[|mid| - 1]];
      InertLinesSkipped(ls, init, origin, isVod);
      ScanSnoc(ls + init, mid[|mid| - 1], origin, isVod);
    }
  }

  /** A `VIDEO="` line naming a non-empty quality, then lines of other kinds,
      then an `http` line: the proxied `http` line is stored under that quality
      (unless it is `__proto__`) and no label is left waiting. */
  lemma Pairing(ls: seq<string>, v: string, mid: seq<string>, h: string, origin: string, isVod: bool)
    requires Contains(v, VIDEO_ATTR) && LabelOf(v) != ""
    requires forall i :: 0 <= i < |mid| ==> Inert(mid[i])
    requires !Contains(h, VIDEO_ATTR) && StartsWith(h, "http")
    ensures Scan(ls + [v] + mid + [h], origin, isVod)
         == ScanState(if LabelOf(v) == PROTO then Scan(ls, origin, isVod).unsorted
                      else Put(Scan(ls, origin, isVod).unsorted, LabelOf(v), ProxyUrl(origin, h, isVod)), "")
  {
    ScanSnoc(ls, v, origin, isVod);
    InertLinesSkipped(ls + [v], mid, origin, isVod);
    ScanSnoc(ls + [v] + mid, h, origin, isVod);
  }

  /** An `http` line with no label waiting is ignored. */
  lemma UnlabelledLinkIgnored(ls: seq<string>, h: string, origin: string, isVod: bool)
    requires !Contains(h, VIDEO_ATTR) && Scan(ls, origin, isVod).last == ""
    ensures Scan(ls + [h], origin, isVod) == Scan(ls, origin, isVod)
  {
    ScanSnoc(ls, h, origin, isVod);
  }

  /** A later `VIDEO="` line replaces a label still waiting for its link. */
  lemma LabelReplaced(ls: seq<string>, v: string, origin: string, isVod: bool)
    requires Contains(v, VIDEO_ATTR)
    ensures Scan(ls + [v], origin, isVod) == ScanState(Scan(ls, origin, isVod).unsorted, LabelOf(v))
  {
    ScanSnoc(ls, v, origin, isVod);
  }

  /** One step of the scan keeps the labels distinct, non-empty and other than `__proto__`. */
  lemma StepKeys(st: ScanState, l: string, origin: string, isVod: bool)
    requires UniqueKeys(st.unsorted) && "" !in Keys(st.unsorted) && PROTO !in Keys(st.unsorted)
    ensures UniqueKeys(Step(st, l, origin, isVod).unsorted)
    ensures "" !in Keys(Step(st, l, origin, isVod).unsorted)
    ensures PROTO !in Keys(Step(st, l, origin, isVod).unsorted)
  {
    if !Contains(l, VIDEO_ATTR) && StartsWith(l, "http") && st.last != "" && st.last != PROTO {
      var link := ProxyUrl(origin, l, isVod);
      PutKeepsKeysUnique(st.unsorted, st.last, link);
      if st.last !in Keys(st.unsorted) {
        KeysAppend(st.unsorted, [(st.last, link)]);
      }
    }
  }

  /** The links gathered are under distinct, non-empty labels, none of them `__proto__`. */
  lemma {:induction false} ScanKeys(ls: seq<string>, origin: string, isVod: bool)
    ensures UniqueKeys(Scan(ls, origin, isVod).unsorted)
    ensures "" !in Keys(Scan(ls, origin, isVod).unsorted)
    ensures PROTO !in Keys(Scan(ls, origin, isVod).unsorted)
    decreases |ls|
  {
    if ls != [] {
      ScanKeys(ls[..|ls| - 1], origin, isVod);
      StepKeys(Scan(ls[..|ls| - 1], origin, isVod), ls[|ls| - 1], origin, isVod);
    }
  }

  /** After one step of the scan a key holds what it held before, or the
      proxy link of that step's line, an `http` line without `VIDEO="`. */
  lemma StepLookup(st: ScanState, l: string, origin: string, isVod: bool, k: string)
    ensures var r := Lookup(Step(st, l, origin, isVod).unsorted, k);
            r == Lookup(st.unsorted, k)
            || (r == Some(ProxyUrl(origin, l, isVod)) && StartsWith(l, "http") && !Contains(l, VIDEO_ATTR))
  {
    if !Contains(l, VIDEO_ATTR) && StartsWith(l, "http") && st.last != "" && st.last != PROTO && k != st.last {
      PutElsewhere(st.unsorted, st.last, ProxyUrl(origin, l, isVod), k);
    }
  }

  /** Every link gathered is the proxy link, with the playlist's VOD flag, of
      an `http` line of the playlist that holds no `VIDEO="`; so none is empty. */
  lemma {:induction false} ScanValues(ls: seq<string>, origin: string, isVod: bool, k: string)
    ensures var r := Lookup(Scan(ls, origin, isVod).unsorted, k);
            r.Some? ==> r.value != ""
                        && exists l :: l in ls && StartsWith(l, "http") && !Contains(l, VIDEO_ATTR)
                                       && r.value == ProxyUrl(origin, l, isVod)
    decreases |ls|
  {
    if ls != [] {
      var init := ls[..|ls| - 1];
      var l := ls[|ls| - 1];
      var r := Lookup(Scan(ls, origin, isVod).unsorted, k);
      assert ls == init + [l];
      StepLookup(Scan(init, origin, isVod), l, origin, isVod, k);
      if r.Some? && r != Lookup(Scan(init, origin, isVod).unsorted, k) {
        assert |ProxyUrl(origin, l, isVod)| >= |"/api/proxy?url="|;
      } else if r.Some? {
        ScanValues(init, origin, isVod, k);
      }
    }
  }

  /** The line loop of `parseAndProxyM3U8`: the labels and proxied links it
      gathers, and the label left waiting at the end. */
  method ScanLines(lines: seq<string>, origin: string, isVod: bool) returns (unsorted: Dict, last: string)
    ensures ScanState(unsorted, last) == Scan(lines, origin, isVod)
  {
    unsorted, last := [], "";
    var n := 0;
    while n < |lines|
      invariant 0 <= n <= |lines|
      invariant ScanState(unsorted, last) == Scan(lines[..n], origin, isVod)
    {
      var l := lines[n];
      ScanNext(lines, n, unsorted, last, origin, isVod);
      if Contains(l, VIDEO_ATTR) {
        last := LabelOf(l);
      } else if StartsWith(l, "http") && last != "" {
        if last != PROTO {
          unsorted := Put(unsorted, last, ProxyUrl(origin, l, isVod));
        }
        last := "";
      }
      n := n + 1;
    }
    assert lines[..n] == lines;
  }

  /** `parseAndProxyM3U8(content, master, workerOrigin, isVod)`: scans the
      lines of `content`, then starts the result with `Auto` linked to the
      master playlist, moves the labels over in display order and appends the
      labels that match no display key. */
  method ParseAndProxyM3U8(content: string, master: string, origin: string, isVod: bool)
    returns (links: Dict)
    ensures links == Assign([(AUTO, ProxyUrl(origin, master, isVod))],
                            Ranked(Variants(content, origin, isVod), DISPLAY_ORDER))
  {
    var lines := Lines(content);
    var unsorted, last := ScanLines(lines, origin, isVod);
    assert UniqueKeys(unsorted) by {
      ScanKeys(lines, origin, isVod);
    }
    var sorted := [(AUTO, ProxyUrl(origin, master, isVod))];
    var rest;
    sorted, rest := Regroup(sorted, unsorted, DISPLAY_ORDER, x => x);
    links := Assign(sorted, rest);
    assert links == Assign([(AUTO, ProxyUrl(origin, master, isVod))], Ranked(unsorted, DISPLAY_ORDER)) by {
      var grouped := ClassesUpTo(unsorted, DISPLAY_ORDER, |DISPLAY_ORDER|);
      MapValuesIdentity(grouped, x => x);
      AssignConcat([(AUTO, ProxyUrl(origin, master, isVod))], grouped, rest);
    }
  }

  /** The links `parseAndProxyM3U8` returns. */
  function Parsed(content: string, master: string, origin: string, isVod: bool): Dict
  {
    Assign([(AUTO, ProxyUrl(origin, master, isVod))], Ranked(Variants(content, origin, isVod), DISPLAY_ORDER))
  }

  /** `Auto` is always the first key; it links to the master playlist unless a
      variant is itself labelled `Auto`; every other key is a variant label
      with the link gathered for it. */
  lemma ParsedLookup(content: string, master: string, origin: string, isVod: bool, k: string)
    ensures var links := Parsed(content, master, origin, isVod);
            |links| >= 1 && links[0].0 == AUTO
    ensures var u := Variants(content, origin, isVod);
            Lookup(Parsed(content, master, origin, isVod), k)
            == if k in Keys(u) then Lookup(u, k)
               else if k == AUTO then Some(ProxyUrl(origin, master, isVod))
               else None
  {
    var u := Variants(content, origin, isVod);
    var r := Ranked(u, DISPLAY_ORDER);
    var auto: Dict := [(AUTO, ProxyUrl(origin, master, isVod))];
    AssignKeepsFirst(auto, r);
    ScanKeys(Lines(content), origin, isVod);
    RankedIsStableSort(u, DISPLAY_ORDER);
    AssignLookup(auto, r, k);
    LookupPermutation(r, u, k);
    LookupFindsKeys(r, k);
    LookupFindsKeys(u, k);
  }

  /** Every value of the result is a proxy link carrying the playlist's VOD
      flag: of the master playlist under `Auto`, and otherwise of an `http`
      line of the playlist; so `handleProxy` reads back that URL from it. */
  lemma ParsedValues(content: string, master: string, origin: string, isVod: bool, k: string)
    requires '?' !in origin
    ensures var r := Lookup(Parsed(content, master, origin, isVod), k);
            r.Some? ==>
              ((k == AUTO && r.value == ProxyUrl(origin, master, isVod)
                && SearchParam(r.value, "url") == Some(master))
               || exists l :: l in Lines(content) && StartsWith(l, "http") && !Contains(l, VIDEO_ATTR)
                              && r.value == ProxyUrl(origin, l, isVod)
                              && SearchParam(r.value, "url") == Some(l))
              && SearchParam(r.value, "isVod") == Some(BoolText(isVod))
  {
    var u := Variants(content, origin, isVod);
    var r := Lookup(Parsed(content, master, origin, isVod), k);
    ParsedLookup(content, master, origin, isVod, k);
    if r.Some? {
      if k in Keys(u) {
        ScanValues(Lines(content), origin, isVod, k);
        var l :| l in Lines(content) && StartsWith(l, "http") && !Contains(l, VIDEO_ATTR)
                 && r.value == ProxyUrl(origin, l, isVod);
        ProxyUrlRoundTrip(origin, l, isVod);
      } else {
        ProxyUrlRoundTrip(origin, master, isVod);
      }
    }
  }

  /** With no variant labelled `Auto`, the result is `Auto` followed by the
      variants sorted by display order, each label once, and within a display
      group in the order the playlist lists them. */
  lemma ParsedOrder(content: string, master: string, origin: string, isVod: bool)
    requires AUTO !in Keys(Variants(content, origin, isVod))
    ensures var u := Variants(content, origin, isVod);
            var links := Parsed(content, master, origin, isVod);
            links == [(AUTO, ProxyUrl(origin, master, isVod))] + Ranked(u, DISPLAY_ORDER)
            && multiset(links[1..]) == multiset(u)
            && SortedByRank(links[1..], DISPLAY_ORDER)
            && (forall r: nat :: OfRank(links[1..], DISPLAY_ORDER, r) == OfRank(u, DISPLAY_ORDER, r))
            && UniqueKeys(links)
  {
    var u := Variants(content, origin, isVod);
    var auto := (AUTO, ProxyUrl(origin, master, isVod));
    ScanKeys(Lines(content), origin, isVod);
    RankedIsStableSort(u, DISPLAY_ORDER);
    PrependRanked(auto, u, DISPLAY_ORDER);
    assert ([auto] + Ranked(u, DISPLAY_ORDER))[1..] == Ranked(u, DISPLAY_ORDER);
  }

  /** Four lines without line feeds, joined by line feeds, split back into themselves. */
  lemma FourLines(a: string, b: string, c: string, d: string)
    requires '\n' !in a && '\n' !in b && '\n' !in c && '\n' !in d
    ensures Lines(Join([a, b, c, d], "\n")) == [a, b, c, d]
  {
    assert FreeOf([a, b, c, d], '\n');
    SplitJoin([a, b, c, d], '\n');
  }

  /** The scan of a header line, one `VIDEO="` line, its `http` link and an
      empty line: that one variant, or nothing for the label `__proto__`. */
  lemma SingleVariantScan(head: string, v: string, h: string, origin: string, isVod: bool)
    requires Inert(head)
    requires Contains(v, VIDEO_ATTR) && LabelOf(v) != ""
    requires StartsWith(h, "http") && !Contains(h, VIDEO_ATTR)
    ensures Scan([head, v, h, ""], origin, isVod).unsorted
         == if LabelOf(v) == PROTO then [] else [(LabelOf(v), ProxyUrl(origin, h, isVod))]
  {
    var link := ProxyUrl(origin, h, isVod);
    var one: Dict := if LabelOf(v) == PROTO then [] else [(LabelOf(v), link)];
    var p := [head] + [v] + [] + [h];
    assert Scan([head], origin, isVod) == ScanState([], "") by {
      assert [] + [head] == [head];
      ScanSnoc([], head, origin, isVod);
    }
    assert Scan(p, origin, isVod) == ScanState(one, "") by {
      Pairing([head], v, [], h, origin, isVod);
      assert Put([], LabelOf(v), link) == [(LabelOf(v), link)];
    }
    assert Scan(p + [""], origin, isVod) == Scan(p, origin, isVod) by {
      NotContained("", VIDEO_ATTR);
      ScanSnoc(p, "", origin, isVod);
    }
    assert p + [""] == [head, v, h, ""];
  }

  /** A playlist of a header line, one `VIDEO="` line, its `http` link and a
      final empty line yields `Auto` followed by that one variant (by nothing
      for the label `__proto__`). */
  lemma SingleVariantPlaylist(head: string, v: string, h: string, master: string, origin: string, isVod: bool)
    requires Inert(head) && '\n' !in head
    requires Contains(v, VIDEO_ATTR) && LabelOf(v) != "" && LabelOf(v) != AUTO && '\n' !in v
    requires StartsWith(h, "http") && !Contains(h, VIDEO_ATTR) && '\n' !in h
    ensures Parsed(Join([head, v, h, ""], "\n"), master, origin, isVod)
         == [(AUTO, ProxyUrl(origin, master, isVod))]
            + if LabelOf(v) == PROTO then [] else [(LabelOf(v), ProxyUrl(origin, h, isVod))]
  {
    var content := Join([head, v, h, ""], "\n");
    FourLines(head, v, h, "");
    SingleVariantScan(head, v, h, origin, isVod);
    if LabelOf(v) == PROTO {
      ParsedOfNone(content, master, origin, isVod);
    } else {
      ParsedOfOne(content, master, origin, isVod, (LabelOf(v), ProxyUrl(origin, h, isVod)));
    }
  }

  /** A playlist whose scan gathers no variant yields `Auto` alone. */
  lemma ParsedOfNone(content: string, master: string, origin: string, isVod: bool)
    requires Variants(content, origin, isVod) == []
    ensures Parsed(content, master, origin, isVod) == [(AUTO, ProxyUrl(origin, master, isVod))]
  {
    ClassesEmpty(DISPLAY_ORDER, |DISPLAY_ORDER| + 1);
  }

  /** A playlist whose scan gathers one variant not labelled `Auto` yields
      `Auto` followed by that variant. */
  lemma ParsedOfOne(content: string, master: string, origin: string, isVod: bool, e: Entry)
    requires Variants(content, origin, isVod) == [e] && e.0 != AUTO
    ensures Parsed(content, master, origin, isVod) == [(AUTO, ProxyUrl(origin, master, isVod)), e]
  {
    AssignRankedOne((AUTO, ProxyUrl(origin, master, isVod)), e, DISPLAY_ORDER);
  }

  /** A line `pre VIDEO="chunked"` names `Source` when `pre` holds no `V`. */
  lemma ChunkedLabel(pre: string)
    requires 'V' !in pre
    ensures Contains(pre + VIDEO_ATTR + "chunked" + "\"", VIDEO_ATTR)
    ensures LabelOf(pre + VIDEO_ATTR + "chunked" + "\"") == "Source"
  {
    var v := pre + VIDEO_ATTR + "chunked" + "\"" + "";
    assert v == pre + VIDEO_ATTR + "chunked" + "\"";
    forall i: nat | i < |pre| ensures !OccursAt(v, VIDEO_ATTR, i) {
      assert v[i] == pre[i];
    }
    LabelOfQuoted(pre, "chunked", "");
  }

  lemma ChunkedLineIsOneLine(pre: string)
    requires '\n' !in pre
    ensures '\n' !in pre + VIDEO_ATTR + "chunked" + "\""
  {
  }

  lemma SourceIsNotAuto()
    ensures "Source" != AUTO && "Source" != "" && "Source" != PROTO
  {
    assert "Source"[0] != AUTO[0];
    assert "Source"[0] != PROTO[0];
  }

  /** A header line, a line `pre VIDEO="chunked"` (such as
      `#EXT-X-STREAM-INF:VIDEO="chunked"`), then an `http` link `h` (such as
      `https://x/chunked/playlist.m3u8`) yield `Auto`, then `h` under `Source`,
      both as proxy links. */
  lemma ChunkedPlaylistExample(head: string, pre: string, h: string, master: string, origin: string, isVod: bool)
    requires Inert(head) && '\n' !in head
    requires 'V' !in pre && '\n' !in pre
    requires StartsWith(h, "http") && !Contains(h, VIDEO_ATTR) && '\n' !in h
    ensures Parsed(Join([head, pre + VIDEO_ATTR + "chunked" + "\"", h, ""], "\n"), master, origin, isVod)
         == [(AUTO, ProxyUrl(origin, master, isVod)), ("Source", ProxyUrl(origin, h, isVod))]
  {
    var v := pre + VIDEO_ATTR + "chunked" + "\"";
    ChunkedLabel(pre);
    ChunkedLineIsOneLine(pre);
    SourceIsNotAuto();
    SingleVariantPlaylist(head, v, h, master, origin, isVod);
  }
}
