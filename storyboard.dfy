/** `storyboardHack` of worker.js and server.js: from the URL of a VOD's seek
    previews, rebuild one candidate media-playlist URL per quality tier, probe
    each, and keep the tiers whose probe answered 200. The probes are an
    oracle from URL to outcome; the order in which they complete is an input. */
module Storyboard {
  import opened Wrappers
  import opened JsString
  import opened JsObject

  /** `QUALITY_ORDER` of both files, best first. */
  const QUALITY_ORDER: seq<string> :=
    ["chunked", "source", "1080p60", "1080p30", "720p60", "720p30", "480p30", "360p30", "160p30", "audio_only"]

  /** The path part that marks a storyboard URL. */
  const STORYBOARDS: string := "storyboards"

  /** What a probe of a candidate URL gives: a response with its status, or a
      failure (network error, timeout, or for axios a status it rejects). */
  datatype Probe = Status(code: int) | Failed

  /** `checkLink` of server.js: axios rejects statuses outside 200..499 (its
      `validateStatus`), and a rejection counts as failure. */
  function CheckLink(p: Probe): (ok: bool)
    ensures ok <==> p == Status(200)
  {
    match p
    case Failed => false
    case Status(c) => if 200 <= c < 500 then c == 200 else false
  }

  /** An order in which the ten probes may complete: each tier exactly once. */
  predicate IsCompletionOrder(c: seq<string>) {
    |c| == |QUALITY_ORDER|
    && (forall i, j :: 0 <= i < j < |c| ==> c[i] != c[j])
    && (forall i :: 0 <= i < |c| ==> c[i] in QUALITY_ORDER)
    && (forall i :: 0 <= i < |QUALITY_ORDER| ==> QUALITY_ORDER[i] in c)
  }

  /** `parts[i - 1]`, which is `undefined` (interpolated as that word) when `i` is 0. */
  function PartBefore(parts: seq<string>, i: nat): string
    requires i < |parts|
  {
    if i == 0 then "undefined" else parts[i - 1]
  }

  /** `https://${host}/${hash}` */
  function Root(host: string, hash: string): string {
    "https://" + host + "/" + hash
  }

  /** `${root}/${q}/index-dvr.m3u8` */
  function Candidate(root: string, q: string): string {
    root + "/" + q + "/index-dvr.m3u8"
  }

  /** The tiers of `qs` whose candidate probe answered 200, each with its
      candidate URL, in the order of `qs`. */
  function Found(root: string, qs: seq<string>, probe: string -> Probe): Dict
  {
    if qs == [] then []
    else
      var init := Found(root, qs[..|qs| - 1], probe);
      var q := qs[|qs| - 1];
      if probe(Candidate(root, q)) == Status(200) then init + [(q, Candidate(root, q))] else init
  }

  /** Some probe of the candidates of `root` for the tiers `qs` fails outright. */
  predicate SomeFailed(root: string, qs: seq<string>, probe: string -> Probe) {
    qs != [] && (SomeFailed(root, qs[..|qs| - 1], probe) || probe(Candidate(root, qs[|qs| - 1])) == Failed)
  }

  lemma {:induction false} SomeFailedIff(root: string, qs: seq<string>, probe: string -> Probe)
    ensures SomeFailed(root, qs, probe) <==> exists m :: 0 <= m < |qs| && probe(Candidate(root, qs[m])) == Failed
    decreases |qs|
  {
    if qs != [] {
      var init := qs[..|qs| - 1];
      SomeFailedIff(root, init, probe);
      if exists m :: 0 <= m < |init| && probe(Candidate(root, init[m])) == Failed {
        var m :| 0 <= m < |init| && probe(Candidate(root, init[m])) == Failed;
        assert qs[m] == init[m];
      }
      if exists m :: 0 <= m < |qs| && probe(Candidate(root, qs[m])) == Failed {
        var m :| 0 <= m < |qs| && probe(Candidate(root, qs[m])) == Failed;
        if m < |init| { assert init[m] == qs[m]; }
      }
    }
  }

  /** Some probe of the candidates of `root` fails outright. */
  predicate AnyFailed(root: string, probe: string -> Probe) {
    SomeFailed(root, QUALITY_ORDER, probe)
  }

  // ----- properties of Found -----

  lemma {:induction false} FoundKeys(root: string, qs: seq<string>, probe: string -> Probe, k: string)
    ensures k in Keys(Found(root, qs, probe)) <==> k in qs && probe(Candidate(root, k)) == Status(200)
    decreases |qs|
  {
    if qs != [] {
      var init := qs[..|qs| - 1];
      assert qs == init + [qs[|qs| - 1]];
      FoundKeys(root, init, probe, k);
      var f := Found(root, init, probe);
      KeysAppend(f, [(qs[|qs| - 1], Candidate(root, qs[|qs| - 1]))]);
    }
  }

  /** Found keeps distinct tiers distinct. */
  lemma {:induction false} FoundUnique(root: string, qs: seq<string>, probe: string -> Probe)
    requires forall i, j :: 0 <= i < j < |qs| ==> qs[i] != qs[j]
    ensures UniqueKeys(Found(root, qs, probe))
    decreases |qs|
  {
    if qs != [] {
      var init := qs[..|qs| - 1];
      var q := qs[|qs| - 1];
      FoundUnique(root, init, probe);
      var f := Found(root, init, probe);
      assert q !in init by {
        forall m | 0 <= m < |init| ensures init[m] != q { assert init[m] == qs[m]; }
      }
      FoundKeys(root, init, probe, q);
      if probe(Candidate(root, q)) == Status(200) {
        forall i, j | 0 <= i < j < |f + [(q, Candidate(root, q))]|
          ensures (f + [(q, Candidate(root, q))])[i].0 != (f + [(q, Candidate(root, q))])[j].0
        {
          if j == |f| { assert Keys(f)[i] == f[i].0; }
        }
      }
    }
  }

  /** Every value is the candidate URL of its tier. */
  predicate ValuesAreCandidates(root: string, f: Dict) {
    forall i :: 0 <= i < |f| ==> f[i].1 == Candidate(root, f[i].0)
  }

  /** Every value found is the candidate URL of its tier. */
  lemma {:induction false} FoundValues(root: string, qs: seq<string>, probe: string -> Probe)
    ensures ValuesAreCandidates(root, Found(root, qs, probe))
    decreases |qs|
  {
    if qs != [] {
      var init := qs[..|qs| - 1];
      var q := qs[|qs| - 1];
      FoundValues(root, init, probe);
      var f := Found(root, init, probe);
      if probe(Candidate(root, q)) == Status(200) {
        var g := f + [(q, Candidate(root, q))];
        assert Found(root, qs, probe) == g;
        forall i | 0 <= i < |g| ensures g[i].1 == Candidate(root, g[i].0) {
          if i < |f| { assert g[i] == f[i]; }
        }
      }
    }
  }

  /** Looking a tier up among those found gives its candidate URL exactly when its probe answered 200. */
  lemma FoundLookup(root: string, qs: seq<string>, probe: string -> Probe, q: string)
    requires forall i, j :: 0 <= i < j < |qs| ==> qs[i] != qs[j]
    ensures Lookup(Found(root, qs, probe), q)
         == if q in qs && probe(Candidate(root, q)) == Status(200) then Some(Candidate(root, q)) else None
  {
    var f := Found(root, qs, probe);
    FoundKeys(root, qs, probe, q);
    FoundUnique(root, qs, probe);
    FoundValues(root, qs, probe);
    LookupFindsKeys(f, q);
    if q in Keys(f) {
      var m :| 0 <= m < |f| && Keys(f)[m] == q;
      LookupAt(f, m);
    }
  }

  lemma DistinctQualities()
    ensures forall i, j :: 0 <= i < j < |QUALITY_ORDER| ==> QUALITY_ORDER[i] != QUALITY_ORDER[j]
  {
  }

  /** Whatever order the probes complete in, the same tiers are found, each
      with the same URL. */
  lemma FoundOrderFree(root: string, c: seq<string>, probe: string -> Probe, q: string)
    requires IsCompletionOrder(c)
    ensures Lookup(Found(root, c, probe), q) == Lookup(Found(root, QUALITY_ORDER, probe), q)
  {
    DistinctQualities();
    FoundLookup(root, c, probe, q);
    FoundLookup(root, QUALITY_ORDER, probe, q);
  }

  // ----- worker.js -----

  /** worker.js: the part before the first `/`-separated part of the seek URL
      that equals `storyboards`, if there is one. `host` is the host of
      `new URL(seekUrl)`, `None` when that constructor throws. */
  function WorkerRoot(seekUrl: string, host: Option<string>): Option<string>
  {
    var parts := SplitOn(seekUrl, "/");
    var i := FirstEqual(parts, STORYBOARDS);
    if i < 0 || host.None? then None else Some(Root(host.value, PartBefore(parts, i)))
  }

  /** `parts.indexOf(x)` */
  function FirstEqual(parts: seq<string>, x: string): (i: int)
    ensures -1 <= i < |parts|
    ensures i >= 0 ==> parts[i] == x
    ensures forall j :: 0 <= j < |parts| && (i < 0 || j < i) ==> parts[j] != x
  {
    if parts == [] then -1
    else if parts[0] == x then 0
    else var r := FirstEqual(parts[1..], x); if r < 0 then -1 else r + 1
  }

  /** worker.js `storyboardHack`. The probes are started together and each
      records its tier when it answers 200; the loop visits them in the order
      they complete. A probe that fails makes `Promise.all` reject, and the
      `catch` then returns an empty object, whatever was found. */
  method WorkerStoryboardHack(seekUrl: string, host: Option<string>, probe: string -> Probe, completion: seq<string>)
    returns (found: Dict)
    requires IsCompletionOrder(completion)
    ensures var root := WorkerRoot(seekUrl, host);
            found == if root.None? || AnyFailed(root.value, probe) then [] else Found(root.value, completion, probe)
  {
    var root := WorkerRoot(seekUrl, host);
    if root.None? {
      return [];
    }
    found := [];
    var rejected := false;
    var j := 0;
    while j < |completion|
      invariant 0 <= j <= |completion|
      invariant found == Found(root.value, completion[..j], probe)
      invariant rejected == SomeFailed(root.value, completion[..j], probe)
    {
      var q := completion[j];
      var u := Candidate(root.value, q);
      var res := probe(u);
      PrefixStep(completion, j);
      FoundStep(root.value, completion[..j], q, probe);
      SomeFailedStep(root.value, completion[..j], q, probe);
      if res.Failed? {
        rejected := true;
      } else if res.code == 200 {
        found := Put(found, q, u);
      }
      j := j + 1;
    }
    assert completion[..j] == completion;
    if rejected {
      found := [];
    }
    AnyFailedInCompletion(root.value, probe, completion);
  }

  /** Whether some probe fails does not depend on the order they complete in. */
  lemma AnyFailedInCompletion(root: string, probe: string -> Probe, c: seq<string>)
    requires IsCompletionOrder(c)
    ensures AnyFailed(root, probe) <==> SomeFailed(root, c, probe)
  {
    SomeFailedIff(root, c, probe);
    SomeFailedIff(root, QUALITY_ORDER, probe);
    if exists i :: 0 <= i < |QUALITY_ORDER| && probe(Candidate(root, QUALITY_ORDER[i])) == Failed {
      var i :| 0 <= i < |QUALITY_ORDER| && probe(Candidate(root, QUALITY_ORDER[i])) == Failed;
      assert QUALITY_ORDER[i] in c;
      var m :| 0 <= m < |c| && c[m] == QUALITY_ORDER[i];
    }
    if exists m :: 0 <= m < |c| && probe(Candidate(root, c[m])) == Failed {
      var m :| 0 <= m < |c| && probe(Candidate(root, c[m])) == Failed;
      assert c[m] in QUALITY_ORDER;
      var i :| 0 <= i < |QUALITY_ORDER| && QUALITY_ORDER[i] == c[m];
    }
  }

  /** worker.js: when no part equals `storyboards` nothing is found; otherwise
      each tier found is one whose candidate answered 200, with that candidate
      as its URL, and each such tier is found unless some probe failed. */
  lemma WorkerFound(seekUrl: string, host: Option<string>, probe: string -> Probe, completion: seq<string>, q: string)
    requires IsCompletionOrder(completion)
    ensures FirstEqual(SplitOn(seekUrl, "/"), STORYBOARDS) < 0 ==> WorkerResult(seekUrl, host, probe, completion) == []
    ensures var root := WorkerRoot(seekUrl, host);
            var found := WorkerResult(seekUrl, host, probe, completion);
            UniqueKeys(found)
            && (root.Some? && !AnyFailed(root.value, probe) ==>
                  Lookup(found, q) == if q in QUALITY_ORDER && probe(Candidate(root.value, q)) == Status(200)
                                      then Some(Candidate(root.value, q)) else None)
  {
    var root := WorkerRoot(seekUrl, host);
    if root.Some? && !AnyFailed(root.value, probe) {
      FoundUnique(root.value, completion, probe);
      FoundLookup(root.value, completion, probe, q);
    }
  }

  /** The object the worker's `storyboardHack` resolves to. */
  function WorkerResult(seekUrl: string, host: Option<string>, probe: string -> Probe, completion: seq<string>): Dict
  {
    var root := WorkerRoot(seekUrl, host);
    if root.None? || AnyFailed(root.value, probe) then [] else Found(root.value, completion, probe)
  }

  // ----- server.js -----

  /** `paths.findIndex(e => e.includes(x))` */
  function FirstContaining(parts: seq<string>, x: string): (i: int)
    ensures -1 <= i < |parts|
    ensures i >= 0 ==> Contains(parts[i], x)
    ensures forall j :: 0 <= j < |parts| && (i < 0 || j < i) ==> !Contains(parts[j], x)
  {
    if parts == [] then -1
    else if Contains(parts[0], x) then 0
    else var r := FirstContaining(parts[1..], x); if r < 0 then -1 else r + 1
  }

  /** The parts of `new URL(seekPreviewsURL)` that server.js reads. */
  datatype UrlParts = UrlParts(host: string, pathname: string)

  /** server.js: the root of the candidates, from the part of the pathname
      before the first part that contains `storyboards`. */
  function ServerRoot(url: UrlParts): Option<string>
  {
    var paths := SplitOn(url.pathname, "/");
    var i := FirstContaining(paths, STORYBOARDS);
    if i < 0 then None else Some(Root(url.host, PartBefore(paths, i)))
  }

  /** What server.js's `storyboardHack` resolves to: `null` (`None`) for an
      empty URL, a URL that does not parse, no `storyboards` part, or no tier
      found; otherwise the tiers whose `checkLink` succeeded, in
      `QUALITY_ORDER` order. */
  function ServerResult(seek: string, url: Option<UrlParts>, probe: string -> Probe): Option<Dict>
  {
    if seek == [] || url.None? then None
    else
      var root := ServerRoot(url.value);
      if root.None? then None
      else
        var f := Found(root.value, QUALITY_ORDER, probe);
        if f == [] then None else Some(f)
  }

  /** Probing one more tier records a failure exactly when it fails or an
      earlier one did. */
  lemma SomeFailedStep(root: string, qs: seq<string>, q: string, probe: string -> Probe)
    ensures SomeFailed(root, qs + [q], probe) <==> SomeFailed(root, qs, probe) || probe(Candidate(root, q)) == Failed
  {
    assert (qs + [q])[..|qs|] == qs;
  }

  /** One more element of a sequence without repetitions extends its prefix
      by an element the prefix does not hold. */
  lemma PrefixStep(qs: seq<string>, i: nat)
    requires i < |qs| && forall m, n :: 0 <= m < n < |qs| ==> qs[m] != qs[n]
    ensures qs[..i + 1] == qs[..i] + [qs[i]] && qs[i] !in qs[..i]
  {
    assert qs[..i + 1] == qs[..i] + [qs[i]];
    forall m | 0 <= m < i ensures qs[..i][m] != qs[i] {
      assert qs[..i][m] == qs[m];
    }
  }

  /** Probing one more tier not probed before adds it, with its candidate,
      exactly when it answers 200. */
  lemma FoundStep(root: string, qs: seq<string>, q: string, probe: string -> Probe)
    requires q !in qs
    ensures Found(root, qs + [q], probe)
         == if probe(Candidate(root, q)) == Status(200) then Put(Found(root, qs, probe), q, Candidate(root, q))
            else Found(root, qs, probe)
  {
    assert (qs + [q])[..|qs|] == qs;
    FoundKeys(root, qs, probe, q);
  }

  /** One step of the server's second loop: copying the next tier of
      `QUALITY_ORDER` from the tiers found in completion order, when it has a
      non-empty URL, extends the tiers found in `QUALITY_ORDER` by that tier. */
  lemma SortStep(root: string, c: seq<string>, probe: string -> Probe, unsorted: Dict, sorted: Dict, i: nat, v: Option<string>)
    requires IsCompletionOrder(c) && i < |QUALITY_ORDER|
    requires unsorted == Found(root, c, probe) && v == Lookup(unsorted, QUALITY_ORDER[i])
    requires sorted == Found(root, QUALITY_ORDER[..i], probe)
    ensures v.Some? && v.value != "" ==> Put(sorted, QUALITY_ORDER[i], v.value) == Found(root, QUALITY_ORDER[..i + 1], probe)
    ensures !(v.Some? && v.value != "") ==> sorted == Found(root, QUALITY_ORDER[..i + 1], probe)
  {
    var q := QUALITY_ORDER[i];
    DistinctQualities();
    PrefixStep(QUALITY_ORDER, i);
    FoundStep(root, QUALITY_ORDER[..i], q, probe);
    assert q in c;
    FoundLookup(root, c, probe, q);
  }

  /** The first loop of server.js `storyboardHack`: the tiers whose
      `checkLink` succeeded, in the order their probes completed. */
  method ProbeTiers(root: string, probe: string -> Probe, completion: seq<string>) returns (unsorted: Dict)
    requires IsCompletionOrder(completion)
    ensures unsorted == Found(root, completion, probe)
  {
    unsorted := [];
    var j := 0;
    while j < |completion|
      invariant 0 <= j <= |completion|
      invariant unsorted == Found(root, completion[..j], probe)
    {
      var q := completion[j];
      var u := Candidate(root, q);
      PrefixStep(completion, j);
      FoundStep(root, completion[..j], q, probe);
      if CheckLink(probe(u)) {
        unsorted := Put(unsorted, q, u);
      }
      j := j + 1;
    }
    assert completion[..j] == completion;
  }

  /** The second loop of server.js `storyboardHack`: the tiers found, copied
      in `QUALITY_ORDER` order. */
  method SortTiers(root: string, probe: string -> Probe, completion: seq<string>, unsorted: Dict) returns (sorted: Dict)
    requires IsCompletionOrder(completion) && unsorted == Found(root, completion, probe)
    ensures sorted == Found(root, QUALITY_ORDER, probe)
  {
    sorted := [];
    var i := 0;
    while i < |QUALITY_ORDER|
      invariant 0 <= i <= |QUALITY_ORDER|
      invariant sorted == Found(root, QUALITY_ORDER[..i], probe)
    {
      var q := QUALITY_ORDER[i];
      var v := Lookup(unsorted, q);
      SortStep(root, completion, probe, unsorted, sorted, i, v);
      if v.Some? && v.value != "" {
        sorted := Put(sorted, q, v.value);
      }
      i := i + 1;
    }
    assert QUALITY_ORDER[..i] == QUALITY_ORDER;
  }

  /** server.js `storyboardHack`. The probes fill `unsortedLinks` in the order
      they complete; the `for … of QUALITY_ORDER` loop then copies them into
      `sortedLinks`. The result does not depend on the completion order. */
  method ServerStoryboardHack(seek: string, url: Option<UrlParts>, probe: string -> Probe, completion: seq<string>)
    returns (links: Option<Dict>)
    requires IsCompletionOrder(completion)
    ensures links == ServerResult(seek, url, probe)
  {
    if seek == [] || url.None? {
      return None;
    }
    var root := ServerRoot(url.value);
    if root.None? {
      return None;
    }
    var unsorted := ProbeTiers(root.value, probe, completion);
    var sorted := SortTiers(root.value, probe, completion, unsorted);
    if |Keys(sorted)| > 0 {
      return Some(sorted);
    }
    return None;
  }

  /** server.js resolves to `null` exactly for an empty URL, a URL that does
      not parse, a pathname without a part containing `storyboards`, or when
      no candidate's probe answered 200. */
  lemma ServerNull(seek: string, url: Option<UrlParts>, probe: string -> Probe)
    ensures ServerResult(seek, url, probe).None? <==>
              seek == [] || url.None? || ServerRoot(url.value).None?
              || forall i :: 0 <= i < |QUALITY_ORDER| ==>
                   probe(Candidate(ServerRoot(url.value).value, QUALITY_ORDER[i])) != Status(200)
  {
    if seek != [] && url.Some? && ServerRoot(url.value).Some? {
      var root := ServerRoot(url.value).value;
      var f := Found(root, QUALITY_ORDER, probe);
      if f != [] {
        FoundKeys(root, QUALITY_ORDER, probe, f[0].0);
        assert Keys(f)[0] == f[0].0;
        var i :| 0 <= i < |QUALITY_ORDER| && QUALITY_ORDER[i] == f[0].0;
      } else {
        forall i | 0 <= i < |QUALITY_ORDER|
          ensures probe(Candidate(root, QUALITY_ORDER[i])) != Status(200)
        {
          FoundKeys(root, QUALITY_ORDER, probe, QUALITY_ORDER[i]);
        }
      }
    }
  }

  /** server.js: the tiers returned are exactly those whose probe answered
      200, each once with its candidate URL, sorted by `QUALITY_ORDER`. */
  lemma ServerFound(seek: string, url: Option<UrlParts>, probe: string -> Probe, q: string)
    requires ServerResult(seek, url, probe).Some?
    ensures var links := ServerResult(seek, url, probe).value;
            var root := ServerRoot(url.value).value;
            UniqueKeys(links)
            && Lookup(links, q) == (if q in QUALITY_ORDER && probe(Candidate(root, q)) == Status(200)
                                    then Some(Candidate(root, q)) else None)
            && InOrderOf(QUALITY_ORDER, links)
  {
    var root := ServerRoot(url.value).value;
    DistinctQualities();
    FoundUnique(root, QUALITY_ORDER, probe);
    FoundLookup(root, QUALITY_ORDER, probe, q);
    FoundInOrder(root, QUALITY_ORDER, probe);
  }

  lemma FirstEqualSnoc(qs: seq<string>, q: string, x: string)
    requires q !in qs
    ensures FirstEqual(qs + [q], x) == if x in qs then FirstEqual(qs, x) else if x == q then |qs| else -1
  {
    var s := qs + [q];
    var r := FirstEqual(s, x);
    forall j | 0 <= j < |qs| ensures s[j] == qs[j] { }
    assert s[|qs|] == q;
    if x in qs {
      var w :| 0 <= w < |qs| && qs[w] == x;
      var p := FirstEqual(qs, x);
      assert p >= 0;
      assert s[p] == x;
    } else if x == q {
      assert s[|qs|] == x;
    }
  }

  /** Every key of `f` occurs in `qs`, and the keys come in the order of `qs`. */
  predicate InOrderOf(qs: seq<string>, f: Dict) {
    (forall i :: 0 <= i < |f| ==> 0 <= FirstEqual(qs, f[i].0))
    && forall i, j :: 0 <= i < j < |f| ==> FirstEqual(qs, f[i].0) < FirstEqual(qs, f[j].0)
  }

  /** The tiers found come in the order of `qs`. */
  lemma {:induction false} FoundInOrder(root: string, qs: seq<string>, probe: string -> Probe)
    requires forall i, j :: 0 <= i < j < |qs| ==> qs[i] != qs[j]
    ensures InOrderOf(qs, Found(root, qs, probe))
    decreases |qs|
  {
    if qs != [] {
      var init := qs[..|qs| - 1];
      var q := qs[|qs| - 1];
      assert qs == init + [q];
      FoundInOrder(root, init, probe);
      var f := Found(root, init, probe);
      assert q !in init by {
        forall m | 0 <= m < |init| ensures init[m] != q { assert init[m] == qs[m]; }
      }
      forall i | 0 <= i < |f| ensures FirstEqual(qs, f[i].0) == FirstEqual(init, f[i].0) {
        var p := FirstEqual(init, f[i].0);
        assert 0 <= p && init[p] == f[i].0;
        FirstEqualSnoc(init, q, f[i].0);
      }
      FirstEqualSnoc(init, q, q);
      if probe(Candidate(root, q)) == Status(200) {
        var g := f + [(q, Candidate(root, q))];
        assert Found(root, qs, probe) == g;
        forall i | 0 <= i < |g| ensures 0 <= FirstEqual(qs, g[i].0) {
          if i < |f| { assert g[i] == f[i]; }
        }
        forall i, j | 0 <= i < j < |g| ensures FirstEqual(qs, g[i].0) < FirstEqual(qs, g[j].0) {
          if j == |f| {
            assert g[i] == f[i];
            assert FirstEqual(init, f[i].0) < |init|;
          } else {
            assert g[i] == f[i] && g[j] == f[j];
          }
        }
      }
    }
  }
}
