/** The quality ranking of worker.js: labels are regrouped by the first entry
    of a fixed display order that they contain, ignoring case; labels matching
    no entry come after all others. */
module Ranking {
  import opened Wrappers
  import opened JsString
  import opened JsObject

  /** `displayOrder` in worker.js, best first. */
  const DISPLAY_ORDER: seq<string> :=
    ["Source", "1080p60", "1080p30", "720p60", "720p30", "480p30", "360p30", "160p30", "audio_only"]

  /** `label.toLowerCase().includes(key.toLowerCase())` */
  predicate Matches(tier: string, key: string) {
    Contains(ToLower(tier), ToLower(key))
  }

  function RankFrom(tier: string, order: seq<string>, i: nat): (r: nat)
    requires i <= |order|
    ensures i <= r <= |order|
    decreases |order| - i
  {
    if i == |order| then |order|
    else if Matches(tier, order[i]) then i
    else RankFrom(tier, order, i + 1)
  }

  /** The position of the first key of `order` that `tier` matches, or `|order|`
      when it matches none: the group the tier is moved into. */
  function Rank(tier: string, order: seq<string>): (r: nat)
    ensures r <= |order|
  {
    RankFrom(tier, order, 0)
  }

  /** The scan from position `i` stops at the first key the label matches. */
  lemma {:induction false} RankFromFirstMatch(tier: string, order: seq<string>, i: nat)
    requires i <= |order|
    ensures var r := RankFrom(tier, order, i);
            && (r < |order| ==> Matches(tier, order[r]))
            && (forall j :: i <= j < r ==> !Matches(tier, order[j]))
    decreases |order| - i
  {
    if i < |order| && !Matches(tier, order[i]) {
      RankFromFirstMatch(tier, order, i + 1);
    }
  }

  /** A label's group is the first key of the order it matches, or the last
      group when it matches none. */
  lemma RankFirstMatch(tier: string, order: seq<string>)
    ensures Rank(tier, order) < |order| ==> Matches(tier, order[Rank(tier, order)])
    ensures forall j :: 0 <= j < Rank(tier, order) ==> !Matches(tier, order[j])
  {
    RankFromFirstMatch(tier, order, 0);
  }

  /** A label containing no key of the order falls in the last group. */
  lemma Unranked(tier: string, order: seq<string>)
    requires forall j :: 0 <= j < |order| ==> !Matches(tier, order[j])
    ensures Rank(tier, order) == |order|
  {
    RankFirstMatch(tier, order);
  }

  /** The entries of `d` in group `r`, in their order in `d`. */
  function OfRank(d: Dict, order: seq<string>, r: nat): Dict
  {
    if d == [] then []
    else
      var init := OfRank(d[..|d| - 1], order, r);
      if Rank(d[|d| - 1].0, order) == r then init + [d[|d| - 1]] else init
  }

  /** The entries of `d` in group `i` or a later one, in their order in `d`. */
  function AtLeast(d: Dict, order: seq<string>, i: nat): Dict
  {
    if d == [] then []
    else
      var init := AtLeast(d[..|d| - 1], order, i);
      if Rank(d[|d| - 1].0, order) >= i then init + [d[|d| - 1]] else init
  }

  /** Groups `0` to `n - 1` of `d`, one after another. */
  function ClassesUpTo(d: Dict, order: seq<string>, n: nat): Dict
  {
    if n == 0 then [] else ClassesUpTo(d, order, n - 1) + OfRank(d, order, n - 1)
  }

  /** All groups, the unmatched group last: the order a regrouped object lists its labels in. */
  function Ranked(d: Dict, order: seq<string>): Dict
  {
    ClassesUpTo(d, order, |order| + 1)
  }

  /** Group numbers never decrease along `s`. */
  predicate SortedByRank(s: Dict, order: seq<string>) {
    forall i, j :: 0 <= i < j < |s| ==> Rank(s[i].0, order) <= Rank(s[j].0, order)
  }

  lemma Snoc(d: Dict, e: Entry)
    ensures (d + [e])[..|d + [e]| - 1] == d && (d + [e])[|d + [e]| - 1] == e
  {
  }

  // ----- facts about the filters -----

  lemma {:induction false} OfRankRanks(d: Dict, order: seq<string>, r: nat)
    ensures forall i :: 0 <= i < |OfRank(d, order, r)| ==> Rank(OfRank(d, order, r)[i].0, order) == r
    decreases |d|
  {
    if d != [] { OfRankRanks(d[..|d| - 1], order, r); }
  }

  lemma {:induction false} AtLeastRanks(d: Dict, order: seq<string>, n: nat)
    ensures forall i :: 0 <= i < |AtLeast(d, order, n)| ==> Rank(AtLeast(d, order, n)[i].0, order) >= n
    decreases |d|
  {
    if d != [] { AtLeastRanks(d[..|d| - 1], order, n); }
  }

  lemma {:induction false} OfRankKeys(d: Dict, order: seq<string>, r: nat, k: string)
    requires k !in Keys(d)
    ensures k !in Keys(OfRank(d, order, r))
    decreases |d|
  {
    if d != [] {
      var init := d[..|d| - 1];
      assert d == init + [d[|d| - 1]];
      KeysAppend(init, [d[|d| - 1]]);
      OfRankKeys(init, order, r, k);
    }
  }

  lemma {:induction false} AtLeastKeys(d: Dict, order: seq<string>, n: nat, k: string)
    requires k !in Keys(d)
    ensures k !in Keys(AtLeast(d, order, n))
    decreases |d|
  {
    if d != [] {
      var init := d[..|d| - 1];
      assert d == init + [d[|d| - 1]];
      KeysAppend(init, [d[|d| - 1]]);
      AtLeastKeys(init, order, n, k);
    }
  }

  lemma LastKeyIsFresh(d: Dict)
    requires UniqueKeys(d) && d != []
    ensures UniqueKeys(d[..|d| - 1])
    ensures d[|d| - 1].0 !in Keys(d[..|d| - 1])
  {
    var init := d[..|d| - 1];
    forall m | 0 <= m < |init| ensures Keys(init)[m] != d[|d| - 1].0 {
      assert init[m] == d[m];
    }
  }

  lemma AppendFreshUnique(d: Dict, e: Entry)
    requires UniqueKeys(d) && e.0 !in Keys(d)
    ensures UniqueKeys(d + [e])
  {
    forall i, j | 0 <= i < j < |d + [e]| ensures (d + [e])[i].0 != (d + [e])[j].0 {
      if j == |d| { assert Keys(d)[i] == d[i].0; }
    }
  }

  lemma {:induction false} OfRankUnique(d: Dict, order: seq<string>, r: nat)
    requires UniqueKeys(d)
    ensures UniqueKeys(OfRank(d, order, r))
    decreases |d|
  {
    if d != [] {
      var init := d[..|d| - 1];
      LastKeyIsFresh(d);
      OfRankUnique(init, order, r);
      OfRankKeys(init, order, r, d[|d| - 1].0);
      if Rank(d[|d| - 1].0, order) == r {
        AppendFreshUnique(OfRank(init, order, r), d[|d| - 1]);
      }
    }
  }

  lemma {:induction false} AtLeastUnique(d: Dict, order: seq<string>, n: nat)
    requires UniqueKeys(d)
    ensures UniqueKeys(AtLeast(d, order, n))
    decreases |d|
  {
    if d != [] {
      var init := d[..|d| - 1];
      LastKeyIsFresh(d);
      AtLeastUnique(init, order, n);
      AtLeastKeys(init, order, n, d[|d| - 1].0);
      if Rank(d[|d| - 1].0, order) >= n {
        AppendFreshUnique(AtLeast(init, order, n), d[|d| - 1]);
      }
    }
  }

  /** The entries in group `i` or later are split into group `i` and those after it. */
  lemma {:induction false} AtLeastSplits(d: Dict, order: seq<string>, i: nat)
    ensures OfRank(AtLeast(d, order, i), order, i) == OfRank(d, order, i)
    ensures AtLeast(AtLeast(d, order, i), order, i + 1) == AtLeast(d, order, i + 1)
    decreases |d|
  {
    if d != [] {
      var init := d[..|d| - 1];
      var e := d[|d| - 1];
      AtLeastSplits(init, order, i);
      if Rank(e.0, order) >= i {
        Snoc(AtLeast(init, order, i), e);
      }
    }
  }

  lemma AtLeastLastIsOfRank(d: Dict, order: seq<string>)
    ensures AtLeast(d, order, |order|) == OfRank(d, order, |order|)
    decreases |d|
  {
    if d != [] { AtLeastLastIsOfRank(d[..|d| - 1], order); }
  }

  lemma {:induction false} OfRankAppend(a: Dict, b: Dict, order: seq<string>, r: nat)
    ensures OfRank(a + b, order, r) == OfRank(a, order, r) + OfRank(b, order, r)
    decreases |b|
  {
    if b == [] {
      assert a + b == a;
    } else {
      var init := b[..|b| - 1];
      assert (a + b)[..|a + b| - 1] == a + init;
      assert (a + b)[|a + b| - 1] == b[|b| - 1];
      OfRankAppend(a, init, order, r);
    }
  }

  lemma {:induction false} OfRankOfRank(d: Dict, order: seq<string>, n: nat, r: nat)
    ensures OfRank(OfRank(d, order, n), order, r) == if r == n then OfRank(d, order, n) else []
    decreases |d|
  {
    if d != [] {
      var init := d[..|d| - 1];
      var e := d[|d| - 1];
      OfRankOfRank(init, order, n, r);
      if Rank(e.0, order) == n {
        Snoc(OfRank(init, order, n), e);
      }
    }
  }

  // ----- the regrouped order -----

  lemma {:induction false} ClassesRanks(d: Dict, order: seq<string>, n: nat)
    ensures forall i :: 0 <= i < |ClassesUpTo(d, order, n)| ==> Rank(ClassesUpTo(d, order, n)[i].0, order) < n
  {
    if n > 0 {
      var c: Dict := ClassesUpTo(d, order, n - 1);
      var o: Dict := OfRank(d, order, n - 1);
      ClassesRanks(d, order, n - 1);
      OfRankRanks(d, order, n - 1);
      forall i | 0 <= i < |c + o| ensures Rank((c + o)[i].0, order) < n {
        if i < |c| { assert (c + o)[i] == c[i]; } else { assert (c + o)[i] == o[i - |c|]; }
      }
    }
  }

  /** Groups come in display order. */
  lemma {:induction false} ClassesSorted(d: Dict, order: seq<string>, n: nat)
    ensures SortedByRank(ClassesUpTo(d, order, n), order)
  {
    if n > 0 {
      var c: Dict := ClassesUpTo(d, order, n - 1);
      var o: Dict := OfRank(d, order, n - 1);
      ClassesSorted(d, order, n - 1);
      ClassesRanks(d, order, n - 1);
      OfRankRanks(d, order, n - 1);
      forall i, j | 0 <= i < j < |c + o| ensures Rank((c + o)[i].0, order) <= Rank((c + o)[j].0, order) {
        if j < |c| {
          assert (c + o)[i] == c[i] && (c + o)[j] == c[j];
        } else if i < |c| {
          assert (c + o)[i] == c[i] && (c + o)[j] == o[j - |c|];
        } else {
          assert (c + o)[i] == o[i - |c|] && (c + o)[j] == o[j - |c|];
        }
      }
    }
  }

  /** Within each group, the first-seen order is kept. */
  lemma {:induction false} ClassesStable(d: Dict, order: seq<string>, n: nat, r: nat)
    ensures OfRank(ClassesUpTo(d, order, n), order, r) == if r < n then OfRank(d, order, r) else []
  {
    if n > 0 {
      var c: Dict := ClassesUpTo(d, order, n - 1);
      var o: Dict := OfRank(d, order, n - 1);
      ClassesStable(d, order, n - 1, r);
      OfRankAppend(c, o, order, r);
      OfRankOfRank(d, order, n - 1, r);
    }
  }

  lemma {:induction false} ClassesKeys(d: Dict, order: seq<string>, n: nat, k: string)
    requires k !in Keys(d)
    ensures k !in Keys(ClassesUpTo(d, order, n))
  {
    if n > 0 {
      var c: Dict := ClassesUpTo(d, order, n - 1);
      var o: Dict := OfRank(d, order, n - 1);
      assert k !in Keys(c) by {
        ClassesKeys(d, order, n - 1, k);
      }
      assert k !in Keys(o) by {
        OfRankKeys(d, order, n - 1, k);
      }
      KeysAppend(c, o);
      assert ClassesUpTo(d, order, n) == c + o;
    }
  }

  lemma {:induction false} ClassesUnique(d: Dict, order: seq<string>, n: nat)
    requires UniqueKeys(d)
    ensures UniqueKeys(ClassesUpTo(d, order, n))
  {
    if n > 0 {
      var c: Dict := ClassesUpTo(d, order, n - 1);
      var o: Dict := OfRank(d, order, n - 1);
      ClassesUnique(d, order, n - 1);
      OfRankUnique(d, order, n - 1);
      ClassesRanks(d, order, n - 1);
      OfRankRanks(d, order, n - 1);
      forall i, j | 0 <= i < j < |c + o| ensures (c + o)[i].0 != (c + o)[j].0 {
        if j < |c| {
          assert (c + o)[i] == c[i] && (c + o)[j] == c[j];
        } else if i < |c| {
          assert (c + o)[i] == c[i] && (c + o)[j] == o[j - |c|];
        } else {
          assert (c + o)[i] == o[i - |c|] && (c + o)[j] == o[j - |c|];
        }
      }
    }
  }

  lemma {:induction false} ClassesOfSnoc(d: Dict, e: Entry, order: seq<string>, n: nat)
    ensures multiset(ClassesUpTo(d + [e], order, n))
         == multiset(ClassesUpTo(d, order, n)) + if Rank(e.0, order) < n then multiset{e} else multiset{}
  {
    if n > 0 {
      ClassesOfSnoc(d, e, order, n - 1);
      Snoc(d, e);
    }
  }

  lemma {:induction false} RankedPermutes(d: Dict, order: seq<string>)
    ensures multiset(Ranked(d, order)) == multiset(d)
    decreases |d|
  {
    if d == [] {
      ClassesEmpty(order, |order| + 1);
    } else {
      var init := d[..|d| - 1];
      var e := d[|d| - 1];
      assert d == init + [e];
      RankedPermutes(init, order);
      ClassesOfSnoc(init, e, order, |order| + 1);
    }
  }

  lemma {:induction false} ClassesEmpty(order: seq<string>, n: nat)
    ensures ClassesUpTo([], order, n) == []
  {
    if n > 0 { ClassesEmpty(order, n - 1); }
  }

  /** Regrouping is a stable sort by group: every tier kept once, groups in
      display order, and first-seen order within each group. */
  lemma RankedIsStableSort(d: Dict, order: seq<string>)
    ensures multiset(Ranked(d, order)) == multiset(d)
    ensures SortedByRank(Ranked(d, order), order)
    ensures forall r: nat :: OfRank(Ranked(d, order), order, r) == OfRank(d, order, r)
    ensures UniqueKeys(d) ==> UniqueKeys(Ranked(d, order))
  {
    RankedPermutes(d, order);
    ClassesSorted(d, order, |order| + 1);
    forall r: nat ensures OfRank(Ranked(d, order), order, r) == OfRank(d, order, r) {
      ClassesStable(d, order, |order| + 1, r);
      if r > |order| { NoRankBeyond(d, order, r); }
    }
    if UniqueKeys(d) { ClassesUnique(d, order, |order| + 1); }
  }

  /** An entry with a fresh key put in front of unique keys keeps them unique. */
  lemma PrependFresh(e: Entry, r: Dict)
    requires UniqueKeys(r) && e.0 !in Keys(r)
    ensures UniqueKeys([e] + r)
  {
    forall i, j | 0 <= i < j < |[e] + r| ensures ([e] + r)[i].0 != ([e] + r)[j].0 {
      assert ([e] + r)[j] == r[j - 1];
      if i == 0 {
        assert Keys(r)[j - 1] == r[j - 1].0;
      } else {
        assert ([e] + r)[i] == r[i - 1];
      }
    }
  }

  /** Assigning the regrouped entries onto an object holding one other key
      appends them after it. */
  lemma PrependRanked(e: Entry, d: Dict, order: seq<string>)
    requires UniqueKeys(d) && e.0 !in Keys(d)
    ensures Assign([e], Ranked(d, order)) == [e] + Ranked(d, order)
    ensures UniqueKeys([e] + Ranked(d, order))
  {
    RankedIsStableSort(d, order);
    ClassesKeys(d, order, |order| + 1, e.0);
    PrependFresh(e, Ranked(d, order));
    AssignFresh([e], Ranked(d, order));
  }

  /** Assigning one regrouped entry onto an object holding another key appends it. */
  lemma AssignRankedOne(a: Entry, e: Entry, order: seq<string>)
    requires a.0 != e.0
    ensures Assign([a], Ranked([e], order)) == [a, e]
  {
    assert Keys([e]) == [e.0];
    RankedSingleton(e, order);
    PrependRanked(a, [e], order);
  }

  /** A single entry regroups to itself. */
  lemma RankedSingleton(e: Entry, order: seq<string>)
    ensures Ranked([e], order) == [e]
  {
    var r := Ranked([e], order);
    RankedPermutes([e], order);
    assert |r| == |multiset(r)| == 1;
    assert r[0] in multiset(r);
  }

  lemma {:induction false} NoRankBeyond(d: Dict, order: seq<string>, r: nat)
    requires r > |order|
    ensures OfRank(d, order, r) == []
    decreases |d|
  {
    if d != [] { NoRankBeyond(d[..|d| - 1], order, r); }
  }

  /** Within group `r`, a key finds the value it has in `d`; outside it, nothing. */
  lemma {:induction false} LookupOfRank(d: Dict, order: seq<string>, r: nat, k: string)
    requires UniqueKeys(d)
    ensures Lookup(OfRank(d, order, r), k) == if Rank(k, order) == r then Lookup(d, k) else None
    decreases |d|
  {
    if d != [] {
      var init := d[..|d| - 1];
      var e := d[|d| - 1];
      var o := OfRank(init, order, r);
      assert d == init + [e];
      LastKeyIsFresh(d);
      LookupOfRank(init, order, r, k);
      LookupConcat(init, [e], k);
      if k in Keys(init) {
        LookupFindsKeys(init, k);
        assert k != e.0;
        if Rank(e.0, order) == r {
          LookupConcat(o, [e], k);
          LookupFindsKeys(o, k);
        }
      } else {
        OfRankKeys(init, order, r, k);
        LookupFindsKeys(o, k);
        if Rank(e.0, order) == r {
          LookupConcat(o, [e], k);
        }
      }
    }
  }

  lemma OfRankLookupNone(d: Dict, order: seq<string>, r: nat, k: string)
    requires Lookup(d, k) == None
    ensures Lookup(OfRank(d, order, r), k) == None
  {
    LookupFindsKeys(d, k);
    OfRankKeys(d, order, r, k);
    LookupFindsKeys(OfRank(d, order, r), k);
  }

  /** Groups `0` to `n - 1` hold exactly the keys of rank below `n`, with their values. */
  lemma PickLookup(c: Dict, o: Dict, k: string, want: Option<string>)
    requires if Lookup(c, k).Some? then want == Lookup(c, k) else want == Lookup(o, k)
    ensures Lookup(c + o, k) == want
  {
    LookupFindsKeys(c, k);
    LookupConcat(c, o, k);
  }

  /** The lookup in the groups before `n` from the lookups in the groups
      before `n - 1` and in group `n - 1`. */
  lemma ClassesLookupStep(d: Dict, order: seq<string>, n: nat, k: string)
    requires n > 0
    requires Lookup(ClassesUpTo(d, order, n - 1), k) == if Rank(k, order) < n - 1 then Lookup(d, k) else None
    requires Lookup(OfRank(d, order, n - 1), k) == if Rank(k, order) == n - 1 then Lookup(d, k) else None
    ensures Lookup(ClassesUpTo(d, order, n), k) == if Rank(k, order) < n then Lookup(d, k) else None
  {
    var c := ClassesUpTo(d, order, n - 1);
    var o := OfRank(d, order, n - 1);
    assert ClassesUpTo(d, order, n) == c + o;
    if Rank(k, order) < n - 1 {
      PickLookup(c, o, k, Lookup(d, k));
    } else {
      PickLookup(c, o, k, Lookup(o, k));
    }
  }

  lemma {:induction false} ClassesLookup(d: Dict, order: seq<string>, n: nat, k: string)
    requires UniqueKeys(d)
    ensures Lookup(ClassesUpTo(d, order, n), k) == if Rank(k, order) < n then Lookup(d, k) else None
  {
    if n > 0 {
      ClassesLookup(d, order, n - 1, k);
      LookupOfRank(d, order, n - 1, k);
      ClassesLookupStep(d, order, n, k);
    }
  }

  // ----- the regrouping loops -----

  lemma SliceUnique(d: Dict, j: nat)
    requires UniqueKeys(d) && j < |d|
    ensures d[j].0 !in Keys(d[..j]) && d[j].0 !in Keys(d[j + 1..])
  {
    forall m | 0 <= m < j ensures Keys(d[..j])[m] != d[j].0 { assert d[..j][m] == d[m]; }
    var t := d[j + 1..];
    forall m | 0 <= m < |t| ensures Keys(t)[m] != d[j].0 { assert t[m] == d[j + 1 + m]; }
  }

  lemma SliceSnoc(d: Dict, j: nat)
    requires j < |d|
    ensures d[..j + 1][..j] == d[..j] && d[..j + 1][j] == d[j] && |d[..j + 1]| == j + 1
    ensures d[j..] == [d[j]] + d[j + 1..]
  {
  }

  /** One step of the inner loop, for the label at position `j` of the object
      being regrouped, when it belongs to group `i` and is moved: the value
      is found, ... */
  lemma MoveFinds(start: Dict, rest: Dict, j: nat, a: Dict)
    requires UniqueKeys(start) && j < |start| && rest == start[j..]
    requires start[j].0 !in Keys(a)
    ensures Lookup(a + rest, start[j].0) == Some(start[j].1)
  {
    LookupAppend(a, rest, start[j].0);
    assert rest[0] == start[j];
  }

  /** ... stored in `sorted` at the end of the group, ... */
  lemma MoveStores(start: Dict, order: seq<string>, i: nat, j: nat, sStart: Dict, f: string -> string)
    requires j < |start| && Rank(start[j].0, order) == i
    ensures Put(Assign(sStart, MapValues(OfRank(start[..j], order, i), f)), start[j].0, f(start[j].1))
            == Assign(sStart, MapValues(OfRank(start[..j + 1], order, i), f))
  {
    var e := start[j];
    SliceSnoc(start, j);
    var o := OfRank(start[..j], order, i);
    assert OfRank(start[..j + 1], order, i) == o + [e];
    MapValuesAppend(o, [e], f);
    assert MapValues([e], f) == [(e.0, f(e.1))];
    AssignSnoc(sStart, MapValues(o, f), (e.0, f(e.1)));
  }

  /** ... and deleted from `unsorted`. */
  lemma MoveDeletes(start: Dict, order: seq<string>, i: nat, j: nat)
    requires UniqueKeys(start) && j < |start| && Rank(start[j].0, order) == i
    ensures var a := AtLeast(start[..j], order, i + 1);
            Delete(a + start[j..], start[j].0) == AtLeast(start[..j + 1], order, i + 1) + start[j + 1..]
  {
    var a := AtLeast(start[..j], order, i + 1);
    var k := start[j].0;
    var e := start[j];
    SliceUnique(start, j);
    SliceSnoc(start, j);
    AtLeastKeys(start[..j], order, i + 1, k);
    DeleteAppend(a, start[j..], k);
    DeleteAppend([e], start[j + 1..], k);
    DeleteSpec(a, k);
    DeleteSpec(start[j + 1..], k);
    assert Delete([e], k) == [];
  }

  /** The three parts of one step of the inner loop that moves the label at position `j`. */
  lemma MoveStep(start: Dict, order: seq<string>, i: nat, j: nat, sStart: Dict, f: string -> string)
    requires UniqueKeys(start) && j < |start| && Rank(start[j].0, order) == i
    ensures var a := AtLeast(start[..j], order, i + 1);
            Lookup(a + start[j..], start[j].0) == Some(start[j].1)
    ensures Put(Assign(sStart, MapValues(OfRank(start[..j], order, i), f)), start[j].0, f(start[j].1))
            == Assign(sStart, MapValues(OfRank(start[..j + 1], order, i), f))
    ensures var a := AtLeast(start[..j], order, i + 1);
            Delete(a + start[j..], start[j].0) == AtLeast(start[..j + 1], order, i + 1) + start[j + 1..]
  {
    var a := AtLeast(start[..j], order, i + 1);
    AtLeastKeys(start[..j], order, i + 1, start[j].0) by { SliceUnique(start, j); }
    MoveFinds(start, start[j..], j, a);
    MoveStores(start, order, i, j, sStart, f);
    MoveDeletes(start, order, i, j);
  }

  /** One step of the inner loop, at position `j`, as the loop's invariant sees it. */
  lemma InnerStep(u: Dict, order: seq<string>, i: nat, j: nat, s: Dict, f: string -> string,
                  sorted: Dict, unsorted: Dict)
    requires i < |order| && UniqueKeys(u) && j < |u|
    requires forall m :: 0 <= m < |u| ==> Rank(u[m].0, order) >= i
    requires sorted == Assign(s, MapValues(OfRank(u[..j], order, i), f))
    requires unsorted == AtLeast(u[..j], order, i + 1) + u[j..]
    ensures Matches(u[j].0, order[i]) ==>
              && Lookup(unsorted, u[j].0).Some?
              && Put(sorted, u[j].0, f(Lookup(unsorted, u[j].0).value))
                 == Assign(s, MapValues(OfRank(u[..j + 1], order, i), f))
              && Delete(unsorted, u[j].0) == AtLeast(u[..j + 1], order, i + 1) + u[j + 1..]
    ensures !Matches(u[j].0, order[i]) ==>
              && sorted == Assign(s, MapValues(OfRank(u[..j + 1], order, i), f))
              && unsorted == AtLeast(u[..j + 1], order, i + 1) + u[j + 1..]
  {
    assert Rank(u[j].0, order) >= i;
    MatchesAtRank(u[j].0, order, i);
    if Matches(u[j].0, order[i]) {
      MoveStep(u, order, i, j, s, f);
    } else {
      KeepStep(u, order, i, j, s, f);
    }
  }

  lemma AtLeastZero(d: Dict, order: seq<string>)
    ensures AtLeast(d, order, 0) == d
    decreases |d|
  {
    if d != [] { AtLeastZero(d[..|d| - 1], order); }
  }

  /** One step of the inner loop when the label at position `j` stays. */
  lemma KeepStep(start: Dict, order: seq<string>, i: nat, j: nat, sStart: Dict, f: string -> string)
    requires j < |start| && Rank(start[j].0, order) != i
    ensures OfRank(start[..j + 1], order, i) == OfRank(start[..j], order, i)
    ensures Rank(start[j].0, order) > i ==>
      AtLeast(start[..j], order, i + 1) + start[j..] == AtLeast(start[..j + 1], order, i + 1) + start[j + 1..]
  {
    SliceSnoc(start, j);
  }

  /** For a label in group `i` or later, containing the `i`-th key means being in group `i`. */
  lemma MatchesAtRank(tier: string, order: seq<string>, i: nat)
    requires i < |order| && Rank(tier, order) >= i
    ensures Matches(tier, order[i]) <==> Rank(tier, order) == i
  {
    RankFirstMatch(tier, order);
  }

  /** The inner loop of worker.js for the display key `order[i]`: every label of
      `u` containing it is stored, as `f` of its value, at the end of `s` and
      deleted from `u`. Every label of `u` is already known to be in group `i`
      or later. */
  method MoveGroup(s: Dict, u: Dict, order: seq<string>, i: nat, f: string -> string)
    returns (sorted: Dict, unsorted: Dict)
    requires i < |order| && UniqueKeys(u)
    requires forall m :: 0 <= m < |u| ==> Rank(u[m].0, order) >= i
    ensures sorted == Assign(s, MapValues(OfRank(u, order, i), f))
    ensures unsorted == AtLeast(u, order, i + 1)
  {
    sorted, unsorted := s, u;
    var key := order[i];
    var ks := Keys(u);
    var j := 0;
    assert sorted == Assign(s, MapValues(OfRank(u[..0], order, i), f))
        && unsorted == AtLeast(u[..0], order, i + 1) + u[0..] by {
      assert u[..0] == [] && u[0..] == u;
    }
    while j < |ks|
      invariant 0 <= j <= |ks| == |u|
      invariant sorted == Assign(s, MapValues(OfRank(u[..j], order, i), f))
      invariant unsorted == AtLeast(u[..j], order, i + 1) + u[j..]
    {
      var k := ks[j];
      InnerStep(u, order, i, j, s, f, sorted, unsorted);
      if Matches(k, key) {
        var v := Lookup(unsorted, k);
        sorted := Put(sorted, k, f(v.value));
        unsorted := Delete(unsorted, k);
      }
      j := j + 1;
    }
    assert u[..j] == u && u[j..] == [];
    assert AtLeast(u, order, i + 1) + [] == AtLeast(u, order, i + 1);
  }

  /** The two nested loops of worker.js that move, for each key of a display
      order in turn, every label still unsorted that contains that key into
      `sorted` (storing `f` of its value) and delete it from `unsorted`.
      The result is `s0` followed by the labels grouped by display order,
      stably; what is left is the labels that match no key, in their order. */
  method Regroup(s0: Dict, u0: Dict, order: seq<string>, f: string -> string)
    returns (sorted: Dict, unsorted: Dict)
    requires UniqueKeys(u0)
    ensures sorted == Assign(s0, MapValues(ClassesUpTo(u0, order, |order|), f))
    ensures unsorted == OfRank(u0, order, |order|)
  {
    sorted, unsorted := s0, u0;
    AtLeastZero(u0, order);
    assert ClassesUpTo(u0, order, 0) == [];
    var i := 0;
    while i < |order|
      invariant 0 <= i <= |order|
      invariant sorted == Assign(s0, MapValues(ClassesUpTo(u0, order, i), f))
      invariant unsorted == AtLeast(u0, order, i)
    {
      AtLeastUnique(u0, order, i);
      AtLeastRanks(u0, order, i);
      sorted, unsorted := MoveGroup(sorted, unsorted, order, i, f);
      AtLeastSplits(u0, order, i);
      MapValuesAppend(ClassesUpTo(u0, order, i), OfRank(u0, order, i), f);
      AssignConcat(s0, MapValues(ClassesUpTo(u0, order, i), f), MapValues(OfRank(u0, order, i), f));
      i := i + 1;
    }
    AtLeastLastIsOfRank(u0, order);
  }
}
