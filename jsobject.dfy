/** A JavaScript object used as a dictionary from strings to strings: an
    association list whose order is the order in which keys were first
    assigned, as `Object.keys`, `Object.values` and `Object.assign` see it. */
module JsObject {
  import opened Wrappers

  type Entry = (string, string)
  type Dict = seq<Entry>

  /** `Object.keys(d)` */
  function Keys(d: Dict): (ks: seq<string>)
    ensures |ks| == |d|
    ensures forall i :: 0 <= i < |d| ==> ks[i] == d[i].0
  {
    if d == [] then [] else [d[0].0] + Keys(d[1..])
  }

  lemma KeysAppend(a: Dict, b: Dict)
    ensures Keys(a + b) == Keys(a) + Keys(b)
  {
  }

  lemma NotAKey(d: Dict, k: string)
    requires forall i :: 0 <= i < |d| ==> d[i].0 != k
    ensures k !in Keys(d)
  {
  }

  /** `Object.values(d)` */
  function Values(d: Dict): (vs: seq<string>)
    ensures |vs| == |d|
    ensures forall i :: 0 <= i < |d| ==> vs[i] == d[i].1
  {
    if d == [] then [] else [d[0].1] + Values(d[1..])
  }

  /** No key is listed twice, as in every object. */
  predicate UniqueKeys(d: Dict) {
    forall i, j :: 0 <= i < j < |d| ==> d[i].0 != d[j].0
  }

  /** `d[k]`, with `undefined` as `None`. */
  function Lookup(d: Dict, k: string): Option<string>
  {
    if d == [] then None
    else if d[0].0 == k then Some(d[0].1)
    else Lookup(d[1..], k)
  }

  /** A lookup finds something exactly for the keys of the object. */
  lemma {:induction false} LookupFindsKeys(d: Dict, k: string)
    ensures Lookup(d, k).Some? <==> k in Keys(d)
  {
    if d != [] {
      assert Keys(d) == [d[0].0] + Keys(d[1..]);
      LookupFindsKeys(d[1..], k);
    }
  }

  /** In an object, the value stored at a key is the one found under it. */
  lemma {:induction false} LookupAt(d: Dict, i: int)
    requires UniqueKeys(d) && 0 <= i < |d|
    ensures Lookup(d, d[i].0) == Some(d[i].1)
  {
    if i > 0 {
      assert d[0].0 != d[i].0;
      assert d[1..][i - 1] == d[i];
      LookupAt(d[1..], i - 1);
    }
  }

  lemma {:induction false} LookupAppend(a: Dict, b: Dict, k: string)
    requires k !in Keys(a)
    ensures Lookup(a + b, k) == Lookup(b, k)
  {
    if a == [] {
      assert a + b == b;
    } else {
      assert (a + b)[0] == a[0] && (a + b)[1..] == a[1..] + b;
      assert a[0].0 == Keys(a)[0];
      assert Keys(a) == [a[0].0] + Keys(a[1..]);
      LookupAppend(a[1..], b, k);
    }
  }

  /** Where `k` sits among the keys of `d`, or -1 when it is not one of them. */
  function KeyIndex(d: Dict, k: string): (i: int)
    ensures -1 <= i < |d|
    ensures i >= 0 ==> d[i].0 == k && forall j :: 0 <= j < i ==> d[j].0 != k
    ensures i < 0 <==> k !in Keys(d)
  {
    if d == [] then -1
    else if d[0].0 == k then 0
    else
      var i := KeyIndex(d[1..], k);
      assert Keys(d) == [d[0].0] + Keys(d[1..]);
      if i < 0 then -1 else i + 1
  }

  /** Overwriting the entry where `k` first sits changes the lookup of `k` only. */
  lemma {:induction false} LookupOverwrite(d: Dict, i: int, k: string, v: string, k': string)
    requires 0 <= i < |d| && d[i].0 == k && forall j :: 0 <= j < i ==> d[j].0 != k
    ensures Lookup(d[i := (k, v)], k') == if k' == k then Some(v) else Lookup(d, k')
  {
    if i > 0 {
      assert d[i := (k, v)][1..] == d[1..][i - 1 := (k, v)];
      LookupOverwrite(d[1..], i - 1, k, v, k');
    }
  }

  /** `d[k] = v`: an existing key keeps its place and takes the new value;
      a new key is placed last. */
  function Put(d: Dict, k: string, v: string): (r: Dict)
    ensures Lookup(r, k) == Some(v)
    ensures forall k' :: k' != k ==> Lookup(r, k') == Lookup(d, k')
    ensures k in Keys(d) ==> Keys(r) == Keys(d)
    ensures k !in Keys(d) ==> r == d + [(k, v)]
  {
    var i := KeyIndex(d, k);
    if i < 0 then
      var r := d + [(k, v)];
      LookupAppendAbsent(d, (k, v), k);
      assert forall k' :: k' != k ==> Lookup(r, k') == Lookup(d, k') by {
        forall k' | k' != k ensures Lookup(r, k') == Lookup(d, k') {
          LookupAppendAbsent(d, (k, v), k');
        }
      }
      r
    else
      var r := d[i := (k, v)];
      LookupOverwrite(d, i, k, v, k);
      assert forall k' :: k' != k ==> Lookup(r, k') == Lookup(d, k') by {
        forall k' | k' != k ensures Lookup(r, k') == Lookup(d, k') {
          LookupOverwrite(d, i, k, v, k');
        }
      }
      r
  }

  /** The key whose inherited setter on a plain object ignores any value that
      is not an object: `d["__proto__"] = "…"` stores nothing. */
  const PROTO: string := "__proto__"

  /** Looking up in an object with one entry added at the end. */
  lemma {:induction false} LookupAppendAbsent(d: Dict, e: Entry, k': string)
    requires e.0 !in Keys(d)
    ensures Lookup(d + [e], k') == if k' == e.0 then Some(e.1) else Lookup(d, k')
  {
    if d == [] {
      assert d + [e] == [e];
    } else {
      assert (d + [e])[1..] == d[1..] + [e];
      assert Keys(d) == [d[0].0] + Keys(d[1..]);
      LookupAppendAbsent(d[1..], e, k');
    }
  }

  /** Assigning one key leaves the value of another alone. */
  lemma PutElsewhere(d: Dict, k: string, v: string, k': string)
    requires k != k'
    ensures Lookup(Put(d, k, v), k') == Lookup(d, k')
  {
  }

  /** Assignment keeps an object's keys unique. */
  lemma PutKeepsKeysUnique(d: Dict, k: string, v: string)
    requires UniqueKeys(d)
    ensures UniqueKeys(Put(d, k, v))
  {
    var r := Put(d, k, v);
    if k in Keys(d) {
      forall i, j | 0 <= i < j < |r| ensures r[i].0 != r[j].0 {
        assert Keys(r)[i] == Keys(d)[i] && Keys(r)[j] == Keys(d)[j];
      }
    } else {
      forall i, j | 0 <= i < j < |r| ensures r[i].0 != r[j].0 {
        if j == |d| {
          assert r[i] == d[i] && r[j].0 == k;
          assert Keys(d)[i] == d[i].0;
        } else {
          assert r[i] == d[i] && r[j] == d[j];
        }
      }
    }
  }

  /** `delete d[k]` */
  function Delete(d: Dict, k: string): Dict
  {
    if d == [] then []
    else if d[0].0 == k then Delete(d[1..], k)
    else [d[0]] + Delete(d[1..], k)
  }

  /** After `delete d[k]` the key is gone, every other key reads as before,
      and deleting an absent key changes nothing. */
  lemma {:induction false} DeleteSpec(d: Dict, k: string)
    ensures k !in Keys(Delete(d, k))
    ensures forall k' :: k' != k ==> Lookup(Delete(d, k), k') == Lookup(d, k')
    ensures k !in Keys(d) ==> Delete(d, k) == d
  {
    if d != [] {
      DeleteSpec(d[1..], k);
      assert Keys(d) == [d[0].0] + Keys(d[1..]);
      if d[0].0 != k {
        var r := [d[0]] + Delete(d[1..], k);
        assert r[1..] == Delete(d[1..], k);
        assert Keys(r) == [d[0].0] + Keys(Delete(d[1..], k));
      }
    }
  }

  lemma DeleteCons(e: Entry, rest: Dict, k: string)
    ensures Delete([e] + rest, k) == if e.0 == k then Delete(rest, k) else [e] + Delete(rest, k)
  {
    assert ([e] + rest)[1..] == rest;
  }

  lemma SplitHead(a: Dict, b: Dict)
    requires a != []
    ensures a == [a[0]] + a[1..]
    ensures a + b == [a[0]] + (a[1..] + b)
  {
  }

  lemma {:induction false} DeleteAppend(a: Dict, b: Dict, k: string)
    ensures Delete(a + b, k) == Delete(a, k) + Delete(b, k)
  {
    if a == [] {
      assert a + b == b;
    } else {
      DeleteAppend(a[1..], b, k);
      assert Delete(a + b, k) == Delete(a, k) + Delete(b, k) by {
        SplitHead(a, b);
        DeleteCons(a[0], a[1..] + b, k);
        DeleteCons(a[0], a[1..], k);
      }
    }
  }

  /** `Object.assign(d, src)`: the entries of `src` put into `d` one after another. */
  function Assign(d: Dict, src: Dict): Dict
    decreases |src|
  {
    if src == [] then d else Assign(Put(d, src[0].0, src[0].1), src[1..])
  }

  lemma {:induction false} AssignConcat(d: Dict, a: Dict, b: Dict)
    ensures Assign(Assign(d, a), b) == Assign(d, a + b)
    decreases |a|
  {
    if a == [] {
      assert a + b == b;
    } else {
      assert (a + b)[0] == a[0] && (a + b)[1..] == a[1..] + b;
      AssignConcat(Put(d, a[0].0, a[0].1), a[1..], b);
    }
  }

  /** Assigning one more entry puts it into the result so far. */
  lemma AssignSnoc(d: Dict, src: Dict, e: Entry)
    ensures Assign(d, src + [e]) == Put(Assign(d, src), e.0, e.1)
  {
    AssignConcat(d, src, [e]);
  }

  /** Assigning keys the object does not have yet appends them in order. */
  lemma FirstOfRestIsFresh(d: Dict, src: Dict)
    requires UniqueKeys(d + src) && src != []
    ensures src[0].0 !in Keys(d)
  {
    forall i | 0 <= i < |d| ensures Keys(d)[i] != src[0].0 {
      assert (d + src)[i] == d[i] && (d + src)[|d|] == src[0];
    }
  }

  lemma {:induction false} AssignFresh(d: Dict, src: Dict)
    requires UniqueKeys(d + src)
    ensures Assign(d, src) == d + src
    decreases |src|
  {
    if src != [] {
      var e := src[0];
      FirstOfRestIsFresh(d, src);
      var d' := Put(d, e.0, e.1);
      assert d' == d + [e];
      assert d + src == d' + src[1..];
      AssignFresh(d', src[1..]);
    }
  }

  /** Each entry's value passed through `f`, keys and order kept. */
  function MapValues(d: Dict, f: string -> string): (r: Dict)
    ensures |r| == |d| && Keys(r) == Keys(d)
    ensures forall i :: 0 <= i < |d| ==> r[i] == (d[i].0, f(d[i].1))
  {
    if d == [] then [] else [(d[0].0, f(d[0].1))] + MapValues(d[1..], f)
  }

  lemma MapValuesAppend(a: Dict, b: Dict, f: string -> string)
    ensures MapValues(a + b, f) == MapValues(a, f) + MapValues(b, f)
  {
  }

  /** Mapping the identity over the values changes nothing. */
  lemma MapValuesIdentity(d: Dict, f: string -> string)
    requires forall x :: f(x) == x
    ensures MapValues(d, f) == d
  {
  }

  /** A value found under a key is stored under it. */
  lemma {:induction false} LookupIsEntry(d: Dict, k: string)
    requires Lookup(d, k).Some?
    ensures (k, Lookup(d, k).value) in d
    decreases |d|
  {
    if d[0].0 != k {
      LookupIsEntry(d[1..], k);
    }
  }

  lemma LookupInPermutation(a: Dict, b: Dict, k: string)
    requires multiset(a) == multiset(b) && UniqueKeys(b) && Lookup(a, k).Some?
    ensures Lookup(b, k) == Lookup(a, k)
  {
    LookupIsEntry(a, k);
    var e := (k, Lookup(a, k).value);
    assert e in multiset(b);
    var m :| 0 <= m < |b| && b[m] == e;
    LookupAt(b, m);
  }

  /** Two orderings of the same entries of an object find the same value under every key. */
  lemma LookupPermutation(a: Dict, b: Dict, k: string)
    requires multiset(a) == multiset(b) && UniqueKeys(a) && UniqueKeys(b)
    ensures Lookup(a, k) == Lookup(b, k)
  {
    if Lookup(a, k).Some? {
      LookupInPermutation(a, b, k);
    }
    if Lookup(b, k).Some? {
      LookupInPermutation(b, a, k);
    }
  }

  /** After `Object.assign(d, src)` a key of `src` holds its value there, and any
      other key the value it had in `d`. */
  lemma {:induction false} AssignLookup(d: Dict, src: Dict, k: string)
    requires UniqueKeys(src)
    ensures Lookup(Assign(d, src), k) == if k in Keys(src) then Lookup(src, k) else Lookup(d, k)
    decreases |src|
  {
    if src != [] {
      var e := src[0];
      var rest := src[1..];
      assert UniqueKeys(rest) by {
        forall i, j | 0 <= i < j < |rest| ensures rest[i].0 != rest[j].0 {
          assert rest[i] == src[i + 1] && rest[j] == src[j + 1];
        }
      }
      AssignLookup(Put(d, e.0, e.1), rest, k);
      assert Keys(src) == [e.0] + Keys(rest);
      if e.0 == k {
        assert k !in Keys(rest) by {
          forall i | 0 <= i < |rest| ensures Keys(rest)[i] != k {
            assert rest[i] == src[i + 1];
          }
        }
      }
    }
  }

  /** `Object.assign` never moves the first key of its target. */
  lemma {:induction false} AssignKeepsFirst(d: Dict, src: Dict)
    requires d != []
    ensures |Assign(d, src)| >= 1 && Assign(d, src)[0].0 == d[0].0
    decreases |src|
  {
    if src != [] {
      var d' := Put(d, src[0].0, src[0].1);
      assert |d'| >= 1 && d'[0].0 == d[0].0 by {
        if src[0].0 in Keys(d) {
          assert Keys(d')[0] == Keys(d)[0];
        }
      }
      AssignKeepsFirst(d', src[1..]);
    }
  }

  /** A key of the first part is found there; any other key in the second part. */
  lemma {:induction false} LookupConcat(a: Dict, b: Dict, k: string)
    ensures Lookup(a + b, k) == if k in Keys(a) then Lookup(a, k) else Lookup(b, k)
    decreases |a|
  {
    if a == [] {
      assert a + b == b;
    } else {
      assert (a + b)[0] == a[0] && (a + b)[1..] == a[1..] + b;
      assert Keys(a) == [a[0].0] + Keys(a[1..]);
      LookupConcat(a[1..], b, k);
    }
  }

  /** The value found after mapping is the mapped value found before. */
  lemma {:induction false} MapValuesLookup(d: Dict, f: string -> string, k: string)
    ensures Lookup(MapValues(d, f), k) == if Lookup(d, k).Some? then Some(f(Lookup(d, k).value)) else None
    decreases |d|
  {
    if d != [] {
      assert MapValues(d, f)[1..] == MapValues(d[1..], f);
      MapValuesLookup(d[1..], f, k);
    }
  }
}
