/** The JavaScript string operations the playlist code relies on
    (`startsWith`, `includes`, `split`, `join`, `trim`, `toLowerCase`,
    `lastIndexOf`), as functions on `seq<char>`, and the truth of an
    optional string. */
module JsString {
  import opened Wrappers

  /** A header or query value that JavaScript treats as true: present and non-empty. */
  predicate Truthy(v: Option<string>) {
    v.Some? && v.value != ""
  }

  /** `s.startsWith(p)` */
  predicate StartsWith(s: string, p: string) {
    |p| <= |s| && s[..|p|] == p
  }

  lemma PrefixStartsWith(p: string, rest: string)
    ensures StartsWith(p + rest, p)
  {
    assert (p + rest)[..|p|] == p;
  }

  /** `s.includes(t)`: some position of `s` starts with `t`. */
  predicate Contains(s: string, t: string)
    decreases |s|
  {
    StartsWith(s, t) || (|s| > 0 && Contains(s[1..], t))
  }

  /** `t` occurs in `s` starting at position `i`. */
  predicate OccursAt(s: string, t: string, i: nat) {
    i + |t| <= |s| && s[i..i + |t|] == t
  }

  /** No occurrence of `t` in `s` starts before position `n`. */
  predicate NoOccurrenceBefore(s: string, t: string, n: nat) {
    forall i: nat :: i < n ==> !OccursAt(s, t, i)
  }

  lemma {:induction false} ContainsIffOccurs(s: string, t: string)
    ensures Contains(s, t) <==> exists i: nat :: OccursAt(s, t, i)
    decreases |s|
  {
    if StartsWith(s, t) {
      assert OccursAt(s, t, 0);
    } else if |s| == 0 {
    } else {
      ContainsIffOccurs(s[1..], t);
      if Contains(s[1..], t) {
        var i: nat :| OccursAt(s[1..], t, i);
        assert s[i + 1..i + 1 + |t|] == s[1..][i..i + |t|];
        assert OccursAt(s, t, i + 1);
      } else {
        forall i: nat ensures !OccursAt(s, t, i) {
          if i > 0 && OccursAt(s, t, i) {
            assert s[1..][i - 1..i - 1 + |t|] == s[i..i + |t|];
            assert OccursAt(s[1..], t, i - 1);
          }
        }
      }
    }
  }

  /** A string not containing occurrences of `t` contains no occurrence of `t` anywhere. */
  lemma NotContainsNoOccurrence(s: string, t: string, i: nat)
    requires !Contains(s, t)
    ensures !OccursAt(s, t, i)
  {
    ContainsIffOccurs(s, t);
  }

  /** A string never contains a longer one, nor one whose first character it lacks. */
  lemma {:induction false} NotContained(s: string, t: string)
    requires |t| > |s| || (t != [] && t[0] !in s)
    ensures !Contains(s, t)
    decreases |s|
  {
    if |s| > 0 {
      assert |t| > |s[1..]| || t[0] !in s[1..];
      NotContained(s[1..], t);
    }
  }

  /** `s.split(sep)` for a non-empty separator, scanning left to right. */
  function SplitOn(s: string, sep: string): (parts: seq<string>)
    requires sep != []
    ensures |parts| >= 1
    decreases |s|
  {
    if StartsWith(s, sep) then [""] + SplitOn(s[|sep|..], sep)
    else if s == [] then [""]
    else
      var rest := SplitOn(s[1..], sep);
      [[s[0]] + rest[0]] + rest[1..]
  }

  /** `parts.join(sep)` */
  function Join(parts: seq<string>, sep: string): string
  {
    if |parts| == 0 then ""
    else if |parts| == 1 then parts[0]
    else parts[0] + sep + Join(parts[1..], sep)
  }

  lemma JoinConsPrefix(a: string, x: string, r: seq<string>, sep: string)
    ensures Join([a + x] + r, sep) == a + Join([x] + r, sep)
  {
    if |r| > 0 {
      assert ([a + x] + r)[1..] == r;
      assert ([x] + r)[1..] == r;
    }
  }

  /** Joining the parts of a split gives the original string back. */
  lemma {:induction false} JoinSplit(s: string, sep: string)
    requires sep != []
    ensures Join(SplitOn(s, sep), sep) == s
    decreases |s|
  {
    if StartsWith(s, sep) {
      var p := SplitOn(s[|sep|..], sep);
      assert SplitOn(s, sep) == [""] + p;
      assert Join([""] + p, sep) == "" + sep + Join(p, sep) by {
        assert ([""] + p)[1..] == p;
      }
      assert Join(p, sep) == s[|sep|..] by {
        JoinSplit(s[|sep|..], sep);
      }
      assert s == sep + s[|sep|..];
    } else if s == [] {
    } else {
      var rest := SplitOn(s[1..], sep);
      assert SplitOn(s, sep) == [[s[0]] + rest[0]] + rest[1..];
      assert Join([[s[0]] + rest[0]] + rest[1..], sep) == [s[0]] + Join(rest, sep) by {
        JoinConsPrefix([s[0]], rest[0], rest[1..], sep);
        assert [rest[0]] + rest[1..] == rest;
      }
      assert Join(rest, sep) == s[1..] by {
        JoinSplit(s[1..], sep);
      }
      assert s == [s[0]] + s[1..];
    }
  }

  /** A string that contains the separator splits into at least two parts. */
  lemma {:induction false} SplitOnContained(s: string, sep: string)
    requires sep != [] && Contains(s, sep)
    ensures |SplitOn(s, sep)| >= 2
    decreases |s|
  {
    if !StartsWith(s, sep) {
      SplitOnContained(s[1..], sep);
    }
  }

  /** Splitting `x + sep + y` at its first occurrence of `sep`. */
  lemma {:induction false} SplitAtFirst(x: string, sep: string, y: string)
    requires sep != []
    requires NoOccurrenceBefore(x + sep + y, sep, |x|)
    ensures SplitOn(x + sep + y, sep) == [x] + SplitOn(y, sep)
    decreases |x|
  {
    var s := x + sep + y;
    if x == [] {
      assert s == sep + y;
      assert StartsWith(s, sep);
      assert s[|sep|..] == y;
    } else {
      assert !OccursAt(s, sep, 0);
      assert !StartsWith(s, sep);
      assert s[1..] == x[1..] + sep + y;
      forall i: nat | i < |x| - 1 ensures !OccursAt(s[1..], sep, i) {
        assert !OccursAt(s, sep, i + 1);
        if i + |sep| <= |s[1..]| {
          assert s[1..][i..i + |sep|] == s[i + 1..i + 1 + |sep|];
        }
      }
      SplitAtFirst(x[1..], sep, y);
      assert [x[0]] + x[1..] == x;
    }
  }

  /** A string with no occurrence of `sep` splits into itself alone. */
  lemma {:induction false} SplitWithoutSeparator(s: string, sep: string)
    requires sep != []
    requires NoOccurrenceBefore(s, sep, |s|)
    ensures SplitOn(s, sep) == [s]
    decreases |s|
  {
    if s == [] {
    } else {
      assert !OccursAt(s, sep, 0);
      forall i: nat | i < |s| - 1 ensures !OccursAt(s[1..], sep, i) {
        assert !OccursAt(s, sep, i + 1);
        if i + |sep| <= |s[1..]| {
          assert s[1..][i..i + |sep|] == s[i + 1..i + 1 + |sep|];
        }
      }
      SplitWithoutSeparator(s[1..], sep);
      assert [s[0]] + s[1..] == s;
    }
  }

  /** The first part of a split extends past every position before the first occurrence. */
  lemma {:induction false} SplitFirstPartPrefix(s: string, sep: string, n: nat)
    requires sep != []
    requires n <= |s|
    requires NoOccurrenceBefore(s, sep, n)
    ensures StartsWith(SplitOn(s, sep)[0], s[..n])
    decreases n
  {
    if n > 0 {
      assert !OccursAt(s, sep, 0);
      forall i: nat | i < n - 1 ensures !OccursAt(s[1..], sep, i) {
        assert !OccursAt(s, sep, i + 1);
        if i + |sep| <= |s[1..]| {
          assert s[1..][i..i + |sep|] == s[i + 1..i + 1 + |sep|];
        }
      }
      SplitFirstPartPrefix(s[1..], sep, n - 1);
      assert s[..n] == [s[0]] + s[1..][..n - 1];
    }
  }

  /** A single-character separator appears in none of `ls`' elements. */
  predicate FreeOf(ls: seq<string>, c: char) {
    forall i :: 0 <= i < |ls| ==> c !in ls[i]
  }

  lemma NoOccurrenceOfAbsentChar(s: string, c: char, n: nat)
    requires n <= |s|
    requires c !in s[..n]
    ensures NoOccurrenceBefore(s, [c], n)
  {
    forall i: nat | i < n ensures !OccursAt(s, [c], i) {
      assert s[..n][i] == s[i];
    }
  }

  /** Splitting on a character undoes joining on it, when no element contains it. */
  lemma {:induction false} SplitJoin(ls: seq<string>, c: char)
    requires |ls| >= 1
    requires FreeOf(ls, c)
    ensures SplitOn(Join(ls, [c]), [c]) == ls
    decreases |ls|
  {
    if |ls| == 1 {
      NoOccurrenceOfAbsentChar(ls[0], c, |ls[0]|);
      assert ls[0][..|ls[0]|] == ls[0];
      SplitWithoutSeparator(ls[0], [c]);
    } else {
      var tail := Join(ls[1..], [c]);
      var whole := ls[0] + [c] + tail;
      assert whole[..|ls[0]|] == ls[0];
      NoOccurrenceOfAbsentChar(whole, c, |ls[0]|);
      SplitAtFirst(ls[0], [c], tail);
      SplitJoin(ls[1..], c);
      assert [ls[0]] + ls[1..] == ls;
    }
  }

  /** `s.split('\n')` */
  function Lines(s: string): (ls: seq<string>)
    ensures |ls| >= 1
  {
    SplitOn(s, "\n")
  }

  /** Lines never hold the line feed they were split on. */
  lemma {:induction false} SplitPartsFreeOfSeparator(s: string, c: char)
    ensures FreeOf(SplitOn(s, [c]), c)
    decreases |s|
  {
    var ps := SplitOn(s, [c]);
    if StartsWith(s, [c]) {
      SplitPartsFreeOfSeparator(s[1..], c);
      assert ps == [""] + SplitOn(s[1..], [c]);
    } else if s == [] {
    } else {
      var rest := SplitOn(s[1..], [c]);
      SplitPartsFreeOfSeparator(s[1..], c);
      assert s[0] != c by { assert !(s[..1] == [c]); }
      assert ps[0] == [s[0]] + rest[0];
      forall i | 0 <= i < |ps| ensures c !in ps[i] {
        if i > 0 { assert ps[i] == rest[i]; }
      }
    }
  }

  /** The white space and line terminators `String.prototype.trim` removes. */
  predicate IsJsSpace(ch: char) {
    || ch == '\t' || ch == '\n' || ch == '\U{000B}' || ch == '\U{000C}' || ch == '\r'
    || ch == ' ' || ch == '\U{00A0}' || ch == '\U{1680}' || ('\U{2000}' <= ch <= '\U{200A}')
    || ch == '\U{2028}' || ch == '\U{2029}' || ch == '\U{202F}' || ch == '\U{205F}'
    || ch == '\U{3000}' || ch == '\U{FEFF}'
  }

  predicate AllSpace(s: string) {
    forall i :: 0 <= i < |s| ==> IsJsSpace(s[i])
  }

  lemma LeadingSpace(s: string, n: nat)
    requires s != [] && IsJsSpace(s[0]) && n < |s| && AllSpace(s[1..][..n])
    ensures AllSpace(s[..n + 1])
  {
    var p, q := s[..n + 1], s[1..][..n];
    forall i | 0 < i < |p| ensures IsJsSpace(p[i]) {
      assert p[i] == q[i - 1];
    }
  }

  /** `s` without its leading white space. */
  function TrimStart(s: string): (r: string)
    ensures |r| <= |s| && r == s[|s| - |r|..] && AllSpace(s[..|s| - |r|])
    ensures r != [] ==> !IsJsSpace(r[0])
    decreases |s|
  {
    if s != [] && IsJsSpace(s[0]) then
      var r := TrimStart(s[1..]);
      var k := |s| - |r|;
      assert r == s[k..] by {
        assert s[1..][|s| - 1 - |r|..] == s[k..];
      }
      assert AllSpace(s[..k]) by {
        LeadingSpace(s, |s| - 1 - |r|);
      }
      r
    else
      s
  }

  /** `s` without its trailing white space. */
  function TrimEnd(s: string): (r: string)
    ensures |r| <= |s| && r == s[..|r|] && AllSpace(s[|r|..])
    ensures r != [] ==> !IsJsSpace(r[|r| - 1])
    decreases |s|
  {
    if s != [] && IsJsSpace(s[|s| - 1]) then
      var r := TrimEnd(s[..|s| - 1]);
      assert r == s[..|r|] by {
        assert s[..|s| - 1][..|r|] == s[..|r|];
      }
      assert AllSpace(s[|r|..]) by {
        forall i | 0 <= i < |s| - |r| ensures IsJsSpace(s[|r|..][i]) {
          if i < |s| - 1 - |r| {
            assert s[|r|..][i] == s[..|s| - 1][|r|..][i];
          }
        }
      }
      r
    else
      s
  }

  /** Where `s.trim()` starts in `s`: the length of its leading white space. */
  function TrimOffset(s: string): (i: nat)
    ensures i <= |s|
  {
    |s| - |TrimStart(s)|
  }

  /** A prefix of a suffix is a slice, and what follows it is the rest of the suffix. */
  lemma SliceOfSuffix(s: string, i: nat, t: string, r: string)
    requires i <= |s| && t == s[i..] && |r| <= |t| && r == t[..|r|]
    ensures i + |r| <= |s| && r == s[i..i + |r|] && s[i + |r|..] == t[|r|..]
  {
  }

  /** `s.trim()`: `s` without its leading and trailing white space. */
  function Trim(s: string): (r: string)
    ensures TrimOffset(s) + |r| <= |s| && r == s[TrimOffset(s)..TrimOffset(s) + |r|]
    ensures AllSpace(s[..TrimOffset(s)]) && AllSpace(s[TrimOffset(s) + |r|..])
    ensures r != [] ==> !IsJsSpace(r[0]) && !IsJsSpace(r[|r| - 1])
  {
    var t := TrimStart(s);
    var r := TrimEnd(t);
    TrimParts(s, TrimOffset(s), t, r);
    r
  }

  /** Cutting trailing white space off the suffix from `i` on, left by cutting
      leading white space, leaves a slice with only white space around it. */
  lemma TrimParts(s: string, i: nat, t: string, r: string)
    requires i == |s| - |t| && t == s[i..] && AllSpace(s[..i])
    requires t != [] ==> !IsJsSpace(t[0])
    requires |r| <= |t| && r == t[..|r|] && AllSpace(t[|r|..])
    requires r != [] ==> !IsJsSpace(r[|r| - 1])
    ensures i + |r| <= |s| && r == s[i..i + |r|]
    ensures AllSpace(s[..i]) && AllSpace(s[i + |r|..])
    ensures r != [] ==> !IsJsSpace(r[0]) && !IsJsSpace(r[|r| - 1])
  {
    SliceOfSuffix(s, i, t, r);
    assert r != [] ==> r[0] == t[0];
  }

  /** `s.toLowerCase()` on the ASCII letters. */
  function ToLower(s: string): (r: string)
    ensures |r| == |s|
    ensures forall i :: 0 <= i < |s| ==> r[i] == LowerChar(s[i])
  {
    if s == [] then [] else [LowerChar(s[0])] + ToLower(s[1..])
  }

  function LowerChar(ch: char): char {
    if 'A' <= ch <= 'Z' then (ch as int + 32) as char else ch
  }

  /** `s.lastIndexOf(c)`: the last position holding `c`, or -1. */
  function LastIndexOf(s: string, c: char): (i: int)
    ensures -1 <= i < |s|
    ensures i >= 0 ==> s[i] == c
    ensures forall j :: i < j < |s| ==> s[j] != c
    decreases |s|
  {
    if s == [] then -1
    else if s[|s| - 1] == c then |s| - 1
    else LastIndexOf(s[..|s| - 1], c)
  }

  /** `s.indexOf(c)`: the first position holding `c`, or -1. */
  function IndexOf(s: string, c: char): (i: int)
    ensures -1 <= i < |s|
    ensures i >= 0 ==> s[i] == c
    ensures forall j :: 0 <= j < |s| && (i < 0 || j < i) ==> s[j] != c
    decreases |s|
  {
    if s == [] then -1
    else if s[0] == c then 0
    else
      var k := IndexOf(s[1..], c);
      if k < 0 then -1 else k + 1
  }

  /** The first position holding `c` is the one `IndexOf` finds. */
  lemma IndexOfIs(s: string, c: char, p: int)
    requires 0 <= p < |s| && s[p] == c
    requires forall j :: 0 <= j < p ==> s[j] != c
    ensures IndexOf(s, c) == p
  {
  }

  lemma IndexOfAbsent(s: string, c: char)
    requires forall j :: 0 <= j < |s| ==> s[j] != c
    ensures IndexOf(s, c) == -1
  {
  }
}
