/** `encodeURIComponent` and the query-string decoding of `URLSearchParams`
    (the WHATWG application/x-www-form-urlencoded parser), over Unicode
    scalar values encoded as UTF-8 (RFC 3629). */
module UriCodec {
  import opened Wrappers
  import opened JsString

  type Byte = b: int | 0 <= b < 256

  predicate IsScalar(cp: int) {
    0 <= cp < 0xD800 || 0xE000 <= cp < 0x11_0000
  }

  /** The UTF-8 encoding of one character (section 3 of RFC 3629): the code
      point's 6-bit groups, the leading one marked with the sequence length. */
  function Utf8Char(c: char): (bs: seq<Byte>)
    ensures 1 <= |bs| <= 4
    ensures (c as int < 0x80) <==> bs == [c as int]
  {
    var cp := c as int;
    var q1 := cp / 64;
    var q2 := q1 / 64;
    if cp < 0x80 then [cp]
    else if cp < 0x800 then [0xC0 + q1, 0x80 + cp % 64]
    else if cp < 0x1_0000 then [0xE0 + q2, 0x80 + q1 % 64, 0x80 + cp % 64]
    else [0xF0 + q2 / 64, 0x80 + q2 % 64, 0x80 + q1 % 64, 0x80 + cp % 64]
  }

  function Utf8Encode(s: string): seq<Byte>
  {
    if s == [] then [] else Utf8Char(s[0]) + Utf8Encode(s[1..])
  }

  predicate IsCont(b: Byte) {
    0x80 <= b < 0xC0
  }

  function Cp2(b0: Byte, b1: Byte): int { (b0 - 0xC0) * 64 + (b1 - 0x80) }
  function Cp3(b0: Byte, b1: Byte, b2: Byte): int { (b0 - 0xE0) * 4096 + (b1 - 0x80) * 64 + (b2 - 0x80) }
  function Cp4(b0: Byte, b1: Byte, b2: Byte, b3: Byte): int {
    (b0 - 0xF0) * 262144 + (b1 - 0x80) * 4096 + (b2 - 0x80) * 64 + (b3 - 0x80)
  }

  /** UTF-8 decoding. A byte that does not begin a well-formed sequence
      becomes U+FFFD and decoding resumes at the next byte. */
  function Utf8Decode(bs: seq<Byte>): string
    decreases |bs|
  {
    if bs == [] then ""
    else if bs[0] < 0x80 then [bs[0] as char] + Utf8Decode(bs[1..])
    else if 0xC2 <= bs[0] < 0xE0 && |bs| >= 2 && IsCont(bs[1]) then
      [Cp2(bs[0], bs[1]) as char] + Utf8Decode(bs[2..])
    else if 0xE0 <= bs[0] < 0xF0 && |bs| >= 3 && IsCont(bs[1]) && IsCont(bs[2])
         && 0x800 <= Cp3(bs[0], bs[1], bs[2]) && IsScalar(Cp3(bs[0], bs[1], bs[2])) then
      [Cp3(bs[0], bs[1], bs[2]) as char] + Utf8Decode(bs[3..])
    else if 0xF0 <= bs[0] < 0xF5 && |bs| >= 4 && IsCont(bs[1]) && IsCont(bs[2]) && IsCont(bs[3])
         && 0x1_0000 <= Cp4(bs[0], bs[1], bs[2], bs[3]) && IsScalar(Cp4(bs[0], bs[1], bs[2], bs[3])) then
      [Cp4(bs[0], bs[1], bs[2], bs[3]) as char] + Utf8Decode(bs[4..])
    else ['\U{FFFD}'] + Utf8Decode(bs[1..])
  }

  lemma Utf8Char2Decodes(c: char, rest: seq<Byte>)
    requires 0x80 <= c as int < 0x800
    ensures Utf8Decode(Utf8Char(c) + rest) == [c] + Utf8Decode(rest)
  {
    var cp := c as int;
    var bs := Utf8Char(c) + rest;
    assert cp == 64 * (cp / 64) + cp % 64;
    assert bs[0] == 0xC0 + cp / 64 && bs[1] == 0x80 + cp % 64;
    assert bs[2..] == rest;
  }

  lemma Utf8Char3Decodes(c: char, rest: seq<Byte>)
    requires 0x800 <= c as int < 0x1_0000
    ensures Utf8Decode(Utf8Char(c) + rest) == [c] + Utf8Decode(rest)
  {
    var cp := c as int;
    var q1 := cp / 64;
    var bs := Utf8Char(c) + rest;
    assert cp == 64 * q1 + cp % 64;
    assert q1 == 64 * (q1 / 64) + q1 % 64;
    assert bs[0] == 0xE0 + q1 / 64 && bs[1] == 0x80 + q1 % 64 && bs[2] == 0x80 + cp % 64;
    assert Cp3(bs[0], bs[1], bs[2]) == cp;
    assert bs[3..] == rest;
  }

  lemma Utf8Char4Decodes(c: char, rest: seq<Byte>)
    requires 0x1_0000 <= c as int
    ensures Utf8Decode(Utf8Char(c) + rest) == [c] + Utf8Decode(rest)
  {
    var cp := c as int;
    var q1 := cp / 64;
    var q2 := q1 / 64;
    var bs := Utf8Char(c) + rest;
    assert cp == 64 * q1 + cp % 64;
    assert q1 == 64 * q2 + q1 % 64;
    assert q2 == 64 * (q2 / 64) + q2 % 64;
    assert bs[0] == 0xF0 + q2 / 64 && bs[1] == 0x80 + q2 % 64 && bs[2] == 0x80 + q1 % 64 && bs[3] == 0x80 + cp % 64;
    assert Cp4(bs[0], bs[1], bs[2], bs[3]) == cp;
    assert bs[4..] == rest;
  }

  /** Decoding the encoding of one character yields that character. */
  lemma Utf8CharDecodes(c: char, rest: seq<Byte>)
    ensures Utf8Decode(Utf8Char(c) + rest) == [c] + Utf8Decode(rest)
  {
    var cp := c as int;
    if cp < 0x80 {
      assert (Utf8Char(c) + rest)[1..] == rest;
    } else if cp < 0x800 {
      Utf8Char2Decodes(c, rest);
    } else if cp < 0x1_0000 {
      Utf8Char3Decodes(c, rest);
    } else {
      Utf8Char4Decodes(c, rest);
    }
  }

  lemma {:induction false} Utf8RoundTrip(s: string)
    ensures Utf8Decode(Utf8Encode(s)) == s
  {
    if s != [] {
      Utf8CharDecodes(s[0], Utf8Encode(s[1..]));
      Utf8RoundTrip(s[1..]);
      assert s == [s[0]] + s[1..];
    }
  }

  /** The characters `encodeURIComponent` leaves as they are. */
  predicate IsUnreservedChar(c: char) {
    || ('A' <= c <= 'Z') || ('a' <= c <= 'z') || ('0' <= c <= '9')
    || c == '-' || c == '_' || c == '.' || c == '!' || c == '~' || c == '*' || c == '\'' || c == '(' || c == ')'
  }

  predicate IsUnreserved(b: Byte) {
    b < 0x80 && IsUnreservedChar(b as char)
  }

  function HexDigit(n: int): (c: char)
    requires 0 <= n < 16
    ensures IsHex(c) && HexValue(c) == n
  {
    if n < 10 then ('0' as int + n) as char else ('A' as int + n - 10) as char
  }

  predicate IsHex(c: char) {
    ('0' <= c <= '9') || ('A' <= c <= 'F') || ('a' <= c <= 'f')
  }

  function HexValue(c: char): int
    requires IsHex(c)
  {
    if '0' <= c <= '9' then c as int - '0' as int
    else if 'A' <= c <= 'F' then c as int - 'A' as int + 10
    else c as int - 'a' as int + 10
  }

  /** One octet as `encodeURIComponent` writes it: itself, or `%` and two upper-case hex digits. */
  function EncodeByte(b: Byte): string
  {
    if IsUnreserved(b) then [b as char] else ['%', HexDigit(b / 16), HexDigit(b % 16)]
  }

  function EncodeBytes(bs: seq<Byte>): (t: string)
    ensures forall i :: 0 <= i < |t| ==> IsUnreservedChar(t[i]) || t[i] == '%'
  {
    if bs == [] then "" else EncodeByte(bs[0]) + EncodeBytes(bs[1..])
  }

  /** `encodeURIComponent(s)`: its output holds only unreserved characters and `%`,
      so in particular no `&`, `=`, `?`, `#`, `+`, `/` or line feed. */
  function EncodeUriComponent(s: string): (t: string)
    ensures forall i :: 0 <= i < |t| ==> IsUnreservedChar(t[i]) || t[i] == '%'
  {
    EncodeBytes(Utf8Encode(s))
  }

  /** Percent-decoding of one query component, with `+` read as a space.
      A `%` not followed by two hex digits stays a literal `%`. */
  function PercentDecode(t: string): seq<Byte>
    decreases |t|
  {
    if t == [] then []
    else if t[0] == '%' && |t| >= 3 && IsHex(t[1]) && IsHex(t[2]) then
      [HexValue(t[1]) * 16 + HexValue(t[2])] + PercentDecode(t[3..])
    else if t[0] == '+' then [0x20] + PercentDecode(t[1..])
    else Utf8Char(t[0]) + PercentDecode(t[1..])
  }

  /** How `URLSearchParams` decodes a name or a value. */
  function FormDecode(t: string): string
  {
    Utf8Decode(PercentDecode(t))
  }

  lemma EncodeByteDecodes(b: Byte, rest: string)
    ensures PercentDecode(EncodeByte(b) + rest) == [b] + PercentDecode(rest)
  {
    var t := EncodeByte(b) + rest;
    if IsUnreserved(b) {
      assert t[0] == b as char && t[1..] == rest;
    } else {
      assert t[3..] == rest;
    }
  }

  lemma {:induction false} PercentRoundTrip(bs: seq<Byte>)
    ensures PercentDecode(EncodeBytes(bs)) == bs
  {
    if bs != [] {
      EncodeByteDecodes(bs[0], EncodeBytes(bs[1..]));
      PercentRoundTrip(bs[1..]);
      assert bs == [bs[0]] + bs[1..];
    }
  }

  /** Decoding what `encodeURIComponent` produced gives back the original text. */
  lemma UriComponentRoundTrip(s: string)
    ensures FormDecode(EncodeUriComponent(s)) == s
  {
    PercentRoundTrip(Utf8Encode(s));
    Utf8RoundTrip(s);
  }

  /** Characters that decode to themselves. */
  predicate IsPlain(c: char) {
    c as int < 0x80 && c != '%' && c != '+'
  }

  lemma {:induction false} PlainDecodes(t: string)
    requires forall i :: 0 <= i < |t| ==> IsPlain(t[i])
    ensures FormDecode(t) == t
  {
    if t != [] {
      PlainDecodes(t[1..]);
      var bs := PercentDecode(t);
      assert bs == [t[0] as int] + PercentDecode(t[1..]);
      assert bs[1..] == PercentDecode(t[1..]);
      assert t == [t[0]] + t[1..];
    }
  }

  /** The query of a URL: what follows its first `?`, up to a `#`. */
  function QueryOf(url: string): string
  {
    var q := IndexOf(url, '?');
    if q < 0 then ""
    else
      var rest := url[q + 1..];
      var h := IndexOf(rest, '#');
      if h < 0 then rest else rest[..h]
  }

  /** One `name=value` pair of a query, decoded; without `=`, the value is empty. */
  function NameValue(segment: string): (string, string)
  {
    var k := IndexOf(segment, '=');
    if k < 0 then (FormDecode(segment), "")
    else (FormDecode(segment[..k]), FormDecode(segment[k + 1..]))
  }

  function NameValues(segments: seq<string>): seq<(string, string)>
  {
    if segments == [] then []
    else if segments[0] == "" then NameValues(segments[1..])
    else [NameValue(segments[0])] + NameValues(segments[1..])
  }

  /** `new URLSearchParams(query)`: the pairs between the `&`s, empty ones skipped. */
  function ParseQuery(query: string): seq<(string, string)>
  {
    NameValues(SplitOn(query, "&"))
  }

  /** `params.get(name)`: the value of the first pair with that name, or `null`. */
  function GetParam(params: seq<(string, string)>, name: string): Option<string>
  {
    if params == [] then None
    else if params[0].0 == name then Some(params[0].1)
    else GetParam(params[1..], name)
  }

  /** `new URL(url).searchParams.get(name)` */
  function SearchParam(url: string, name: string): Option<string>
  {
    GetParam(ParseQuery(QueryOf(url)), name)
  }
}
