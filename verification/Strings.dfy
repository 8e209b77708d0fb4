/** Python's strings: prefixes, white space, their order, and sorted sequences of them. */
module Strings {

  /** `s.startswith(prefix)` */
  predicate StartsWith(s: string, prefix: string) {
    |prefix| <= |s| && s[..|prefix|] == prefix
  }

  /** `c.isspace()` */
  predicate IsSpace(c: char) {
    c == ' ' || OtherSpace(c as int)
  }

  predicate OtherSpace(code: int) {
    9 <= code <= 13 || 28 <= code <= 31 || code == 133 || code == 160 || code == 5760 || 8192 <= code <= 8202
    || 8232 <= code <= 8233 || code == 8239 || code == 8287 || code == 12288
  }

  /** The white space of Python's strings and regular expressions, by code point. */
  lemma SpacesAre(c: char)
    ensures IsSpace(c) <==> c as int in {
        0x09, 0x0a, 0x0b, 0x0c, 0x0d, 0x1c, 0x1d, 0x1e, 0x1f, 0x20, 0x85, 0xa0, 0x1680,
        0x2000, 0x2001, 0x2002, 0x2003, 0x2004, 0x2005, 0x2006, 0x2007, 0x2008, 0x2009, 0x200a,
        0x2028, 0x2029, 0x202f, 0x205f, 0x3000}
  {
  }

  // ---- UTF-8 ----

  /** The bytes of a code point in UTF-8 (section 3 of RFC 3629). */
  function Utf8(code: int): (bytes: seq<int>)
    requires 0 <= code < 0x11_0000
    ensures forall i :: 0 <= i < |bytes| ==> 0 <= bytes[i] < 256
  {
    if code < 0x80 then [code]
    else if code < 0x800 then [0xc0 + code / 64, 0x80 + code % 64]
    else if code < 0x1_0000 then [0xe0 + code / 4096, 0x80 + code / 64 % 64, 0x80 + code % 64]
    else [0xf0 + code / 262144, 0x80 + code / 4096 % 64, 0x80 + code / 64 % 64, 0x80 + code % 64]
  }

  /** `s.encode("utf-8")` */
  function Encoded(s: string): (bytes: seq<int>)
    ensures forall i :: 0 <= i < |bytes| ==> 0 <= bytes[i] < 256
  {
    if s == "" then [] else Utf8(s[0] as int) + Encoded(s[1..])
  }

  /** How many bytes follow from the first one. */
  function Size(lead: int): nat {
    if lead < 0x80 then 1 else if lead < 0xe0 then 2 else if lead < 0xf0 then 3 else 4
  }

  /** The number that the first bytes stand for. */
  function Number(bytes: seq<int>): int
    requires bytes != [] && Size(bytes[0]) <= |bytes|
  {
    match Size(bytes[0])
    case 1 => bytes[0]
    case 2 => (bytes[0] - 0xc0) * 0x40 + (bytes[1] - 0x80)
    case 3 => (bytes[0] - 0xe0) * 0x1000 + (bytes[1] - 0x80) * 0x40 + (bytes[2] - 0x80)
    case _ =>
      (bytes[0] - 0xf0) * 0x4_0000 + (bytes[1] - 0x80) * 0x1000 + (bytes[2] - 0x80) * 0x40 + (bytes[3] - 0x80)
  }

  /** The digits of a code point in the base of the continuation bytes. */
  lemma Digits64(code: int)
    requires 0 <= code < 0x11_0000
    ensures code == code / 64 * 64 + code % 64
    ensures code == code / 4096 * 4096 + code / 64 % 64 * 64 + code % 64
    ensures code == code / 262144 * 262144 + code / 4096 % 64 * 4096 + code / 64 % 64 * 64 + code % 64
  {
    assert code / 64 / 64 == code / 4096 && code / 4096 / 64 == code / 262144;
  }

  /** The bytes say how many they are, and none of them begins another character; it takes no more than it has to. */
  lemma Utf8IsSized(code: int)
    requires 0 <= code < 0x11_0000
    ensures var bytes := Utf8(code);
      && bytes != [] && Size(bytes[0]) == |bytes| && bytes[0] !in {0xc0, 0xc1}
      && (forall i :: 1 <= i < |bytes| ==> 0x80 <= bytes[i] < 0xc0)
      && (|bytes| == 1 <==> code < 0x80) && (|bytes| <= 2 <==> code < 0x800) && (|bytes| <= 3 <==> code < 0x1_0000)
      && |bytes| <= 4
  {
  }

  /** They stand for the code point, whatever follows them. */
  lemma Utf8IsRead(code: int, rest: seq<int>)
    requires 0 <= code < 0x11_0000
    ensures var bytes := Utf8(code) + rest;
      bytes != [] && Size(bytes[0]) == |Utf8(code)| && Number(bytes) == code
  {
    Utf8IsSized(code);
    Digits64(code);
  }

  lemma {:induction false} EncodedIsInjective(s: string, t: string)
    requires Encoded(s) == Encoded(t)
    ensures s == t
  {
    if s != "" && t != "" {
      var a, b := Encoded(s[1..]), Encoded(t[1..]);
      Utf8IsRead(s[0] as int, a);
      Utf8IsRead(t[0] as int, b);
      assert a == Encoded(s)[|Utf8(s[0] as int)|..] && b == Encoded(t)[|Utf8(t[0] as int)|..];
      EncodedIsInjective(s[1..], t[1..]);
      assert s == [s[0]] + s[1..] && t == [t[0]] + t[1..];
    }
  }

  /** The order of Python strings: by code point. */
  predicate Less(a: string, b: string) {
    b != [] && (a == [] || a[0] < b[0] || (a[0] == b[0] && Less(a[1..], b[1..])))
  }

  lemma {:induction false} LessIsTransitive(a: string, b: string, c: string)
    requires Less(a, b) && Less(b, c)
    ensures Less(a, c)
  {
    if a != [] && a[0] == b[0] && b[0] == c[0] {
      LessIsTransitive(a[1..], b[1..], c[1..]);
    }
  }

  lemma {:induction false} LessIsStrict(a: string)
    ensures !Less(a, a)
  {
    if a != [] {
      LessIsStrict(a[1..]);
    }
  }

  lemma {:induction false} LessIsTotal(a: string, b: string)
    requires a != b
    ensures Less(a, b) || Less(b, a)
  {
    if a != [] && b != [] && a[0] == b[0] {
      assert a == [a[0]] + a[1..] && b == [b[0]] + b[1..];
      LessIsTotal(a[1..], b[1..]);
    }
  }

  predicate Ascending(s: seq<string>) {
    forall i, j :: 0 <= i < j < |s| ==> Less(s[i], s[j])
  }

  lemma HeadIsLeast(s: seq<string>, x: string)
    requires Ascending(s) && s != [] && x in s
    ensures x == s[0] || Less(s[0], x)
  {
  }

  lemma TailWithout(s: seq<string>, x: string)
    requires Ascending(s) && s != []
    ensures x in s[1..] <==> x in s && x != s[0]
  {
    LessIsStrict(s[0]);
    if x in s && x != s[0] {
      var i :| 0 <= i < |s| && s[i] == x;
      assert s[1..][i - 1] == x;
    }
  }

  lemma HasElement(s: seq<string>)
    requires s != []
    ensures exists x :: x in s
  {
    assert s[0] in s;
  }

  /** A set of paths has one sorted order. */
  lemma {:induction false} OneSortedOrder(a: seq<string>, b: seq<string>)
    requires Ascending(a) && Ascending(b)
    requires forall x :: x in a <==> x in b
    ensures a == b
  {
    if a == [] {
      if b != [] { HasElement(b); }
    } else {
      assert a[0] in a;
      assert a[0] in b && b[0] in a;
      HeadIsLeast(a, b[0]);
      HeadIsLeast(b, a[0]);
      if a[0] != b[0] {
        LessIsTransitive(a[0], b[0], a[0]);
        LessIsStrict(a[0]);
      }
      forall x ensures x in a[1..] <==> x in b[1..] {
        TailWithout(a, x);
        TailWithout(b, x);
      }
      OneSortedOrder(a[1..], b[1..]);
      assert a == [a[0]] + a[1..] && b == [b[0]] + b[1..];
    }
  }

  lemma SplicedAscending(s: seq<string>, i: nat, t: string)
    requires i <= |s| && Ascending(s)
    requires forall k :: 0 <= k < i ==> Less(s[k], t)
    requires forall k :: i <= k < |s| ==> Less(t, s[k])
    ensures Ascending(s[..i] + [t] + s[i..])
  {
    var r := s[..i] + [t] + s[i..];
    forall j, k | 0 <= j < k < |r| ensures Less(r[j], r[k]) {
      assert r[j] == if j < i then s[j] else if j == i then t else s[j - 1];
      assert r[k] == if k < i then s[k] else if k == i then t else s[k - 1];
    }
  }
}
