/** The monitor's JSON: how a string is quoted and how one is parsed (RFC 8259, sections 6
    and 7; UTF-8 as in RFC 3629, section 3).  Parsers work on the rest of the input and
    answer with what follows. */
module JsonText {
  import opened Records

  /** The bytes of a name written in ASCII. */
  function B(s: string): (r: Bytes)
    ensures |r| == |s| && forall i | 0 <= i < |s| && s[i] < '\U{80}' :: r[i] as int == s[i] as int
  {
    seq(|s|, i requires 0 <= i < |s| => if s[i] < '\U{80}' then s[i] as int as byte else 63)
  }

  const QUOTE: byte := 34
  const SLASH: byte := 92

  datatype Parsed<T> = Failed | Parsed(value: T, rest: Bytes)

  // ---------------------------------------------------------------- quoting

  function HexDigit(n: int): byte
    requires 0 <= n < 16
  {
    if n < 10 then (48 + n) as byte else (87 + n) as byte
  }

  function Escaped(c: byte): Bytes {
    if c == QUOTE then [SLASH, QUOTE]
    else if c == SLASH then [SLASH, SLASH]
    else if c == 10 then [SLASH, 110]
    else if c == 13 then [SLASH, 114]
    else if c == 9 then [SLASH, 116]
    else if c < 32 then [SLASH, 117, 48, 48, HexDigit(c as int / 16), HexDigit(c as int % 16)]
    else [c]
  }

  function EscapedAll(s: Bytes): Bytes {
    if s == [] then [] else Escaped(s[0]) + EscapedAll(s[1..])
  }

  function Quote(s: Bytes): Bytes {
    [QUOTE] + EscapedAll(s) + [QUOTE]
  }

  // ---------------------------------------------------------------- characters

  predicate IsSpace(c: byte) {
    c == 32 || c == 13 || c == 10 || c == 9
  }

  function SkipSpace(r: Bytes): (rest: Bytes)
    ensures |rest| <= |r|
  {
    if r != [] && IsSpace(r[0]) then SkipSpace(r[1..]) else r
  }

  function Take(r: Bytes, c: byte): (t: Parsed<()>)
    ensures t.Parsed? ==> |t.rest| < |r|
  {
    var s := SkipSpace(r);
    if s != [] && s[0] == c then Parsed((), s[1..]) else Failed
  }

  function HexValue(c: byte): int {
    if 48 <= c <= 57 then c as int - 48
    else if 97 <= c <= 102 then c as int - 87
    else if 65 <= c <= 70 then c as int - 55
    else -1
  }

  /** Four hexadecimal digits. */
  function Hex4(r: Bytes): (h: Parsed<int>)
    ensures h.Parsed? ==> 0 <= h.value < 0x10000 && |h.rest| + 4 == |r| && h.rest == r[4..]
  {
    if |r| < 4 || HexValue(r[0]) < 0 || HexValue(r[1]) < 0 || HexValue(r[2]) < 0 || HexValue(r[3]) < 0 then Failed
    else Parsed(((HexValue(r[0]) * 16 + HexValue(r[1])) * 16 + HexValue(r[2])) * 16 + HexValue(r[3]), r[4..])
  }

  /** The UTF-8 bytes of a code point. */
  function Utf8(c: int): Bytes
    requires 0 <= c < 0x110000
  {
    if c < 0x80 then [c as byte]
    else if c < 0x800 then [(0xc0 + c / 64) as byte, (0x80 + c % 64) as byte]
    else if c < 0x10000 then [(0xe0 + c / 4096) as byte, (0x80 + c / 64 % 64) as byte, (0x80 + c % 64) as byte]
    else [(0xf0 + c / 262144) as byte, (0x80 + c / 4096 % 64) as byte, (0x80 + c / 64 % 64) as byte,
          (0x80 + c % 64) as byte]
  }

  // ---------------------------------------------------------------- strings

  /** What follows a backslash and an `u`: a code point, a surrogate pair counting as one. */
  function UnicodeEscape(r: Bytes): (p: Parsed<int>)
    ensures p.Parsed? ==> 0 <= p.value < 0x110000 && !(0xd800 <= p.value <= 0xdfff) && |p.rest| < |r|
  {
    var high := Hex4(r);
    if high.Failed? then Failed
    else if 0xd800 <= high.value <= 0xdbff then
      if |high.rest| < 2 || high.rest[0] != SLASH || high.rest[1] != 117 then Failed
      else
        var low := Hex4(high.rest[2..]);
        if low.Failed? || low.value < 0xdc00 || low.value > 0xdfff then Failed
        else Parsed(0x10000 + (high.value - 0xd800) * 1024 + low.value - 0xdc00, low.rest)
    else if 0xdc00 <= high.value <= 0xdfff then Failed
    else high
  }

  /** What follows a backslash. */
  function Escape(r: Bytes): (p: Parsed<Bytes>)
    ensures p.Parsed? ==> |p.rest| < |r|
  {
    if r == [] then Failed
    else
      var c := r[0];
      if c == QUOTE || c == SLASH || c == 47 then Parsed([c], r[1..])
      else if c == 98 then Parsed([8], r[1..])
      else if c == 102 then Parsed([12], r[1..])
      else if c == 110 then Parsed([10], r[1..])
      else if c == 114 then Parsed([13], r[1..])
      else if c == 116 then Parsed([9], r[1..])
      else if c == 117 then
        var u := UnicodeEscape(r[1..]);
        if u.Failed? then Failed else Parsed(Utf8(u.value), u.rest)
      else Failed
  }

  function Prepend(p: Bytes, s: Parsed<Bytes>): Parsed<Bytes> {
    if s.Failed? then Failed else Parsed(p + s.value, s.rest)
  }

  /** A string after its opening quote. */
  function StringBody(r: Bytes): (p: Parsed<Bytes>)
    ensures p.Parsed? ==> |p.rest| < |r|
    decreases |r|
  {
    if r == [] then Failed
    else if r[0] == QUOTE then Parsed([], r[1..])
    else if r[0] < 32 then Failed
    else if r[0] != SLASH then Prepend([r[0]], StringBody(r[1..]))
    else
      var e := Escape(r[1..]);
      if e.Failed? then Failed else Prepend(e.value, StringBody(e.rest))
  }

  function String(r: Bytes): (p: Parsed<Bytes>)
    ensures p.Parsed? ==> |p.rest| < |r|
  {
    var q := Take(r, QUOTE);
    if q.Failed? then Failed else StringBody(q.rest)
  }

  /** One escaped byte parses back to itself, whatever follows. */
  lemma EscapedParses(c: byte, rest: Bytes)
    ensures StringBody(Escaped(c) + rest) == Prepend([c], StringBody(rest))
  {
    var r := Escaped(c) + rest;
    if Escaped(c) == [c] {
      assert r[1..] == rest;
    } else if |Escaped(c)| == 2 {
      assert r[1..][1..] == rest;
      assert Escape(r[1..]) == Parsed([c], rest);
    } else {
      var h := r[1..][1..];
      assert h[4..] == rest && |h| == 4 + |rest|;
      HexPair(c as int);
      assert Hex4(h) == Parsed(c as int, rest);
      assert UnicodeEscape(h) == Parsed(c as int, rest);
      assert Escape(r[1..]) == Parsed([c], rest);
    }
  }

  lemma HexPair(n: int)
    requires 0 <= n < 32
    ensures HexValue(HexDigit(n / 16)) == n / 16 && HexValue(HexDigit(n % 16)) == n % 16 && n / 16 * 16 + n % 16 == n
  {
  }

  lemma {:induction false} EscapedAllParses(s: Bytes, rest: Bytes)
    ensures StringBody(EscapedAll(s) + [QUOTE] + rest) == Parsed(s, rest)
    decreases |s|
  {
    if s == [] {
      assert EscapedAll(s) + [QUOTE] + rest == [QUOTE] + rest;
      assert ([QUOTE] + rest)[1..] == rest;
    } else {
      EscapedAllParses(s[1..], rest);
      var tail := EscapedAll(s[1..]) + [QUOTE] + rest;
      assert EscapedAll(s) + [QUOTE] + rest == Escaped(s[0]) + tail;
      EscapedParses(s[0], tail);
      assert [s[0]] + s[1..] == s;
    }
  }

  /** Parsing undoes quoting, for every sequence of bytes, and stops right after it. */
  lemma StringInvertsQuote(s: Bytes, rest: Bytes)
    ensures String(Quote(s) + rest) == Parsed(s, rest)
  {
    var r := Quote(s) + rest;
    assert r[0] == QUOTE && SkipSpace(r) == r;
    assert r[1..] == EscapedAll(s) + [QUOTE] + rest;
    EscapedAllParses(s, rest);
  }

  // ---------------------------------------------------------------- UTF-8

  predicate Tail(s: Bytes, n: nat) {
    |s| > n && forall i | 1 <= i <= n :: 0x80 <= s[i] <= 0xbf
  }

  /** The length of the well-formed character the bytes start with, or 0. */
  function CharLength(s: Bytes): (n: nat)
    ensures n <= |s| && n <= 4
  {
    if s == [] then 0
    else if s[0] < 0x80 then 1
    else if 0xc2 <= s[0] <= 0xdf then if Tail(s, 1) then 2 else 0
    else if 0xe0 <= s[0] <= 0xef then
      if Tail(s, 2) && (s[0] == 0xe0 ==> s[1] >= 0xa0) && (s[0] == 0xed ==> s[1] <= 0x9f) then 3 else 0
    else if 0xf0 <= s[0] <= 0xf4 then
      if Tail(s, 3) && (s[0] == 0xf0 ==> s[1] >= 0x90) && (s[0] == 0xf4 ==> s[1] <= 0x8f) then 4 else 0
    else 0
  }

  predicate ValidUtf8(s: Bytes)
    decreases |s|
  {
    s == [] || (CharLength(s) > 0 && ValidUtf8(s[CharLength(s)..]))
  }

  lemma CharLengthOfPrefix(s: Bytes, t: Bytes)
    requires CharLength(s) > 0
    ensures CharLength(s + t) == CharLength(s)
  {
  }

  lemma ValidStep(s: Bytes, n: nat)
    requires 0 < n == CharLength(s) && ValidUtf8(s[n..])
    ensures ValidUtf8(s)
  {
  }

  lemma Utf8Front(s: Bytes, t: Bytes, n: nat)
    requires 0 < n == CharLength(s) && ValidUtf8(s[n..] + t)
    ensures ValidUtf8(s + t)
  {
    CharLengthOfPrefix(s, t);
    assert (s + t)[n..] == s[n..] + t;
    ValidStep(s + t, n);
  }

  lemma {:induction false} Utf8Concat(s: Bytes, t: Bytes)
    requires ValidUtf8(s) && ValidUtf8(t)
    ensures ValidUtf8(s + t)
    decreases |s|
  {
    if s == [] {
      assert s + t == t;
    } else {
      Utf8Concat(s[CharLength(s)..], t);
      Utf8Front(s, t, CharLength(s));
    }
  }

  predicate AsciiBytes(s: Bytes) {
    forall i | 0 <= i < |s| :: s[i] < 0x80
  }

  lemma {:induction false} AsciiIsUtf8(s: Bytes)
    requires AsciiBytes(s)
    ensures ValidUtf8(s)
    decreases |s|
  {
    if s != [] { AsciiIsUtf8(s[1..]); }
  }

  /** Bytes from 0x20 on, without quote and backslash, are copied. */
  lemma {:induction false} CopiedAsIs(s: Bytes)
    requires forall i | 0 <= i < |s| :: s[i] >= 32 && s[i] != QUOTE && s[i] != SLASH
    ensures EscapedAll(s) == s
  {
    if s != [] { CopiedAsIs(s[1..]); }
  }

  lemma {:induction false} EscapedSplit(a: Bytes, b: Bytes)
    ensures EscapedAll(a + b) == EscapedAll(a) + EscapedAll(b)
  {
    if a == [] {
      assert a + b == b;
    } else {
      assert (a + b)[1..] == a[1..] + b;
      EscapedSplit(a[1..], b);
    }
  }

  lemma CharEscapes(s: Bytes)
    requires CharLength(s) > 0
    ensures ValidUtf8(EscapedAll(s[..CharLength(s)]))
  {
    var n := CharLength(s);
    var c := s[..n];
    if n == 1 {
      assert c[1..] == [];
      assert EscapedAll(c) == Escaped(c[0]) + [];
      AsciiIsUtf8(EscapedAll(c));
    } else {
      CopiedAsIs(c);
      CharOnItsOwn(s);
    }
  }

  lemma CharOnItsOwn(s: Bytes)
    requires CharLength(s) > 0
    ensures ValidUtf8(s[..CharLength(s)])
  {
    var n := CharLength(s);
    var c := s[..n];
    assert CharLength(c) == n;
    assert c[n..] == [];
  }

  /** Quoting keeps text valid UTF-8. */
  lemma {:induction false} EscapedIsUtf8(s: Bytes)
    requires ValidUtf8(s)
    ensures ValidUtf8(EscapedAll(s))
    decreases |s|
  {
    if s != [] {
      var n := CharLength(s);
      CharEscapes(s);
      EscapedIsUtf8(s[n..]);
      assert s == s[..n] + s[n..];
      EscapedSplit(s[..n], s[n..]);
      Utf8Concat(EscapedAll(s[..n]), EscapedAll(s[n..]));
    }
  }

  lemma QuoteIsUtf8(s: Bytes)
    requires ValidUtf8(s)
    ensures ValidUtf8(Quote(s))
  {
    EscapedIsUtf8(s);
    AsciiIsUtf8([QUOTE]);
    Utf8Concat([QUOTE], EscapedAll(s));
    Utf8Concat([QUOTE] + EscapedAll(s), [QUOTE]);
  }

  /** Every escaped code point is encoded as one well-formed character. */
  lemma Utf8IsOneCharacter(c: int)
    requires 0 <= c < 0x110000 && !(0xd800 <= c <= 0xdfff)
    ensures CharLength(Utf8(c)) == |Utf8(c)| && ValidUtf8(Utf8(c))
  {
    var u := Utf8(c);
    assert u[|u|..] == [];
  }
}
