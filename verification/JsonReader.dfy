/** The parser as an object with a cursor, and the printer's loop, against the functions of
    `JsonText` and `JsonValues`. */
module JsonReader {
  import opened Records
  import opened JsonText
  import opened JsonValues

  lemma SkipTwice(r: Bytes)
    ensures SkipSpace(SkipSpace(r)) == SkipSpace(r)
  {
  }

  class Json {
    const input: Bytes
    var cursor: nat

    constructor (input: Bytes)
      ensures this.input == input && Valid() && Rest() == input
    {
      this.input, cursor := input, 0;
    }

    ghost predicate Valid()
      reads this
    {
      cursor <= |input|
    }

    /** What is left of the input. */
    ghost function Rest(): Bytes
      reads this
      requires Valid()
    {
      input[cursor..]
    }

    method Space()
      requires Valid()
      modifies this
      ensures Valid() && Rest() == SkipSpace(old(Rest()))
    {
      while cursor < |input| && IsSpace(input[cursor])
        invariant Valid() && SkipSpace(Rest()) == SkipSpace(old(Rest()))
      {
        assert Rest()[1..] == input[cursor + 1..];
        cursor := cursor + 1;
      }
    }

    method TakeChar(c: byte) returns (ok: bool)
      requires Valid()
      modifies this
      ensures Valid() && (ok <==> Take(old(Rest()), c).Parsed?)
      ensures Rest() == if ok then Take(old(Rest()), c).rest else SkipSpace(old(Rest()))
    {
      Space();
      ok := cursor < |input| && input[cursor] == c;
      if ok {
        assert Rest()[1..] == input[cursor + 1..];
        cursor := cursor + 1;
      }
    }

    /** Four digits, one by one; a bad one may leave the cursor anywhere. */
    method ReadHex4() returns (code: int)
      requires Valid()
      modifies this
      ensures Valid() && (code >= 0 <==> Hex4(old(Rest())).Parsed?)
      ensures code >= 0 ==> code == Hex4(old(Rest())).value && Rest() == Hex4(old(Rest())).rest
    {
      ghost var r := Rest();
      var value, i := 0, 0;
      while i < 4
        invariant 0 <= i <= 4 && Valid() && i <= |r| && Rest() == r[i..]
        invariant forall j | 0 <= j < i :: HexValue(r[j]) >= 0
        invariant value == HexPrefix(r, i)
      {
        if cursor == |input| {
          return -1;
        }
        var digit := HexValue(input[cursor]);
        assert r[i] == input[cursor];
        cursor := cursor + 1;
        if digit < 0 {
          return -1;
        }
        value := value * 16 + digit;
        i := i + 1;
      }
      HexPrefixWhole(r);
      code := value;
    }

    /** The bytes of a code point, one after the other. */
    method AppendUtf8(out: Bytes, c: int) returns (r: Bytes)
      requires 0 <= c < 0x110000
      ensures r == out + Utf8(c)
    {
      r := out;
      if c < 0x80 {
        r := r + [c as byte];
      } else if c < 0x800 {
        r := r + [(0xc0 + c / 64) as byte];
        r := r + [(0x80 + c % 64) as byte];
      } else if c < 0x10000 {
        r := r + [(0xe0 + c / 4096) as byte];
        r := r + [(0x80 + c / 64 % 64) as byte];
        r := r + [(0x80 + c % 64) as byte];
      } else {
        r := r + [(0xf0 + c / 262144) as byte];
        r := r + [(0x80 + c / 4096 % 64) as byte];
        r := r + [(0x80 + c / 64 % 64) as byte];
        r := r + [(0x80 + c % 64) as byte];
      }
    }

    /** After `\u`: a code point, or two halves of one. */
    method ReadUnicode() returns (code: int)
      requires Valid()
      modifies this
      ensures Valid() && (code >= 0 <==> UnicodeEscape(old(Rest())).Parsed?)
      ensures code >= 0 ==> code == UnicodeEscape(old(Rest())).value && Rest() == UnicodeEscape(old(Rest())).rest
    {
      code := ReadHex4();
      if code < 0 {
        return -1;
      }
      if 0xd800 <= code <= 0xdbff {
        if cursor + 2 > |input| || input[cursor] != SLASH || input[cursor + 1] != 117 {
          return -1;
        }
        assert Rest()[2..] == input[cursor + 2..];
        cursor := cursor + 2;
        var low := ReadHex4();
        if low < 0xdc00 || low > 0xdfff {
          return -1;
        }
        code := 0x10000 + (code - 0xd800) * 1024 + low - 0xdc00;
      } else if 0xdc00 <= code <= 0xdfff {
        return -1;
      }
    }

    /** After a backslash. */
    method ReadEscape(out: Bytes) returns (ok: bool, r: Bytes)
      requires Valid()
      modifies this
      ensures Valid() && (ok <==> Escape(old(Rest())).Parsed?)
      ensures ok ==> r == out + Escape(old(Rest())).value && Rest() == Escape(old(Rest())).rest
    {
      r := out;
      if cursor == |input| {
        return false, r;
      }
      var c := input[cursor];
      assert Rest()[1..] == input[cursor + 1..];
      cursor := cursor + 1;
      ok := true;
      if c == QUOTE || c == SLASH || c == 47 {
        r := r + [c];
      } else if c == 98 {
        r := r + [8];
      } else if c == 102 {
        r := r + [12];
      } else if c == 110 {
        r := r + [10];
      } else if c == 114 {
        r := r + [13];
      } else if c == 116 {
        r := r + [9];
      } else if c == 117 {
        var code := ReadUnicode();
        if code < 0 {
          return false, r;
        }
        r := AppendUtf8(r, code);
      } else {
        ok := false;
      }
    }

    method ReadString() returns (ok: bool, out: Bytes)
      requires Valid()
      modifies this
      ensures Valid() && (ok <==> String(old(Rest())).Parsed?)
      ensures ok ==> Parsed(out, Rest()) == String(old(Rest()))
    {
      out := [];
      var quoted := TakeChar(QUOTE);
      if !quoted {
        return false, [];
      }
      ghost var body := StringBody(Rest());
      PrependNothing(body);
      while cursor < |input|
        invariant Valid() && Prepend(out, StringBody(Rest())) == body
        decreases |input| - cursor
      {
        ghost var before := Rest();
        var c := input[cursor];
        assert Rest()[1..] == input[cursor + 1..];
        cursor := cursor + 1;
        if c == QUOTE {
          assert out + [] == out;
          return true, out;
        }
        if c < 32 {
          return false, out;
        }
        if c != SLASH {
          PrependTwice(out, [c], StringBody(Rest()));
          out := out + [c];
        } else {
          ghost var escaped := Escape(Rest());
          var fine, longer := ReadEscape(out);
          if !fine {
            return false, out;
          }
          PrependTwice(out, escaped.value, StringBody(Rest()));
          out := longer;
        }
      }
      assert Rest() == [];
      ok := false;
    }

    method SkipDigits()
      requires Valid()
      modifies this
      ensures Valid() && cursor == old(cursor) + DigitRun(old(Rest()))
    {
      ghost var start := cursor;
      while cursor < |input| && IsDigit(input[cursor])
        invariant Valid() && start <= cursor && cursor - start + DigitRun(Rest()) == DigitRun(old(Rest()))
      {
        assert Rest()[1..] == input[cursor + 1..];
        cursor := cursor + 1;
      }
    }

    /** A fraction or an exponent, when the mark for it is there. */
    method SkipMarked(skip: nat) returns (ok: bool)
      requires Valid() && cursor + skip <= |input|
      modifies this
      ensures Valid() && (ok <==> AfterMark(old(Rest()), skip).Some?)
      ensures ok ==> cursor == old(cursor) + AfterMark(old(Rest()), skip).value
    {
      assert Rest()[skip..] == input[cursor + skip..];
      cursor := cursor + skip;
      var begin := cursor;
      SkipDigits();
      ok := cursor != begin;
    }

    method ReadInteger() returns (ok: bool)
      requires Valid()
      modifies this
      ensures Valid() && (ok <==> IntegerPart(old(Rest())) > 0)
      ensures ok ==> cursor == old(cursor) + IntegerPart(old(Rest()))
    {
      if cursor == |input| {
        return false;
      }
      if input[cursor] == 48 {
        cursor := cursor + 1;
        return true;
      }
      var begin := cursor;
      SkipDigits();
      ok := cursor != begin;
    }

    method ReadFraction() returns (ok: bool)
      requires Valid()
      modifies this
      ensures Valid() && (ok <==> Fraction(old(Rest())).Some?)
      ensures ok ==> cursor == old(cursor) + Fraction(old(Rest())).value
    {
      ok := true;
      if cursor < |input| && input[cursor] == 46 {
        ok := SkipMarked(1);
      }
    }

    method ReadExponent() returns (ok: bool)
      requires Valid()
      modifies this
      ensures Valid() && (ok <==> Exponent(old(Rest())).Some?)
      ensures ok ==> cursor == old(cursor) + Exponent(old(Rest())).value
    {
      ok := true;
      if cursor < |input| && (input[cursor] == 101 || input[cursor] == 69) {
        var signed := cursor + 1 < |input| && (input[cursor + 1] == 43 || input[cursor + 1] == 45);
        ok := SkipMarked(if signed then 2 else 1);
      }
    }

    method ReadNumber() returns (ok: bool, out: Bytes)
      requires Valid()
      modifies this
      ensures Valid() && (ok <==> Number(old(Rest())).Parsed?)
      ensures ok ==> Parsed(out, Rest()) == Number(old(Rest()))
    {
      Space();
      ghost var s := Rest();
      var start := cursor;
      ok := ReadNumberHere();
      out := if ok then input[start..cursor] else [];
      if ok { CursorSlices(input, start, cursor); }
    }

    method ReadAfterWhole() returns (ok: bool)
      requires Valid()
      modifies this
      ensures Valid() && (ok <==> AfterWhole(old(Rest())).Some?)
      ensures ok ==> cursor == old(cursor) + AfterWhole(old(Rest())).value
    {
      ghost var s, start := Rest(), cursor;
      ok := ReadFraction();
      if ok {
        assert Rest() == s[cursor - start..];
        ok := ReadExponent();
      }
    }

    method ReadUnsigned() returns (ok: bool)
      requires Valid()
      modifies this
      ensures Valid() && (ok <==> Unsigned(old(Rest())).Some?)
      ensures ok ==> cursor == old(cursor) + Unsigned(old(Rest())).value
    {
      ghost var s, start := Rest(), cursor;
      ok := ReadInteger();
      if ok {
        assert Rest() == s[cursor - start..];
        ok := ReadAfterWhole();
      }
    }

    /** The text of a number starts at the cursor. */
    method ReadNumberHere() returns (ok: bool)
      requires Valid()
      modifies this
      ensures Valid() && (ok <==> NumberLength(old(Rest())).Some?)
      ensures ok ==> cursor == old(cursor) + NumberLength(old(Rest())).value
    {
      if cursor < |input| && input[cursor] == 45 {
        assert Rest()[1..] == input[cursor + 1..];
        cursor := cursor + 1;
      }
      ok := ReadUnsigned();
    }

    // -------------------------------------------------------------- values

    method ReadLiteral() returns (ok: bool)
      requires Valid()
      modifies this
      ensures Valid() && (ok <==> Literal(old(Rest())).Parsed?)
      ensures Rest() == if ok then Literal(old(Rest())).rest else old(Rest())
    {
      var text := input[cursor..];
      ok := true;
      if B("true") <= text {
        cursor := cursor + 4;
      } else if B("false") <= text {
        cursor := cursor + 5;
      } else if B("null") <= text {
        cursor := cursor + 4;
      } else {
        ok := false;
      }
    }

    method ReadValue(depth: nat) returns (ok: bool, out: Scalar)
      requires Valid()
      modifies this
      ensures Valid() && (ok <==> Value(old(Rest()), depth).Parsed?)
      ensures ok ==> Parsed(out, Rest()) == Value(old(Rest()), depth)
      decreases |input| - cursor, 1
    {
      ok, out := false, Other;
      if depth > DEPTH_LIMIT {
        return;
      }
      Space();
      ghost var s := Rest();
      if cursor == |input| {
        return;
      }
      var first := input[cursor];
      SkipTwice(old(Rest()));
      if first == QUOTE {
        var text: Bytes;
        ok, text := ReadString();
        out := StringScalar(text);
        return;
      }
      if first == 123 {
        var brace := TakeChar(123);
        ok := ReadMembers(depth);
        return;
      }
      if first == 91 {
        var bracket := TakeChar(91);
        ok := ReadElements(depth);
        return;
      }
      ok := ReadLiteral();
      if !ok {
        var text: Bytes;
        ok, text := ReadNumber();
        out := NumberScalar(text);
      }
    }

    method ReadMember(depth: nat) returns (ok: bool, key: Bytes, out: Scalar)
      requires Valid()
      modifies this
      ensures Valid() && (ok <==> Member(old(Rest()), depth).Parsed?)
      ensures ok ==> Parsed((key, out), Rest()) == Member(old(Rest()), depth)
      decreases |input| - cursor, 2
    {
      out := Other;
      ok, key := ReadString();
      if !ok {
        return;
      }
      ok := TakeChar(58);
      if !ok {
        return;
      }
      ok, out := ReadValue(depth);
    }

    /** A nested object after its brace: nothing, or members separated by commas. */
    method ReadMembers(depth: nat) returns (ok: bool)
      requires Valid()
      modifies this
      ensures Valid() && (ok <==> Nested(old(Rest()), depth).Parsed?)
      ensures ok ==> Parsed(Other, Rest()) == Nested(old(Rest()), depth)
      decreases |input| - cursor, 4
    {
      ghost var r := Rest();
      var empty := TakeChar(125);
      if empty {
        return true;
      }
      NestedFrom(r, depth);
      ghost var start := Rest();
      var more := true;
      while more
        invariant Valid() && |Rest()| <= |start|
        invariant more ==> Members(start, depth) == Members(Rest(), depth)
        invariant !more ==> exists left :: Members(start, depth) == Parsed((), left) && Rest() == SkipSpace(left)
        decreases |Rest()| + if more then 1 else 0
      {
        var fine, _, _ := ReadMember(depth + 1);
        if !fine {
          return false;
        }
        ghost var left := Rest();
        more := TakeChar(44);
      }
      ghost var left :| Members(start, depth) == Parsed((), left) && Rest() == SkipSpace(left);
      SkipTwice(left);
      ok := TakeChar(125);
    }

    /** The members of the document; a key may come only once. */
    method ReadFields() returns (ok: bool, found: map<Bytes, Scalar>)
      requires Valid()
      modifies this
      ensures Valid() && (ok <==> Fields(old(Rest()), map[]).Parsed?)
      ensures ok ==> found == Fields(old(Rest()), map[]).value
      ensures ok ==> forall c :: Take(Rest(), c) == Take(Fields(old(Rest()), map[]).rest, c)
    {
      ghost var start := Rest();
      ok, found := false, map[];
      var more := true;
      while more
        invariant Valid()
        invariant more ==> Fields(start, map[]) == Fields(Rest(), found)
        invariant !more ==> exists left :: Fields(start, map[]) == Parsed(found, left) && Rest() == SkipSpace(left)
        decreases |Rest()| + if more then 1 else 0
      {
        var fine, key, scalar := ReadMember(0);
        if !fine || key in found {
          return;
        }
        found := found[key := scalar];
        ghost var left := Rest();
        more := TakeChar(44);
      }
      ghost var left :| Fields(start, map[]) == Parsed(found, left) && Rest() == SkipSpace(left);
      SkipTwice(left);
      ok := true;
    }

    method ReadElements(depth: nat) returns (ok: bool)
      requires Valid()
      modifies this
      ensures Valid() && (ok <==> Array(old(Rest()), depth).Parsed?)
      ensures ok ==> Parsed(Other, Rest()) == Array(old(Rest()), depth)
      decreases |input| - cursor, 4
    {
      ghost var r := Rest();
      var empty := TakeChar(93);
      if empty {
        return true;
      }
      ArrayFrom(r, depth);
      ghost var start := Rest();
      var more := true;
      while more
        invariant Valid() && |Rest()| <= |start|
        invariant more ==> Elements(start, depth) == Elements(Rest(), depth)
        invariant !more ==> exists left :: Elements(start, depth) == Parsed((), left) && Rest() == SkipSpace(left)
        decreases |Rest()| + if more then 1 else 0
      {
        var fine, _ := ReadValue(depth + 1);
        if !fine {
          return false;
        }
        ghost var left := Rest();
        more := TakeChar(44);
      }
      ghost var left :| Elements(start, depth) == Parsed((), left) && Rest() == SkipSpace(left);
      SkipTwice(left);
      ok := TakeChar(93);
    }

    method ReadEnding(found: map<Bytes, Scalar>) returns (result: Option<map<Bytes, Scalar>>)
      requires Valid()
      modifies this
      ensures result == Ending(old(Rest()), found)
    {
      Space();
      result := if cursor == |input| then Some(found) else None;
    }

    /** The document's object after its brace. */
    method ReadInside() returns (result: Option<map<Bytes, Scalar>>)
      requires Valid()
      modifies this
      ensures result == Inside(old(Rest()))
    {
      FieldsFrom(Rest(), map[]);
      var ok := TakeChar(125);
      if ok {
        result := ReadEnding(map[]);
        return;
      }
      var found: map<Bytes, Scalar>;
      ok, found := ReadFields();
      if !ok {
        return None;
      }
      ok := TakeChar(125);
      if !ok {
        return None;
      }
      result := ReadEnding(found);
    }
  }

  /** The document: an object whose keys come once, and nothing after it. */
  method ReadObject(input: Bytes) returns (result: Option<map<Bytes, Scalar>>)
    ensures result == Object(input)
  {
    if !ValidUtf8(input) {
      return None;
    }
    var json := new Json(input);
    var ok := json.TakeChar(123);
    if !ok {
      return None;
    }
    result := json.ReadInside();
  }

  lemma CursorSlices(input: Bytes, start: nat, cursor: nat)
    requires start <= cursor <= |input|
    ensures input[start..][..cursor - start] == input[start..cursor]
    ensures input[start..][cursor - start..] == input[cursor..]
  {
  }

  lemma FieldsFrom(r: Bytes, found: map<Bytes, Scalar>)
    ensures Fields(SkipSpace(r), found) == Fields(r, found)
  {
    SkipTwice(r);
    assert Take(SkipSpace(r), QUOTE) == Take(r, QUOTE);
    assert Member(SkipSpace(r), 0) == Member(r, 0);
  }

  // ---------------------------------------------------------------- printing

  method PrintEscaped(c: byte) returns (out: Bytes)
    ensures out == Escaped(c)
  {
    if c == QUOTE {
      out := [SLASH, QUOTE];
    } else if c == SLASH {
      out := [SLASH, SLASH];
    } else if c == 10 {
      out := [SLASH, 110];
    } else if c == 13 {
      out := [SLASH, 114];
    } else if c == 9 {
      out := [SLASH, 116];
    } else if c < 32 {
      out := [SLASH, 117, 48, 48, HexDigit(c as int / 16), HexDigit(c as int % 16)];
    } else {
      out := [c];
    }
  }

  method PrintQuoted(value: Bytes) returns (out: Bytes)
    ensures out == Quote(value)
  {
    out := [QUOTE];
    var i := 0;
    assert value[..0] == [];
    while i < |value|
      invariant 0 <= i <= |value| && out == [QUOTE] + EscapedAll(value[..i])
    {
      assert value[..i + 1] == value[..i] + [value[i]];
      EscapedSplit(value[..i], [value[i]]);
      assert EscapedAll([value[i]]) == Escaped(value[i]) by { assert [value[i]][1..] == []; }
      var escaped := PrintEscaped(value[i]);
      out := out + escaped;
      i := i + 1;
    }
    assert value[..|value|] == value;
    out := out + [QUOTE];
  }

  /** Texts one after the other, a comma before each but the first. */
  method PrintList(texts: seq<Bytes>) returns (out: Bytes)
    ensures out == Commas(texts)
  {
    out := [];
    var comma, i := false, 0;
    assert texts[..0] == [];
    while i < |texts|
      invariant 0 <= i <= |texts| && out == Commas(texts[..i]) && comma == (i > 0)
    {
      CommasLast(texts[..i + 1]);
      assert texts[..i + 1][..i] == texts[..i];
      if comma {
        out := out + [44];
      }
      comma := true;
      out := out + texts[i];
      i := i + 1;
    }
    assert texts[..|texts|] == texts;
  }

  lemma {:induction false} CommasLast(texts: seq<Bytes>)
    requires texts != []
    ensures var n := |texts| - 1;
            Commas(texts) == if n == 0 then texts[0] else Commas(texts[..n]) + [44] + texts[n]
  {
    var n := |texts| - 1;
    if n > 1 {
      CommasLast(texts[1..]);
      assert texts[1..][..n - 1] == texts[..n][1..];
      assert Commas(texts[..n]) == texts[0] + [44] + Commas(texts[..n][1..]);
    } else if n == 1 {
      assert texts[1..] == [texts[1]] && texts[..1] == [texts[0]];
    }
  }

  /** Leading space makes no difference to what follows a bracket. */
  lemma NestedFrom(r: Bytes, depth: nat)
    requires Take(r, 125).Failed?
    ensures Nested(r, depth) == Closed(Members(SkipSpace(r), depth), 125)
  {
    SkipTwice(r);
    assert Take(SkipSpace(r), QUOTE) == Take(r, QUOTE);
    assert Member(SkipSpace(r), depth + 1) == Member(r, depth + 1);
  }

  lemma ArrayFrom(r: Bytes, depth: nat)
    requires Take(r, 93).Failed?
    ensures Array(r, depth) == Closed(Elements(SkipSpace(r), depth), 93)
  {
    SkipTwice(r);
    assert Value(SkipSpace(r), depth + 1) == Value(r, depth + 1);
  }

  lemma PrependNothing(s: Parsed<Bytes>)
    ensures Prepend([], s) == s
  {
    if s.Parsed? { assert [] + s.value == s.value; }
  }

  lemma HexPrefixWhole(r: Bytes)
    requires |r| >= 4
    ensures HexPrefix(r, 4) == ((HexValue(r[0]) * 16 + HexValue(r[1])) * 16 + HexValue(r[2])) * 16 + HexValue(r[3])
  {
    assert HexPrefix(r, 1) == HexValue(r[0]);
    assert HexPrefix(r, 2) == HexValue(r[0]) * 16 + HexValue(r[1]);
    assert HexPrefix(r, 3) == (HexValue(r[0]) * 16 + HexValue(r[1])) * 16 + HexValue(r[2]);
  }

  function HexPrefix(r: Bytes, n: nat): int
    requires n <= |r| && n <= 4
  {
    if n == 0 then 0 else HexPrefix(r, n - 1) * 16 + HexValue(r[n - 1])
  }

  lemma PrependTwice(a: Bytes, b: Bytes, s: Parsed<Bytes>)
    ensures Prepend(a, Prepend(b, s)) == Prepend(a + b, s)
  {
    if s.Parsed? { assert a + (b + s.value) == a + b + s.value; }
  }
}
