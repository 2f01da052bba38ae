/** Printing a state and parsing it again gives back every field. */
module JsonRoundTrip {
  import opened Records
  import opened JsonText
  import opened JsonValues

  // ---------------------------------------------------------------- numbers

  predicate AllDigits(d: Bytes) {
    forall i | 0 <= i < |d| :: IsDigit(d[i])
  }

  lemma {:induction false} DigitsAre(n: nat)
    ensures AllDigits(Digits(n)) && (Digits(n)[0] == 48 ==> n == 0 && |Digits(n)| == 1)
  {
    if n >= 10 { DigitsAre(n / 10); }
  }

  lemma {:induction false} DigitRunOf(d: Bytes, rest: Bytes)
    requires AllDigits(d) && (rest == [] || !IsDigit(rest[0]))
    ensures DigitRun(d + rest) == |d|
  {
    if d == [] {
      assert d + rest == rest;
    } else {
      assert (d + rest)[1..] == d[1..] + rest;
      DigitRunOf(d[1..], rest);
    }
  }

  /** A comma or a closing bracket follows every printed value. */
  predicate Stops(rest: Bytes) {
    rest != [] && (rest[0] == 44 || rest[0] == 125 || rest[0] == 93)
  }

  lemma IntegerParses(n: nat, rest: Bytes)
    requires Stops(rest)
    ensures IntegerPart(Digits(n) + rest) == |Digits(n)|
  {
    DigitsAre(n);
    DigitRunOf(Digits(n), rest);
  }

  lemma UnsignedParses(n: nat, rest: Bytes)
    requires Stops(rest)
    ensures Unsigned(Digits(n) + rest) == Some(|Digits(n)|)
  {
    IntegerParses(n, rest);
    assert (Digits(n) + rest)[|Digits(n)|..] == rest;
    assert AfterWhole(rest) == Some(0) by { assert rest[0..] == rest; }
  }

  lemma DecimalParses(n: int, rest: Bytes)
    requires Stops(rest)
    ensures NumberLength(Decimal(n) + rest) == Some(|Decimal(n)|)
  {
    if n < 0 {
      assert (Decimal(n) + rest)[1..] == Digits(-n) + rest;
      UnsignedParses(-n, rest);
    } else {
      DigitsAre(n);
      assert Decimal(n) == Digits(n) && (Digits(n) + rest)[0] == Digits(n)[0];
      UnsignedParses(n, rest);
    }
  }

  // ---------------------------------------------------------------- values

  /** A text the parser reads back as `scalar`, at this depth and any smaller one. */
  ghost predicate ReadsAs(text: Bytes, scalar: Scalar, depth: nat) {
    && text != [] && !IsSpace(text[0])
    && forall rest | Stops(rest) :: Value(text + rest, depth) == Parsed(scalar, rest)
  }

  lemma FirstStays(text: Bytes, rest: Bytes)
    requires text != [] && !IsSpace(text[0])
    ensures SkipSpace(text + rest) == text + rest
  {
  }

  lemma QuotedReads(s: Bytes, depth: nat)
    requires depth <= DEPTH_LIMIT
    ensures ReadsAs(Quote(s), StringScalar(s), depth)
  {
    forall rest | Stops(rest) ensures Value(Quote(s) + rest, depth) == Parsed(StringScalar(s), rest) {
      FirstStays(Quote(s), rest);
      StringInvertsQuote(s, rest);
    }
  }

  lemma NoLiteral(r: Bytes)
    requires r != [] && r[0] != 116 && r[0] != 102 && r[0] != 110
    ensures Literal(r).Failed?
  {
    assert B("true")[0] == 116 && B("false")[0] == 102 && B("null")[0] == 110;
  }

  lemma NumberValue(r: Bytes, depth: nat, text: Bytes, rest: Bytes)
    requires depth <= DEPTH_LIMIT && r != [] && (r[0] == 45 || IsDigit(r[0])) && Number(r) == Parsed(text, rest)
    ensures Value(r, depth) == Parsed(NumberScalar(text), rest)
  {
    NoLiteral(r);
  }

  lemma NumberReads(n: int, rest: Bytes)
    requires Stops(rest)
    ensures Number(Decimal(n) + rest) == Parsed(Decimal(n), rest)
    ensures Decimal(n)[0] == 45 || IsDigit(Decimal(n)[0])
  {
    var r := Decimal(n) + rest;
    DigitsAre(if n < 0 then -n else n);
    FirstStays(Decimal(n), rest);
    DecimalParses(n, rest);
    assert r[..|Decimal(n)|] == Decimal(n) && r[|Decimal(n)|..] == rest;
  }

  lemma DecimalReads(n: int, depth: nat)
    requires depth <= DEPTH_LIMIT
    ensures ReadsAs(Decimal(n), NumberScalar(Decimal(n)), depth)
  {
    NumberReads(n, [44]);
    forall rest | Stops(rest) ensures Value(Decimal(n) + rest, depth) == Parsed(NumberScalar(Decimal(n)), rest) {
      NumberReads(n, rest);
      NumberValue(Decimal(n) + rest, depth, Decimal(n), rest);
    }
  }

  lemma BoolReads(b: bool, depth: nat)
    requires depth <= DEPTH_LIMIT
    ensures ReadsAs(Bool(b), Other, depth)
  {
    var t := Bool(b);
    assert t[0] == if b then 116 else 102;
    forall rest | Stops(rest) ensures Value(t + rest, depth) == Parsed(Other, rest) {
      var r := t + rest;
      FirstStays(t, rest);
      assert t <= r && r[|t|..] == rest;
      assert !b ==> B("true")[0] != r[0];
      assert Literal(r) == Parsed((), rest);
    }
  }

  // ---------------------------------------------------------------- members and elements

  predicate PlainKey(key: Bytes) {
    forall i | 0 <= i < |key| :: key[i] >= 32 && key[i] != QUOTE && key[i] != SLASH && key[i] < 0x80
  }

  ghost predicate FieldReads(f: Field, depth: nat) {
    PlainKey(f.key) && ReadsAs(f.text, f.scalar, depth)
  }

  /** A field starts with its quoted key and a colon. */
  lemma MemberStarts(f: Field, rest: Bytes) returns (after: Bytes)
    requires PlainKey(f.key)
    ensures String(FieldText(f) + rest) == Parsed(f.key, after) && Take(after, 58) == Parsed((), f.text + rest)
  {
    CopiedAsIs(f.key);
    after := [58] + (f.text + rest);
    assert FieldText(f) + rest == Quote(f.key) + after;
    StringInvertsQuote(f.key, after);
    assert SkipSpace(after) == after && after[1..] == f.text + rest;
  }

  lemma MemberUnfold(r: Bytes, depth: nat, key: Bytes, after: Bytes, start: Bytes, scalar: Scalar, rest: Bytes)
    requires String(r) == Parsed(key, after) && Take(after, 58) == Parsed((), start)
    requires Value(start, depth) == Parsed(scalar, rest)
    ensures Member(r, depth) == Parsed((key, scalar), rest)
  {
  }

  lemma ReadsAt(text: Bytes, scalar: Scalar, depth: nat, rest: Bytes)
    requires ReadsAs(text, scalar, depth) && Stops(rest)
    ensures Value(text + rest, depth) == Parsed(scalar, rest)
  {
  }

  lemma MemberReads(f: Field, rest: Bytes, depth: nat)
    requires FieldReads(f, depth) && Stops(rest)
    ensures Member(FieldText(f) + rest, depth) == Parsed((f.key, f.scalar), rest)
  {
    var after := MemberStarts(f, rest);
    ReadsAt(f.text, f.scalar, depth, rest);
    MemberUnfold(FieldText(f) + rest, depth, f.key, after, f.text + rest, f.scalar, rest);
  }

  /** After a closing brace or bracket there is no comma. */
  predicate Closes(rest: Bytes) {
    rest != [] && (rest[0] == 125 || rest[0] == 93)
  }

  lemma CommasFront(texts: seq<Bytes>)
    requires |texts| > 1
    ensures Commas(texts) == texts[0] + ([44] + Commas(texts[1..]))
  {
  }

  lemma CommaTaken(rest: Bytes)
    ensures Take([44] + rest, 44) == Parsed((), rest)
  {
    assert ([44] + rest)[1..] == rest;
  }

  lemma FieldTextsTail(fields: seq<Field>)
    requires fields != []
    ensures FieldTexts(fields)[1..] == FieldTexts(fields[1..]) && FieldTexts(fields)[0] == FieldText(fields[0])
  {
  }

  lemma CommasFields(fields: seq<Field>, rest: Bytes) returns (after: Bytes)
    requires fields != []
    ensures Commas(FieldTexts(fields)) + rest == FieldText(fields[0]) + after
    ensures after == if |fields| == 1 then rest else [44] + (Commas(FieldTexts(fields[1..])) + rest)
  {
    FieldTextsTail(fields);
    if |fields| == 1 {
      after := rest;
    } else {
      CommasFront(FieldTexts(fields));
      after := [44] + (Commas(FieldTexts(fields[1..])) + rest);
      assert Commas(FieldTexts(fields)) + rest == FieldText(fields[0]) + after;
    }
  }

  lemma MembersUnfold(r: Bytes, depth: nat, member: (Bytes, Scalar), after: Bytes)
    requires Member(r, depth + 1) == Parsed(member, after)
    ensures Members(r, depth) == if Take(after, 44).Parsed? then Members(Take(after, 44).rest, depth)
            else Parsed((), after)
  {
  }

  lemma {:induction false} MembersRead(fields: seq<Field>, rest: Bytes, depth: nat)
    requires fields != [] && Closes(rest) && forall i | 0 <= i < |fields| :: FieldReads(fields[i], depth + 1)
    ensures Members(Commas(FieldTexts(fields)) + rest, depth) == Parsed((), rest)
    decreases |fields|
  {
    var after := CommasFields(fields, rest);
    MemberReads(fields[0], after, depth + 1);
    MembersUnfold(Commas(FieldTexts(fields)) + rest, depth, (fields[0].key, fields[0].scalar), after);
    if |fields| > 1 {
      CommaTaken(Commas(FieldTexts(fields[1..])) + rest);
      MembersRead(fields[1..], rest, depth);
    }
  }

  /** A text an array may hold: read as something, and no closing bracket. */
  ghost predicate Reads(text: Bytes, depth: nat) {
    text != [] && text[0] != 93 && exists scalar :: ReadsAs(text, scalar, depth)
  }

  lemma ElementsUnfold(r: Bytes, depth: nat, scalar: Scalar, after: Bytes)
    requires Value(r, depth + 1) == Parsed(scalar, after)
    ensures Elements(r, depth) == if Take(after, 44).Parsed? then Elements(Take(after, 44).rest, depth)
            else Parsed((), after)
  {
  }

  /** The first element is read, and then either a comma and the others or the end. */
  lemma ElementThen(text: Bytes, after: Bytes, depth: nat)
    requires Reads(text, depth + 1) && Stops(after)
    ensures Elements(text + after, depth)
            == if Take(after, 44).Parsed? then Elements(Take(after, 44).rest, depth) else Parsed((), after)
  {
    var scalar :| ReadsAs(text, scalar, depth + 1);
    ReadsAt(text, scalar, depth + 1, after);
    ElementsUnfold(text + after, depth, scalar, after);
  }

  lemma CommasSplit(texts: seq<Bytes>, rest: Bytes) returns (after: Bytes)
    requires texts != []
    ensures Commas(texts) + rest == texts[0] + after
    ensures after == if |texts| == 1 then rest else [44] + (Commas(texts[1..]) + rest)
  {
    if |texts| == 1 {
      after := rest;
    } else {
      CommasFront(texts);
      after := [44] + (Commas(texts[1..]) + rest);
      assert Commas(texts) + rest == texts[0] + after;
    }
  }

  lemma {:induction false} ElementsRead(texts: seq<Bytes>, rest: Bytes, depth: nat)
    requires texts != [] && Closes(rest) && forall i | 0 <= i < |texts| :: Reads(texts[i], depth + 1)
    ensures Elements(Commas(texts) + rest, depth) == Parsed((), rest)
    decreases |texts|
  {
    var after := CommasSplit(texts, rest);
    ElementThen(texts[0], after, depth);
    if |texts| > 1 {
      CommaTaken(Commas(texts[1..]) + rest);
      ElementsRead(texts[1..], rest, depth);
    }
  }

  /** What the document's fields add to the keys found so far. */
  function Found(found: map<Bytes, Scalar>, fields: seq<Field>): map<Bytes, Scalar>
    decreases |fields|
  {
    if fields == [] then found else Found(found[fields[0].key := fields[0].scalar], fields[1..])
  }

  predicate NewKeys(found: map<Bytes, Scalar>, fields: seq<Field>)
    decreases |fields|
  {
    fields == [] || (fields[0].key !in found && NewKeys(found[fields[0].key := fields[0].scalar], fields[1..]))
  }

  lemma {:induction false} FieldsRead(fields: seq<Field>, rest: Bytes, found: map<Bytes, Scalar>)
    requires fields != [] && Closes(rest) && NewKeys(found, fields)
             && forall i | 0 <= i < |fields| :: FieldReads(fields[i], 0)
    ensures Fields(Commas(FieldTexts(fields)) + rest, found) == Parsed(Found(found, fields), rest)
    decreases |fields|
  {
    var after := CommasFields(fields, rest);
    MemberReads(fields[0], after, 0);
    if |fields| > 1 {
      CommaTaken(Commas(FieldTexts(fields[1..])) + rest);
      FieldsRead(fields[1..], rest, found[fields[0].key := fields[0].scalar]);
    }
  }

  lemma StartsWithQuote(fields: seq<Field>, rest: Bytes)
    requires fields != []
    ensures var r := Commas(FieldTexts(fields)) + rest; r != [] && r[0] == QUOTE && Take(r, 125).Failed?
  {
    var after := CommasFields(fields, rest);
  }

  lemma ClosedBy(after: Bytes, c: byte, rest: Bytes)
    requires after == [c] + rest && !IsSpace(c)
    ensures Closed(Parsed((), after), c) == Parsed(Other, rest)
  {
    assert after[1..] == rest;
  }

  lemma BraceValue(r: Bytes, depth: nat, rest: Bytes)
    requires r != [] && r[0] == 123 && depth <= DEPTH_LIMIT && Nested(r[1..], depth) == Parsed(Other, rest)
    ensures Value(r, depth) == Parsed(Other, rest)
  {
  }

  lemma BracedStarts(fields: seq<Field>, rest: Bytes)
    ensures var r := Braced(fields) + rest;
            r != [] && r[0] == 123 && r[1..] == Commas(FieldTexts(fields)) + ([125] + rest)
  {
  }

  lemma BracedReadsAt(fields: seq<Field>, depth: nat, rest: Bytes)
    requires fields != [] && depth <= DEPTH_LIMIT && Stops(rest)
             && forall i | 0 <= i < |fields| :: FieldReads(fields[i], depth + 1)
    ensures Value(Braced(fields) + rest, depth) == Parsed(Other, rest)
  {
    var end := [125] + rest;
    var r := Braced(fields) + rest;
    BracedStarts(fields, rest);
    StartsWithQuote(fields, end);
    MembersRead(fields, end, depth);
    ClosedBy(end, 125, rest);
    BraceValue(r, depth, rest);
  }

  lemma BracedReads(fields: seq<Field>, depth: nat)
    requires fields != [] && depth <= DEPTH_LIMIT && forall i | 0 <= i < |fields| :: FieldReads(fields[i], depth + 1)
    ensures ReadsAs(Braced(fields), Other, depth)
  {
    forall rest | Stops(rest) ensures Value(Braced(fields) + rest, depth) == Parsed(Other, rest) {
      BracedReadsAt(fields, depth, rest);
    }
  }

  /** A text an array element may start with: no closing bracket. */
  lemma ElementStarts(texts: seq<Bytes>, rest: Bytes, depth: nat)
    requires texts != [] && Reads(texts[0], depth)
    ensures Take(Commas(texts) + rest, 93).Failed?
  {
    var r := Commas(texts) + rest;
    if |texts| > 1 { CommasFront(texts); }
    assert r[0] == texts[0][0];
  }

  lemma BracketValue(r: Bytes, depth: nat, rest: Bytes)
    requires r != [] && r[0] == 91 && depth <= DEPTH_LIMIT && Array(r[1..], depth) == Parsed(Other, rest)
    ensures Value(r, depth) == Parsed(Other, rest)
  {
  }

  lemma ArrayReads(texts: seq<Bytes>, depth: nat, rest: Bytes)
    requires forall i | 0 <= i < |texts| :: Reads(texts[i], depth + 1)
    ensures Array(Commas(texts) + ([93] + rest), depth) == Parsed(Other, rest)
  {
    var end := [93] + rest;
    if texts == [] {
      assert Commas(texts) + end == end && end[1..] == rest;
    } else {
      ElementStarts(texts, end, depth + 1);
      ElementsRead(texts, end, depth);
      ClosedBy(end, 93, rest);
    }
  }

  lemma BracketedReadsAt(texts: seq<Bytes>, depth: nat, rest: Bytes)
    requires depth <= DEPTH_LIMIT && forall i | 0 <= i < |texts| :: Reads(texts[i], depth + 1)
    ensures Value(Bracketed(texts) + rest, depth) == Parsed(Other, rest)
  {
    var r := Bracketed(texts) + rest;
    assert r[1..] == Commas(texts) + ([93] + rest);
    ArrayReads(texts, depth, rest);
    BracketValue(r, depth, rest);
  }

  lemma BracketedReads(texts: seq<Bytes>, depth: nat)
    requires depth <= DEPTH_LIMIT && forall i | 0 <= i < |texts| :: Reads(texts[i], depth + 1)
    ensures ReadsAs(Bracketed(texts), Other, depth)
  {
    forall rest | Stops(rest) ensures Value(Bracketed(texts) + rest, depth) == Parsed(Other, rest) {
      BracketedReadsAt(texts, depth, rest);
    }
  }

  // ---------------------------------------------------------------- the state

  predicate Plain(key: string) {
    forall i | 0 <= i < |key| :: ' ' <= key[i] < '\U{80}' && key[i] != '"' && key[i] != '\\'
  }

  lemma PlainLiteral(key: string)
    requires Plain(key)
    ensures PlainKey(B(key))
  {
    forall i | 0 <= i < |key|
      ensures B(key)[i] >= 32 && B(key)[i] != QUOTE && B(key)[i] != SLASH && B(key)[i] < 0x80
    {
    }
  }

  lemma IdentityKeys()
    ensures PlainKey(B("schemaVersion")) && PlainKey(B("instanceId")) && PlainKey(B("containerId"))
    ensures PlainKey(B("rootPath"))
  {
    PlainLiteral("schemaVersion");
    PlainLiteral("instanceId");
    PlainLiteral("containerId");
    PlainLiteral("rootPath");
  }

  lemma StatusKeys()
    ensures PlainKey(B("revision")) && PlainKey(B("observedAtMs")) && PlainKey(B("available"))
    ensures PlainKey(B("complete"))
    ensures PlainKey(B("daemonRunning")) && PlainKey(B("error")) && PlainKey(B("sections"))
    ensures PlainKey(B("changedSections"))
  {
    PlainLiteral("revision");
    PlainLiteral("observedAtMs");
    PlainLiteral("available");
    PlainLiteral("complete");
    PlainLiteral("daemonRunning");
    PlainLiteral("error");
    PlainLiteral("sections");
    PlainLiteral("changedSections");
  }

  lemma SectionKeys()
    ensures PlainKey(B("key")) && PlainKey(B("files")) && PlainKey(B("directories")) && PlainKey(B("bytes"))
    ensures PlainKey(B("fingerprint")) && PlainKey(B("lastModified"))
  {
    PlainLiteral("key");
    PlainLiteral("files");
    PlainLiteral("directories");
    PlainLiteral("bytes");
    PlainLiteral("fingerprint");
    PlainLiteral("lastModified");
  }

  lemma StringFieldReads(key: string, value: Bytes, depth: nat)
    requires depth <= DEPTH_LIMIT && PlainKey(B(key))
    ensures FieldReads(StringField(key, value), depth)
  {
    QuotedReads(value, depth);
  }

  lemma NumberFieldReads(key: string, value: int, depth: nat)
    requires depth <= DEPTH_LIMIT && PlainKey(B(key))
    ensures FieldReads(NumberField(key, value), depth)
  {
    DecimalReads(value, depth);
  }

  lemma BoolFieldReads(key: string, value: bool, depth: nat)
    requires depth <= DEPTH_LIMIT && PlainKey(B(key))
    ensures FieldReads(OtherField(key, Bool(value)), depth)
  {
    BoolReads(value, depth);
  }

  lemma SectionFieldsRead(s: Section, depth: nat)
    requires depth <= DEPTH_LIMIT
    ensures forall i | 0 <= i < |SectionFields(s)| :: FieldReads(SectionFields(s)[i], depth)
  {
    SectionKeys();
    StatusKeys();
    StringFieldReads("key", s.key, depth);
    NumberFieldReads("files", s.files, depth);
    NumberFieldReads("directories", s.directories, depth);
    NumberFieldReads("bytes", s.bytes, depth);
    StringFieldReads("fingerprint", Digits(s.fingerprint), depth);
    NumberFieldReads("lastModified", s.lastModified, depth);
    BoolFieldReads("available", s.available, depth);
    BoolFieldReads("complete", s.complete, depth);
  }

  lemma SectionReads(s: Section, depth: nat)
    requires depth < DEPTH_LIMIT
    ensures ReadsAs(Braced(SectionFields(s)), Other, depth)
  {
    SectionFieldsRead(s, depth + 1);
    assert |SectionFields(s)| == 8;
    BracedReads(SectionFields(s), depth);
  }

  lemma SectionsRead(sections: seq<Section>)
    ensures ReadsAs(Bracketed(SectionTexts(sections)), Other, 0)
  {
    forall i | 0 <= i < |sections| ensures Reads(SectionTexts(sections)[i], 1) {
      SectionReads(sections[i], 1);
      assert SectionTexts(sections)[i][0] == 123;
    }
    BracketedReads(SectionTexts(sections), 0);
  }

  lemma KeysRead(keys: seq<Bytes>)
    ensures ReadsAs(Bracketed(Quoted(keys)), Other, 0)
  {
    forall i | 0 <= i < |keys| ensures Reads(Quoted(keys)[i], 1) {
      QuotedReads(keys[i], 1);
    }
    BracketedReads(Quoted(keys), 0);
  }

  lemma ScalarFieldsRead(s: State)
    ensures forall i | 0 <= i < 10 :: FieldReads(StateFields(s)[i], 0)
  {
    IdentityKeys();
    StatusKeys();
    NumberFieldReads("schemaVersion", s.schemaVersion, 0);
    StringFieldReads("instanceId", s.instanceId, 0);
    StringFieldReads("containerId", s.containerId, 0);
    StringFieldReads("rootPath", s.root, 0);
    StringFieldReads("revision", Digits(s.revision), 0);
    NumberFieldReads("observedAtMs", s.observedAtMs, 0);
    BoolFieldReads("available", s.available, 0);
    BoolFieldReads("complete", s.complete, 0);
    BoolFieldReads("daemonRunning", s.daemonRunning, 0);
    StringFieldReads("error", s.error, 0);
  }

  lemma StateFieldsRead(s: State)
    ensures forall i | 0 <= i < |StateFields(s)| :: FieldReads(StateFields(s)[i], 0)
  {
    ScalarFieldsRead(s);
    StatusKeys();
    SectionsRead(s.sections);
    KeysRead(s.changedSections);
    assert FieldReads(StateFields(s)[10], 0) && FieldReads(StateFields(s)[11], 0);
  }

  // ---------------------------------------------------------------- keys and values

  ghost predicate KeysOnce(fields: seq<Field>) {
    forall i, j | 0 <= i < j < |fields| :: fields[i].key != fields[j].key
  }

  lemma {:induction false} NewWhenOnce(found: map<Bytes, Scalar>, fields: seq<Field>)
    requires KeysOnce(fields) && forall i | 0 <= i < |fields| :: fields[i].key !in found
    ensures NewKeys(found, fields)
    decreases |fields|
  {
    if fields != [] { NewWhenOnce(found[fields[0].key := fields[0].scalar], fields[1..]); }
  }

  lemma {:induction false} FoundAt(found: map<Bytes, Scalar>, fields: seq<Field>, key: Bytes)
    ensures key in Found(found, fields) <==> key in found || exists i :: 0 <= i < |fields| && fields[i].key == key
    ensures key in found && (forall i | 0 <= i < |fields| :: fields[i].key != key) ==>
              Found(found, fields)[key] == found[key]
    decreases |fields|
  {
    if fields != [] {
      FoundAt(found[fields[0].key := fields[0].scalar], fields[1..], key);
      assert (exists i :: 0 <= i < |fields| && fields[i].key == key)
             <==> fields[0].key == key || exists i :: 0 <= i < |fields[1..]| && fields[1..][i].key == key by {
        if i :| 0 <= i < |fields| && fields[i].key == key && i > 0 { assert fields[1..][i - 1].key == key; }
      }
    }
  }

  lemma {:induction false} FoundValue(found: map<Bytes, Scalar>, fields: seq<Field>, i: nat)
    requires KeysOnce(fields) && i < |fields|
    ensures fields[i].key in Found(found, fields) && Found(found, fields)[fields[i].key] == fields[i].scalar
    decreases |fields|
  {
    if i == 0 {
      FoundAt(found[fields[0].key := fields[0].scalar], fields[1..], fields[0].key);
    } else {
      FoundValue(found[fields[0].key := fields[0].scalar], fields[1..], i - 1);
    }
  }

  /** Tells the twelve keys of a state apart. */
  function KeyNumber(key: Bytes): nat {
    if |key| == 13 then if key[0] == 115 then 0 else 8
    else if |key| == 10 then 1
    else if |key| == 11 then 2
    else if |key| == 8 then if key[0] == 114 then if key[1] == 111 then 3 else 4 else if key[0] == 99 then 7 else 10
    else if |key| == 12 then 5
    else if |key| == 9 then 6
    else if |key| == 5 then 9
    else if |key| == 15 then 11
    else 12
  }

  lemma FirstKeysAreNumbered(s: State)
    ensures forall i | 0 <= i < 6 :: KeyNumber(StateFields(s)[i].key) == i
  {
    assert KeyNumber(B("schemaVersion")) == 0 && KeyNumber(B("instanceId")) == 1 && KeyNumber(B("containerId")) == 2;
    assert KeyNumber(B("rootPath")) == 3 && KeyNumber(B("revision")) == 4 && KeyNumber(B("observedAtMs")) == 5;
  }

  lemma LastKeysAreNumbered(s: State)
    ensures forall i | 6 <= i < 12 :: KeyNumber(StateFields(s)[i].key) == i
  {
    assert KeyNumber(B("available")) == 6 && KeyNumber(B("complete")) == 7 && KeyNumber(B("daemonRunning")) == 8;
    assert KeyNumber(B("error")) == 9 && KeyNumber(B("sections")) == 10 && KeyNumber(B("changedSections")) == 11;
  }

  lemma StateKeysOnce(s: State)
    ensures |StateFields(s)| == 12 && KeysOnce(StateFields(s))
  {
    FirstKeysAreNumbered(s);
    LastKeysAreNumbered(s);
    forall i, j | 0 <= i < j < |StateFields(s)| ensures StateFields(s)[i].key != StateFields(s)[j].key {
      assert KeyNumber(StateFields(s)[i].key) == i && KeyNumber(StateFields(s)[j].key) == j;
    }
  }

  // ---------------------------------------------------------------- UTF-8 of the whole

  predicate TextState(s: State) {
    && ValidUtf8(s.instanceId) && ValidUtf8(s.containerId) && ValidUtf8(s.root) && ValidUtf8(s.error)
    && (forall i | 0 <= i < |s.sections| :: ValidUtf8(s.sections[i].key))
    && (forall i | 0 <= i < |s.changedSections| :: ValidUtf8(s.changedSections[i]))
  }

  lemma {:induction false} CommasUtf8(texts: seq<Bytes>)
    requires forall i | 0 <= i < |texts| :: ValidUtf8(texts[i])
    ensures ValidUtf8(Commas(texts))
    decreases |texts|
  {
    if |texts| > 1 {
      CommasUtf8(texts[1..]);
      AsciiIsUtf8([44]);
      Utf8Concat(texts[0], [44]);
      Utf8Concat(texts[0] + [44], Commas(texts[1..]));
    }
  }

  lemma EnclosedUtf8(open: byte, inner: Bytes, close: byte)
    requires open < 0x80 && close < 0x80 && ValidUtf8(inner)
    ensures ValidUtf8([open] + inner + [close])
  {
    AsciiIsUtf8([open]);
    AsciiIsUtf8([close]);
    Utf8Concat([open], inner);
    Utf8Concat([open] + inner, [close]);
  }

  ghost predicate FieldIsText(f: Field) {
    PlainKey(f.key) && ValidUtf8(f.text)
  }

  lemma FieldUtf8(f: Field)
    requires FieldIsText(f)
    ensures ValidUtf8(FieldText(f))
  {
    AsciiIsUtf8(f.key);
    EnclosedUtf8(QUOTE, f.key, QUOTE);
    AsciiIsUtf8([58]);
    Utf8Concat([QUOTE] + f.key + [QUOTE], [58]);
    Utf8Concat([QUOTE] + f.key + [QUOTE] + [58], f.text);
    assert FieldText(f) == [QUOTE] + f.key + [QUOTE] + [58] + f.text;
  }

  lemma BracedUtf8(fields: seq<Field>)
    requires forall i | 0 <= i < |fields| :: FieldIsText(fields[i])
    ensures ValidUtf8(Braced(fields))
  {
    forall i | 0 <= i < |fields| ensures ValidUtf8(FieldTexts(fields)[i]) { FieldUtf8(fields[i]); }
    CommasUtf8(FieldTexts(fields));
    EnclosedUtf8(123, Commas(FieldTexts(fields)), 125);
  }

  lemma BracketedUtf8(texts: seq<Bytes>)
    requires forall i | 0 <= i < |texts| :: ValidUtf8(texts[i])
    ensures ValidUtf8(Bracketed(texts))
  {
    CommasUtf8(texts);
    EnclosedUtf8(91, Commas(texts), 93);
  }

  lemma DecimalUtf8(n: int)
    ensures ValidUtf8(Decimal(n))
  {
    DigitsAre(if n < 0 then -n else n);
    AsciiIsUtf8(Decimal(n));
  }

  lemma DigitsUtf8(n: nat)
    ensures ValidUtf8(Digits(n))
  {
    DigitsAre(n);
    AsciiIsUtf8(Digits(n));
  }

  lemma BoolUtf8(b: bool)
    ensures ValidUtf8(Bool(b))
  {
    assert |Bool(b)| == if b then 4 else 5;
    AsciiIsUtf8(Bool(b));
  }

  lemma SectionUtf8(s: Section)
    requires ValidUtf8(s.key)
    ensures ValidUtf8(Braced(SectionFields(s)))
  {
    SectionKeys();
    StatusKeys();
    QuoteIsUtf8(s.key);
    DecimalUtf8(s.files);
    DecimalUtf8(s.directories);
    DecimalUtf8(s.bytes);
    DigitsUtf8(s.fingerprint);
    QuoteIsUtf8(Digits(s.fingerprint));
    DecimalUtf8(s.lastModified);
    BoolUtf8(s.available);
    BoolUtf8(s.complete);
    BracedUtf8(SectionFields(s));
  }

  lemma ListsUtf8(s: State)
    requires TextState(s)
    ensures ValidUtf8(Bracketed(SectionTexts(s.sections))) && ValidUtf8(Bracketed(Quoted(s.changedSections)))
  {
    forall i | 0 <= i < |s.sections| ensures ValidUtf8(SectionTexts(s.sections)[i]) { SectionUtf8(s.sections[i]); }
    BracketedUtf8(SectionTexts(s.sections));
    forall i | 0 <= i < |s.changedSections|
      ensures ValidUtf8(Quoted(s.changedSections)[i])
    {
      QuoteIsUtf8(s.changedSections[i]);
    }
    BracketedUtf8(Quoted(s.changedSections));
  }

  lemma IdentityIsText(s: State)
    requires TextState(s)
    ensures forall i | 0 <= i < 5 :: FieldIsText(StateFields(s)[i])
  {
    IdentityKeys();
    StatusKeys();
    DecimalUtf8(s.schemaVersion);
    QuoteIsUtf8(s.instanceId);
    QuoteIsUtf8(s.containerId);
    QuoteIsUtf8(s.root);
    DigitsUtf8(s.revision);
    QuoteIsUtf8(Digits(s.revision));
  }

  lemma StatusIsText(s: State)
    requires TextState(s)
    ensures forall i | 5 <= i < 12 :: FieldIsText(StateFields(s)[i])
  {
    StatusKeys();
    DecimalUtf8(s.observedAtMs);
    BoolUtf8(s.available);
    BoolUtf8(s.complete);
    BoolUtf8(s.daemonRunning);
    QuoteIsUtf8(s.error);
    ListsUtf8(s);
  }

  // ---------------------------------------------------------------- the round trip

  lemma ObjectOf(r: Bytes, found: map<Bytes, Scalar>)
    requires ValidUtf8(r) && r != [] && r[0] == 123 && Take(r[1..], 125).Failed?
    requires Fields(r[1..], map[]) == Parsed(found, [125])
    ensures Object(r) == Some(found)
  {
    assert Take([125], 125) == Parsed((), []);
  }

  lemma FieldsOfDocument(fields: seq<Field>)
    requires fields != [] && KeysOnce(fields) && forall i | 0 <= i < |fields| :: FieldReads(fields[i], 0)
    ensures var r := Commas(FieldTexts(fields)) + [125];
            Take(r, 125).Failed? && Fields(r, map[]) == Parsed(Found(map[], fields), [125])
  {
    NewWhenOnce(map[], fields);
    StartsWithQuote(fields, [125]);
    FieldsRead(fields, [125], map[]);
  }

  lemma DocumentReads(fields: seq<Field>)
    requires fields != [] && KeysOnce(fields) && ValidUtf8(Braced(fields))
             && forall i | 0 <= i < |fields| :: FieldReads(fields[i], 0)
    ensures Object(Braced(fields)) == Some(Found(map[], fields))
  {
    var r := Braced(fields);
    BracedStarts(fields, []);
    assert r + [] == r && [125] + [] == [125];
    FieldsOfDocument(fields);
    ObjectOf(r, Found(map[], fields));
  }

  predicate Gives(o: map<Bytes, Scalar>, key: Bytes, scalar: Scalar) {
    key in o && o[key] == scalar
  }

  /** The twelve keys of a state, in their order. */
  const STATE_KEYS: seq<Bytes> :=
    [B("schemaVersion"), B("instanceId"), B("containerId"), B("rootPath"), B("revision"), B("observedAtMs"),
     B("available"), B("complete"), B("daemonRunning"), B("error"), B("sections"), B("changedSections")]

  lemma FieldKeys(s: State)
    ensures |StateFields(s)| == |STATE_KEYS| == 12 && forall i | 0 <= i < 12 :: StateFields(s)[i].key == STATE_KEYS[i]
  {
  }

  lemma PrintedReads(s: State) returns (o: map<Bytes, Scalar>)
    requires TextState(s)
    ensures Object(ToJson(s)) == Some(o) && o == Found(map[], StateFields(s))
    ensures |StateFields(s)| == 12
            && forall i | 0 <= i < 12 :: Gives(o, StateFields(s)[i].key, StateFields(s)[i].scalar)
  {
    o := Found(map[], StateFields(s));
    StateFieldsRead(s);
    StateKeysOnce(s);
    IdentityIsText(s);
    StatusIsText(s);
    BracedUtf8(StateFields(s));
    DocumentReads(StateFields(s));
    forall i | 0 <= i < 12 ensures Gives(o, StateFields(s)[i].key, StateFields(s)[i].scalar) {
      FoundValue(map[], StateFields(s), i);
    }
  }

  lemma ExactlyTheKeys(s: State)
    ensures Found(map[], StateFields(s)).Keys == set k | k in STATE_KEYS
  {
    FieldKeys(s);
    forall key ensures key in Found(map[], StateFields(s)) <==> key in STATE_KEYS {
      FoundAt(map[], StateFields(s), key);
      if key in STATE_KEYS {
        var i :| 0 <= i < |STATE_KEYS| && STATE_KEYS[i] == key;
        assert StateFields(s)[i].key == key;
      }
    }
  }

  /** The number a decimal text stands for. */
  function ToInt(d: Bytes): int {
    if d == [] then 0 else if d[0] == 45 then -ToNat(d[1..]) else ToNat(d)
  }

  function ToNat(d: Bytes): int {
    if d == [] then 0 else ToNat(d[..|d| - 1]) * 10 + (d[|d| - 1] as int - 48)
  }

  lemma {:induction false} DigitsMean(n: nat)
    ensures ToNat(Digits(n)) == n
  {
    var d := Digits(n);
    if n < 10 {
      assert d[..0] == [];
    } else {
      DigitsMean(n / 10);
      assert d[..|d| - 1] == Digits(n / 10);
    }
  }

  lemma DecimalMeans(n: int)
    ensures ToInt(Decimal(n)) == n
  {
    DigitsMean(if n < 0 then -n else n);
    DigitsAre(if n < 0 then -n else n);
    if n < 0 { assert Decimal(n)[1..] == Digits(-n); }
  }

  /** What the parsed document says of the state's strings and numbers. */
  ghost predicate Tells(o: map<Bytes, Scalar>, s: State, revision: Bytes, schemaVersion: Bytes, observedAt: Bytes) {
    && Gives(o, B("instanceId"), StringScalar(s.instanceId)) && Gives(o, B("containerId"), StringScalar(s.containerId))
    && Gives(o, B("rootPath"), StringScalar(s.root)) && Gives(o, B("error"), StringScalar(s.error))
    && Gives(o, B("revision"), StringScalar(revision)) && ToInt(revision) == s.revision
    && Gives(o, B("schemaVersion"), NumberScalar(schemaVersion)) && ToInt(schemaVersion) == s.schemaVersion
    && Gives(o, B("observedAtMs"), NumberScalar(observedAt)) && ToInt(observedAt) == s.observedAtMs
  }

  lemma FieldsTell(o: map<Bytes, Scalar>, s: State)
    requires forall i | 0 <= i < 12 :: Gives(o, StateFields(s)[i].key, StateFields(s)[i].scalar)
    ensures Tells(o, s, Digits(s.revision), Decimal(s.schemaVersion), Decimal(s.observedAtMs))
  {
    DecimalMeans(s.revision);
    DecimalMeans(s.schemaVersion);
    DecimalMeans(s.observedAtMs);
    var f := StateFields(s);
    assert f[0] == NumberField("schemaVersion", s.schemaVersion) && Gives(o, f[0].key, f[0].scalar);
    assert f[1] == StringField("instanceId", s.instanceId) && Gives(o, f[1].key, f[1].scalar);
    assert f[2] == StringField("containerId", s.containerId) && Gives(o, f[2].key, f[2].scalar);
    assert f[3] == StringField("rootPath", s.root) && Gives(o, f[3].key, f[3].scalar);
    assert f[4] == StringField("revision", Digits(s.revision)) && Gives(o, f[4].key, f[4].scalar);
    assert f[5] == NumberField("observedAtMs", s.observedAtMs) && Gives(o, f[5].key, f[5].scalar);
    assert f[9] == StringField("error", s.error) && Gives(o, f[9].key, f[9].scalar);
  }

  /** Printing and parsing undo each other: for every state whose strings are valid UTF-8
      the document parses, has exactly the twelve keys, and gives back every string and
      every number unchanged. */
  lemma PrintThenParse(s: State) returns (revision: Bytes, schemaVersion: Bytes, observedAt: Bytes)
    requires TextState(s)
    ensures Object(ToJson(s)).Some? && Object(ToJson(s)).value.Keys == set k | k in STATE_KEYS
    ensures Tells(Object(ToJson(s)).value, s, revision, schemaVersion, observedAt)
  {
    var o := PrintedReads(s);
    ExactlyTheKeys(s);
    FieldsTell(o, s);
    revision, schemaVersion, observedAt := Digits(s.revision), Decimal(s.schemaVersion), Decimal(s.observedAtMs);
  }
}
