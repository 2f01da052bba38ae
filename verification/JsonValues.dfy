/** Parsing whole JSON documents, and printing a monitored state. */
module JsonValues {
  import opened Records
  import opened JsonText

  const DEPTH_LIMIT: nat := 24

  datatype Scalar = StringScalar(value: Bytes) | NumberScalar(text: Bytes) | Other

  // ---------------------------------------------------------------- numbers

  predicate IsDigit(c: byte) {
    48 <= c <= 57
  }

  /** The digits at the front, and the rest. */
  function DigitRun(r: Bytes): (n: nat)
    ensures n <= |r|
  {
    if r != [] && IsDigit(r[0]) then 1 + DigitRun(r[1..]) else 0
  }

  /** The length of the integer part, or 0. */
  function IntegerPart(r: Bytes): (n: nat)
    ensures n <= |r|
  {
    if r == [] then 0 else if r[0] == 48 then 1 else DigitRun(r)
  }

  /** A fraction or exponent: its length after `skip` marks, or None when it has no digit. */
  function AfterMark(r: Bytes, skip: nat): (n: Option<nat>)
    requires skip <= |r|
    ensures n.Some? ==> n.value <= |r|
  {
    var digits := DigitRun(r[skip..]);
    if digits == 0 then None else Some(skip + digits)
  }

  function Fraction(r: Bytes): (n: Option<nat>)
    ensures n.Some? ==> n.value <= |r|
  {
    if r != [] && r[0] == 46 then AfterMark(r, 1) else Some(0)
  }

  function Exponent(r: Bytes): (n: Option<nat>)
    ensures n.Some? ==> n.value <= |r|
  {
    if r != [] && (r[0] == 101 || r[0] == 69) then AfterMark(r, if |r| > 1 && (r[1] == 43 || r[1] == 45) then 2 else 1)
    else Some(0)
  }

  /** A fraction and an exponent, either of which may be missing. */
  function AfterWhole(r: Bytes): (n: Option<nat>)
    ensures n.Some? ==> n.value <= |r|
  {
    var fraction := Fraction(r);
    if fraction.None? then None
    else
      var exponent := Exponent(r[fraction.value..]);
      if exponent.None? then None else Some(fraction.value + exponent.value)
  }

  function Unsigned(r: Bytes): (n: Option<nat>)
    ensures n.Some? ==> 0 < n.value <= |r|
  {
    var whole := IntegerPart(r);
    if whole == 0 then None
    else
      var tail := AfterWhole(r[whole..]);
      if tail.None? then None else Some(whole + tail.value)
  }

  /** The length of a number, or None. */
  function NumberLength(r: Bytes): (n: Option<nat>)
    ensures n.Some? ==> 0 < n.value <= |r|
  {
    if r != [] && r[0] == 45 then
      var rest := Unsigned(r[1..]);
      if rest.None? then None else Some(1 + rest.value)
    else Unsigned(r)
  }

  function Number(r: Bytes): (p: Parsed<Bytes>)
    ensures p.Parsed? ==> |p.rest| < |r|
  {
    var s := SkipSpace(r);
    var n := NumberLength(s);
    if n.None? then Failed else Parsed(s[..n.value], s[n.value..])
  }

  // ---------------------------------------------------------------- values

  function Literal(r: Bytes): (p: Parsed<()>)
    ensures p.Parsed? ==> |p.rest| < |r|
  {
    if B("true") <= r then Parsed((), r[4..])
    else if B("false") <= r then Parsed((), r[5..])
    else if B("null") <= r then Parsed((), r[4..])
    else Failed
  }

  function Value(r: Bytes, depth: nat): (p: Parsed<Scalar>)
    ensures p.Parsed? ==> |p.rest| < |r|
    decreases |r|, 1
  {
    var s := SkipSpace(r);
    if depth > DEPTH_LIMIT || s == [] then Failed
    else if s[0] == QUOTE then
      var t := String(s);
      if t.Failed? then Failed else Parsed(StringScalar(t.value), t.rest)
    else if s[0] == 123 then Nested(s[1..], depth)
    else if s[0] == 91 then Array(s[1..], depth)
    else if Literal(s).Parsed? then Parsed(Other, Literal(s).rest)
    else
      var n := Number(s);
      if n.Failed? then Failed else Parsed(NumberScalar(n.value), n.rest)
  }

  /** An object after its brace, and an array after its bracket. */
  function Nested(r: Bytes, depth: nat): (p: Parsed<Scalar>)
    ensures p.Parsed? ==> |p.rest| < |r|
    decreases |r|, 4
  {
    var empty := Take(r, 125);
    if empty.Parsed? then Parsed(Other, empty.rest) else Closed(Members(r, depth), 125)
  }

  function Array(r: Bytes, depth: nat): (p: Parsed<Scalar>)
    ensures p.Parsed? ==> |p.rest| < |r|
    decreases |r|, 4
  {
    var empty := Take(r, 93);
    if empty.Parsed? then Parsed(Other, empty.rest) else Closed(Elements(r, depth), 93)
  }

  function Closed(p: Parsed<()>, c: byte): (q: Parsed<Scalar>)
    ensures p.Parsed? && q.Parsed? ==> |q.rest| < |p.rest|
    ensures p.Failed? ==> q.Failed?
  {
    if p.Failed? then Failed else if Take(p.rest, c).Failed? then Failed else Parsed(Other, Take(p.rest, c).rest)
  }

  /** A key, a colon and a value. */
  function Member(r: Bytes, depth: nat): (p: Parsed<(Bytes, Scalar)>)
    ensures p.Parsed? ==> |p.rest| < |r|
    decreases |r|, 2
  {
    var key := String(r);
    if key.Failed? then Failed
    else
      var colon := Take(key.rest, 58);
      if colon.Failed? then Failed
      else
        var v := Value(colon.rest, depth);
        if v.Failed? then Failed else Parsed((key.value, v.value), v.rest)
  }

  /** The members of a nested object. */
  function Members(r: Bytes, depth: nat): (p: Parsed<()>)
    ensures p.Parsed? ==> |p.rest| < |r|
    decreases |r|, 3
  {
    var m := Member(r, depth + 1);
    if m.Failed? then Failed
    else if Take(m.rest, 44).Parsed? then Members(Take(m.rest, 44).rest, depth)
    else Parsed((), m.rest)
  }

  function Elements(r: Bytes, depth: nat): (p: Parsed<()>)
    ensures p.Parsed? ==> |p.rest| < |r|
    decreases |r|, 3
  {
    var v := Value(r, depth + 1);
    if v.Failed? then Failed
    else if Take(v.rest, 44).Parsed? then Elements(Take(v.rest, 44).rest, depth)
    else Parsed((), v.rest)
  }

  /** The members of the document itself; a key may come only once. */
  function Fields(r: Bytes, found: map<Bytes, Scalar>): (p: Parsed<map<Bytes, Scalar>>)
    ensures p.Parsed? ==> |p.rest| < |r|
    decreases |r|
  {
    var m := Member(r, 0);
    if m.Failed? || m.value.0 in found then Failed
    else
      var more := found[m.value.0 := m.value.1];
      if Take(m.rest, 44).Parsed? then Fields(Take(m.rest, 44).rest, more) else Parsed(more, m.rest)
  }

  /** Nothing but space may follow. */
  function Ending(r: Bytes, found: map<Bytes, Scalar>): Option<map<Bytes, Scalar>> {
    if SkipSpace(r) == [] then Some(found) else None
  }

  /** The document's object after its brace. */
  function Inside(r: Bytes): Option<map<Bytes, Scalar>> {
    var empty := Take(r, 125);
    if empty.Parsed? then Ending(empty.rest, map[])
    else
      var fields := Fields(r, map[]);
      if fields.Failed? then None
      else
        var end := Take(fields.rest, 125);
        if end.Failed? then None else Ending(end.rest, fields.value)
  }

  /** A whole document: valid UTF-8, one object, nothing after it. */
  function Object(input: Bytes): Option<map<Bytes, Scalar>> {
    var start := Take(input, 123);
    if !ValidUtf8(input) || start.Failed? then None else Inside(start.rest)
  }

  // ---------------------------------------------------------------- printing

  datatype Section = Section(key: Bytes, files: nat, directories: nat, bytes: nat, fingerprint: nat,
                             lastModified: int, available: bool, complete: bool)

  datatype State = State(schemaVersion: nat, instanceId: Bytes, containerId: Bytes, root: Bytes, revision: nat,
                         observedAtMs: int, available: bool, complete: bool, daemonRunning: bool, error: Bytes,
                         sections: seq<Section>, changedSections: seq<Bytes>)

  function Digits(n: nat): (d: Bytes)
    ensures d != []
  {
    if n < 10 then [(48 + n) as byte] else Digits(n / 10) + [(48 + n % 10) as byte]
  }

  function Decimal(n: int): Bytes {
    if n < 0 then [45] + Digits(-n) else Digits(n)
  }

  function Bool(b: bool): Bytes {
    if b then B("true") else B("false")
  }

  /** A printed field: its key, its text, and what the parser makes of it. */
  datatype Field = Field(key: Bytes, text: Bytes, scalar: Scalar)

  function StringField(key: string, value: Bytes): Field
  {
    Field(B(key), Quote(value), StringScalar(value))
  }

  function NumberField(key: string, value: int): Field
  {
    Field(B(key), Decimal(value), NumberScalar(Decimal(value)))
  }

  function OtherField(key: string, text: Bytes): Field
  {
    Field(B(key), text, Other)
  }

  /** Texts separated by commas. */
  function Commas(texts: seq<Bytes>): Bytes {
    if texts == [] then [] else if |texts| == 1 then texts[0] else texts[0] + [44] + Commas(texts[1..])
  }

  function FieldText(f: Field): Bytes {
    [QUOTE] + f.key + [QUOTE, 58] + f.text
  }

  function FieldTexts(fields: seq<Field>): seq<Bytes> {
    seq(|fields|, i requires 0 <= i < |fields| => FieldText(fields[i]))
  }

  function Braced(fields: seq<Field>): Bytes {
    [123] + Commas(FieldTexts(fields)) + [125]
  }

  function Bracketed(texts: seq<Bytes>): Bytes {
    [91] + Commas(texts) + [93]
  }

  function SectionFields(s: Section): seq<Field> {
    [StringField("key", s.key), NumberField("files", s.files), NumberField("directories", s.directories),
     NumberField("bytes", s.bytes), StringField("fingerprint", Digits(s.fingerprint)),
     NumberField("lastModified", s.lastModified), OtherField("available", Bool(s.available)),
       OtherField("complete", Bool(s.complete))]
  }

  function SectionTexts(sections: seq<Section>): seq<Bytes> {
    seq(|sections|, i requires 0 <= i < |sections| => Braced(SectionFields(sections[i])))
  }

  function Quoted(keys: seq<Bytes>): seq<Bytes> {
    seq(|keys|, i requires 0 <= i < |keys| => Quote(keys[i]))
  }

  function StateFields(s: State): seq<Field> {
    [NumberField("schemaVersion", s.schemaVersion), StringField("instanceId", s.instanceId),
     StringField("containerId", s.containerId), StringField("rootPath", s.root),
     StringField("revision", Digits(s.revision)), NumberField("observedAtMs", s.observedAtMs),
     OtherField("available", Bool(s.available)), OtherField("complete", Bool(s.complete)),
     OtherField("daemonRunning", Bool(s.daemonRunning)), StringField("error", s.error),
     OtherField("sections", Bracketed(SectionTexts(s.sections))),
       OtherField("changedSections", Bracketed(Quoted(s.changedSections)))]
  }

  function ToJson(s: State): Bytes {
    Braced(StateFields(s))
  }
}
