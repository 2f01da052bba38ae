/** Logical paths: a section key, then names separated by '/'. */
module Paths {
  import opened Records

  const PATH_LIMIT := 3500
  const NAME_LIMIT := 220
  const CONFLICT_NAME_LIMIT := 160
  const CONFLICT_MARK := ".sync-conflict-"
  const LEASE_NAME := ".iisacc-temporary.lock"

  /** How many '/' the path holds. */
  function Depth(p: Path): nat {
    if p == "" then 0 else Depth(p[..|p| - 1]) + if p[|p| - 1] == '/' then 1 else 0
  }

  /** `child` lies inside the folder `parent`. */
  predicate Below(child: Path, parent: Path) {
    |parent| < |child| && child[|parent|] == '/' && child[..|parent|] == parent
  }

  /** The folders a path needs, without its section, which always exists. */
  function Ancestors(p: Path): set<Path> {
    set i | 0 <= i < |p| && p[i] == '/' && '/' in p[..i] :: p[..i]
  }

  lemma AncestorsAreTheFoldersAbove(p: Path, a: Path)
    ensures a in Ancestors(p) <==> Below(p, a) && '/' in a
  {
    if Below(p, a) && '/' in a {
      assert p[..|a|] == a && p[|a|] == '/';
    }
  }

  lemma {:induction false} DepthOfPrefix(p: Path, i: nat)
    requires i <= |p|
    ensures Depth(p[..i]) <= Depth(p)
    decreases |p|
  {
    if i < |p| {
      DepthOfPrefix(p[..|p| - 1], i);
      assert p[..|p| - 1][..i] == p[..i];
    } else {
      assert p[..i] == p;
    }
  }

  lemma BelowIsDeeper(child: Path, parent: Path)
    requires Below(child, parent)
    ensures Depth(parent) < Depth(child)
  {
    var cut := child[..|parent| + 1];
    DepthOfPrefix(child, |parent| + 1);
    assert cut[..|cut| - 1] == parent;
  }

  lemma BelowTransitive(a: Path, b: Path, c: Path)
    requires Below(a, b) && Below(b, c)
    ensures Below(a, c)
  {
    assert a[|c|] == a[..|b|][|c|];
    assert a[..|c|] == a[..|b|][..|c|];
  }

  // ---------------------------------------------------------------- UTF-16

  /** A character outside the first plane takes two units. */
  function UnitsOf(c: char): seq<int> {
    var code := c as int;
    if code < 0x10000 then [code] else [0xD800 + (code - 0x10000) / 0x400, 0xDC00 + (code - 0x10000) % 0x400]
  }

  function Units(p: string): seq<int> {
    if p == "" then [] else UnitsOf(p[0]) + Units(p[1..])
  }

  lemma SameFirstUnit(a: char, b: char, u: seq<int>, v: seq<int>)
    requires UnitsOf(a) + u == UnitsOf(b) + v
    ensures a == b && u == v
  {
    var all := UnitsOf(a) + u;
    assert all[0] == UnitsOf(a)[0] == UnitsOf(b)[0];
    assert |UnitsOf(a)| == |UnitsOf(b)|;
    if |UnitsOf(a)| == 2 { assert all[1] == UnitsOf(a)[1] == UnitsOf(b)[1]; }
    assert u == all[|UnitsOf(a)|..] && v == all[|UnitsOf(b)|..];
  }

  /** No two strings have the same units. */
  lemma {:induction false} UnitsAreUnique(a: string, b: string)
    requires Units(a) == Units(b)
    ensures a == b
  {
    if a != "" && b != "" {
      SameFirstUnit(a[0], b[0], Units(a[1..]), Units(b[1..]));
      UnitsAreUnique(a[1..], b[1..]);
      assert a == [a[0]] + a[1..] && b == [b[0]] + b[1..];
    }
  }

  predicate UnitsLess(a: seq<int>, b: seq<int>) {
    b != [] && (a == [] || a[0] < b[0] || (a[0] == b[0] && UnitsLess(a[1..], b[1..])))
  }

  lemma {:induction false} UnitsLessTotal(a: seq<int>, b: seq<int>)
    ensures !(UnitsLess(a, b) && UnitsLess(b, a))
    ensures a != b <==> UnitsLess(a, b) || UnitsLess(b, a)
  {
    if a != [] && b != [] && a[0] == b[0] {
      UnitsLessTotal(a[1..], b[1..]);
      assert a == [a[0]] + a[1..] && b == [b[0]] + b[1..];
    }
  }

  lemma {:induction false} UnitsLessTransitive(a: seq<int>, b: seq<int>, c: seq<int>)
    requires UnitsLess(a, b) && UnitsLess(b, c)
    ensures UnitsLess(a, c)
  {
    if a != [] && a[0] == b[0] == c[0] {
      UnitsLessTransitive(a[1..], b[1..], c[1..]);
    }
  }

  /** Lexicographic order on UTF-16 units. */
  predicate PathLess(a: Path, b: Path) {
    UnitsLess(Units(a), Units(b))
  }

  lemma PathLessTotal(a: Path, b: Path)
    ensures !(PathLess(a, b) && PathLess(b, a))
    ensures a != b <==> PathLess(a, b) || PathLess(b, a)
  {
    UnitsLessTotal(Units(a), Units(b));
    if Units(a) == Units(b) { UnitsAreUnique(a, b); }
  }

  lemma PathLessTransitive(a: Path, b: Path, c: Path)
    requires PathLess(a, b) && PathLess(b, c)
    ensures PathLess(a, c)
  {
    UnitsLessTransitive(Units(a), Units(b), Units(c));
  }

  /** Index of the last '/', or -1. */
  function LastSlash(p: Path): (i: int)
    ensures -1 <= i < |p|
    ensures i >= 0 ==> p[i] == '/'
    ensures forall j | i < j < |p| :: p[j] != '/'
  {
    if p == "" then -1 else if p[|p| - 1] == '/' then |p| - 1 else LastSlash(p[..|p| - 1])
  }

  function Name(p: Path): string {
    p[LastSlash(p) + 1..]
  }

  function Utf8Size(s: string): nat {
    if s == "" then 0
    else Utf8Size(s[..|s| - 1])
         + var c := s[|s| - 1]; if c < '\U{80}' then 1 else if c < '\U{800}' then 2 else if c < '\U{10000}' then 3
           else 4
  }

  function Utf16Size(s: string): nat {
    |Units(s)|
  }

  predicate GoodName(name: string) {
    && name != "" && name != "." && name != ".." && name != LEASE_NAME
    && Utf8Size(name) <= NAME_LIMIT
    && !(".society-" <= name) && !(".iiwebserver-" <= name)
  }

  /** A known section, then good names. */
  predicate GoodNames(p: Path)
    decreases |p|
  {
    var i := LastSlash(p);
    if i < 0 then p in SECTIONS else GoodName(p[i + 1..]) && GoodNames(p[..i])
  }

  /** The keys that have a place in the container's file tree. */
  predicate Physical(p: Path) {
    && '/' in p && Utf16Size(p) <= PATH_LIMIT
    && '\\' !in p && ':' !in p && '\0' !in p
    && GoodNames(p)
  }

  /** The first 32 hex digits of a version. */
  type Tag = t: string | |t| == 32 && forall c | c in t :: '0' <= c <= '9' || 'a' <= c <= 'f'
    witness "00000000000000000000000000000000"

  /** Where the losing side of a conflict is kept. */
  function ConflictPath(p: Path, tag: Tag): Path {
    p[..LastSlash(p) + 1]
    + (if Utf8Size(Name(p)) <= CONFLICT_NAME_LIMIT then Name(p) else "file")
    + (CONFLICT_MARK + tag)
  }

  lemma {:induction false} LastSlashIs(p: Path, i: int)
    requires -1 <= i < |p|
    requires i >= 0 ==> p[i] == '/'
    requires forall j | i < j < |p| :: p[j] != '/'
    ensures LastSlash(p) == i
  {
  }

  lemma {:induction false} Utf8OfConcat(a: string, b: string)
    ensures Utf8Size(a + b) == Utf8Size(a) + Utf8Size(b)
    decreases |b|
  {
    if b == "" {
      assert a + b == a;
    } else {
      Utf8OfConcat(a, b[..|b| - 1]);
      assert (a + b)[..|a + b| - 1] == a + b[..|b| - 1];
    }
  }

  predicate Ascii(s: string) {
    forall i | 0 <= i < |s| :: s[i] < '\U{80}'
  }

  lemma {:induction false} Utf8OfAscii(s: string)
    requires Ascii(s)
    ensures Utf8Size(s) == |s|
  {
    if s != "" {
      Utf8OfAscii(s[..|s| - 1]);
    }
  }

  function Stem(name: string): string {
    if Utf8Size(name) <= CONFLICT_NAME_LIMIT then name else "file"
  }

  lemma MarkSize(tag: Tag)
    ensures Ascii(CONFLICT_MARK + tag) && Utf8Size(CONFLICT_MARK + tag) == |CONFLICT_MARK + tag| == 47
    ensures '/' !in CONFLICT_MARK + tag
  {
    var mark := CONFLICT_MARK + tag;
    forall i | 0 <= i < |mark| ensures mark[i] < '\U{80}' && mark[i] != '/' {
      if i >= 15 { assert mark[i] == tag[i - 15] && tag[i - 15] in tag; }
    }
    Utf8OfAscii(mark);
  }

  lemma NotReserved(stem: string, tag: Tag, prefix: string)
    requires stem != "" && !(prefix <= stem)
    requires forall i | 1 <= i < |prefix| :: prefix[i] != '.'
    ensures !(prefix <= stem + (CONFLICT_MARK + tag))
  {
    var name := stem + (CONFLICT_MARK + tag);
    assert name[|stem|] == '.';
    assert |prefix| <= |stem| ==> name[..|prefix|] == stem[..|prefix|];
  }

  /** A marked stem is a good name: within the size limit and not a reserved one. */
  lemma MarkedNameIsGood(stem: string, tag: Tag)
    requires GoodName(stem) && Utf8Size(stem) <= CONFLICT_NAME_LIMIT
    ensures GoodName(stem + (CONFLICT_MARK + tag))
  {
    MarkSize(tag);
    Utf8OfConcat(stem, CONFLICT_MARK + tag);
    NotReserved(stem, tag, ".society-");
    NotReserved(stem, tag, ".iiwebserver-");
  }

  lemma StemIsGood(name: string)
    requires GoodName(name)
    ensures GoodName(Stem(name)) && Utf8Size(Stem(name)) <= CONFLICT_NAME_LIMIT
  {
    Utf8OfAscii("file");
    assert !(".society-" <= "file") by { assert ".society-"[0] == '.'; }
    assert !(".iiwebserver-" <= "file") by { assert ".iiwebserver-"[0] == '.'; }
  }

  /** A conflict copy stays in the original's folder, under a marked name. */
  lemma ConflictPathShape(p: Path, tag: Tag)
    ensures LastSlash(ConflictPath(p, tag)) == LastSlash(p)
    ensures '/' !in Name(p)
    ensures Name(ConflictPath(p, tag)) == Stem(Name(p)) + (CONFLICT_MARK + tag)
    ensures ConflictPath(p, tag) == p[..LastSlash(p) + 1] + Name(ConflictPath(p, tag))
  {
    var name := Stem(Name(p)) + (CONFLICT_MARK + tag);
    var q := ConflictPath(p, tag);
    MarkSize(tag);
    assert q == p[..LastSlash(p) + 1] + name;
    assert forall j | 0 <= j < |Name(p)| :: Name(p)[j] == p[LastSlash(p) + 1 + j];
    forall j | LastSlash(p) < j < |q| ensures q[j] != '/' {
      assert q[j] == name[j - LastSlash(p) - 1];
      assert '/' !in Stem(Name(p)) && '/' !in CONFLICT_MARK + tag;
    }
    LastSlashIs(q, LastSlash(p));
  }

  /** A conflict copy of an entry with a place in the tree has a place too, unless the
      whole key grows past the length limit. */
  lemma ConflictPathIsPhysical(p: Path, tag: Tag)
    requires Physical(p)
    ensures Physical(ConflictPath(p, tag)) <==> Utf16Size(ConflictPath(p, tag)) <= PATH_LIMIT
  {
    var q := ConflictPath(p, tag);
    var i := LastSlash(p);
    assert i >= 0 by { var j :| 0 <= j < |p| && p[j] == '/'; }
    ConflictPathShape(p, tag);
    StemIsGood(Name(p));
    MarkedNameIsGood(Stem(Name(p)), tag);
    assert q[i] == p[..i + 1][i] == '/' && q[..i] == p[..i];
    NoneOf(p, tag, '\\');
    NoneOf(p, tag, ':');
    NoneOf(p, tag, '\0');
  }

  lemma NoneOf(p: Path, tag: Tag, c: char)
    requires c !in p && c !in "file" && c !in CONFLICT_MARK
    requires !('0' <= c <= '9') && !('a' <= c <= 'f')
    ensures c !in ConflictPath(p, tag)
  {
    assert c !in Name(p) && c !in p[..LastSlash(p) + 1];
    assert c !in tag;
  }

  lemma MarkedStemDiffers(name: string, tag: Tag)
    ensures Stem(name) + (CONFLICT_MARK + tag) != name
  {
    var stem := Stem(name);
    MarkSize(tag);
    Utf8OfConcat(stem, CONFLICT_MARK + tag);
    if stem != name {
      Utf8OfAscii(stem);
    }
  }

  /** It never names the entry itself. */
  lemma ConflictPathDiffers(p: Path, tag: Tag)
    ensures ConflictPath(p, tag) != p
  {
    ConflictPathShape(p, tag);
    MarkedStemDiffers(Name(p), tag);
  }

  lemma MarkedSize(stem: string, tag: Tag)
    ensures Utf8Size(stem + (CONFLICT_MARK + tag)) == Utf8Size(stem) + 47
  {
    MarkSize(tag);
    Utf8OfConcat(stem, CONFLICT_MARK + tag);
  }

  lemma NameOfCopy(p: Path, tag: Tag) returns (stem: string)
    ensures stem == if Utf8Size(Name(p)) <= CONFLICT_NAME_LIMIT then Name(p) else "file"
    ensures Name(ConflictPath(p, tag)) == stem + (CONFLICT_MARK + tag)
  {
    stem := Stem(Name(p));
    ConflictPathShape(p, tag);
  }

  lemma StemSize(p: Path, tag: Tag)
    ensures Utf8Size(Name(ConflictPath(p, tag)))
            == 47 + if Utf8Size(Name(p)) <= CONFLICT_NAME_LIMIT then Utf8Size(Name(p)) else 4
  {
    var stem := NameOfCopy(p, tag);
    MarkedSize(stem, tag);
    Utf8OfAscii("file");
  }

  /** Nor does a copy's copy. */
  lemma SecondCopyDiffers(p: Path, first: Tag, second: Tag)
    ensures ConflictPath(ConflictPath(p, first), second) != p
  {
    StemSize(p, first);
    StemSize(ConflictPath(p, first), second);
  }

  /** Of two paths with their names in one place, none lies below the other. */
  lemma NoneBelow(p: Path, q: Path)
    requires LastSlash(p) == LastSlash(q)
    ensures !Below(p, q)
  {
  }

  lemma {:induction false} FewUnits(s: string)
    ensures |Units(s)| <= 2 * |s|
  {
    if s != "" { FewUnits(s[1..]); }
  }

  /** What every receiver demands of a record before it uses it; `physical` says which
      keys have a place in the tree, as `Physical` does for a real container. */
  predicate ValidRecord(r: Record, physical: Path -> bool) {
    physical(r.content.path) && r.version == VersionOf(r.content) && ValidContent(r.content)
  }
}
