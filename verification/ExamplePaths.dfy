/** A few paths for concrete states: a file, a path inside a folder of the same name, and the
    file's conflict names, all with a place in the tree. */
module ExamplePaths {
  import opened Records
  import opened Paths

  const OUTER: Path := "files/a"
  const INNER: Path := "files/a/b"

  lemma FilesIsGood()
    ensures GoodNames("files")
  {
    LastSlashIs("files", -1);
  }

  lemma LetterIsGood(name: string)
    requires name in {"a", "b"}
    ensures GoodName(name)
  {
    Utf8OfAscii(name);
    assert |name| == 1;
  }

  lemma OuterNames()
    ensures LastSlash(OUTER) == 5 && OUTER[6..] == "a" && OUTER[..5] == "files" && GoodNames(OUTER)
  {
    LastSlashIs(OUTER, 5);
    FilesIsGood();
    LetterIsGood("a");
  }

  lemma InnerNames()
    ensures GoodNames(INNER)
  {
    LastSlashIs(INNER, 7);
    assert INNER[..7] == OUTER && INNER[8..] == "b";
    OuterNames();
    LetterIsGood("b");
  }

  lemma ShortIsPhysical(p: Path)
    requires '/' in p && |p| <= 100 && GoodNames(p) && '\\' !in p && ':' !in p && '\0' !in p
    ensures Physical(p)
  {
    FewUnits(p);
  }

  lemma OuterIsPhysical()
    ensures Physical(OUTER)
  {
    OuterNames();
    assert OUTER[5] == '/';
    ShortIsPhysical(OUTER);
  }

  lemma InnerIsPhysical()
    ensures Physical(INNER)
  {
    InnerNames();
    assert INNER[5] == '/';
    ShortIsPhysical(INNER);
  }

  lemma CopyIsPhysical(tag: Tag)
    ensures Physical(ConflictPath(OUTER, tag)) && ConflictPath(OUTER, tag) != OUTER
    ensures Ancestors(ConflictPath(OUTER, tag)) == {}
  {
    var copy := ConflictPath(OUTER, tag);
    OuterIsPhysical();
    OuterNames();
    ConflictPathIsPhysical(OUTER, tag);
    ConflictPathShape(OUTER, tag);
    ConflictPathDiffers(OUTER, tag);
    assert |copy| <= 100;
    FewUnits(copy);
    TopLevel(copy);
  }

  /** Directly inside a section there is no folder above. */
  lemma TopLevel(p: Path)
    requires LastSlash(p) == 5 && p[..5] == "files"
    ensures Ancestors(p) == {}
  {
    forall i | 0 <= i < |p| && p[i] == '/' ensures '/' !in p[..i] {
      assert i <= 5;
      assert p[..i] == "files"[..i];
    }
  }

  lemma FoldersAbove()
    ensures Ancestors(INNER) == {OUTER} && Ancestors(OUTER) == {}
    ensures '/' in OUTER && '/' in INNER
  {
    assert INNER[..7] == OUTER && INNER[..5] == OUTER[..5] == "files";
    assert OUTER[5] == '/' && INNER[5] == '/' && '/' !in "files";
  }

  lemma PhysicalHasSlash(p: Path)
    requires Physical(p)
    ensures '/' in p
  {
  }

  /** A record of a small content at such a path is valid. */
  lemma SmallIsValid(c: Content)
    requires Physical(c.path) && 0 < |c.clock| <= 2 && forall k | k in c.clock :: 0 < c.clock[k] <= 100
    requires 0 <= c.size <= 100 && if c.kind == File then c.hash != NoDigest else c.size == 0 && c.hash == NoDigest
    ensures ValidRecord(Versioned(c), Physical)
  {
  }

  /** A path directly inside a section, with a place in the tree. */
  ghost predicate InSection(p: Path) {
    Physical(p) && Ancestors(p) == {}
  }

  lemma SomeInSection()
    ensures InSection(OUTER)
  {
    OuterIsPhysical();
    FoldersAbove();
  }

  /** A path directly inside a section, and one inside a folder of that name. */
  datatype Names = Names(outer: Path, inner: Path)

  ghost predicate Nested(w: Names) {
    && Physical(w.outer) && Physical(w.inner) && w.outer != w.inner
    && Ancestors(w.outer) == {} && Ancestors(w.inner) == {w.outer}
  }

  lemma SomeAreNested()
    ensures Nested(Names(OUTER, INNER))
  {
    OuterIsPhysical();
    InnerIsPhysical();
    FoldersAbove();
  }
}
