/** The same told by the delta and the namespace alone, for deltas that keep the names of conflict
    copies apart: a copy is made where a folder replaces a file, and the host's own entry under
    its name, if there is one, settles the copy, displaces it, or is overruled by it. */
module ConflictNames {
  import opened Records
  import opened Paths
  import opened Replicas
  import opened Merges
  import opened Ordering
  import opened Deltas
  import opened Layouts
  import opened TreeApplication

  predicate PutsFolder(m: Namespace, e: Entry) {
    e.content.kind == Directory && Is(m, e.content.path, File)
  }

  /** What a file is kept as when a folder of the host replaces it, */
  function FirstCopy(env: Env, m: Namespace, e: Entry): Content
    requires e.content.path in m
  {
    var c := m[e.content.path].content;
    c.(path := ConflictPath(e.content.path, env.tag(VersionOf(c))), clock := e.content.clock)
  }

  /** where such a copy goes when it is displaced in turn, */
  function SecondName(env: Env, c: Content): Path {
    ConflictPath(c.path, env.tag(VersionOf(c)))
  }

  /** and what becomes of it when the host has an entry of its own under its name. */
  function MetCopy(env: Env, c: Content, e: Entry): Option<Content> {
    if Compare(c.clock, e.content.clock) == Greater || ContentEqual(e.content, c) then None
    else Some(c.(path := SecondName(env, c), clock := e.content.clock))
  }

  /** No other copy gets a copy's name, the delta names nothing below it, and where it names the
      copy with a folder, there was no file before. */
  ghost predicate KeepsApart(env: Env, m: Namespace, delta: seq<Entry>, i: nat)
    requires i < |delta| && PutsFolder(m, delta[i])
  {
    var c := FirstCopy(env, m, delta[i]);
    && (forall j | 0 <= j < |delta| :: NamesNothing(m, delta[j], c.path, SecondName(env, c)))
    && (forall j | 0 <= j < |delta| && PutsFolder(m, delta[j]) ::
          && (j != i ==> FirstCopy(env, m, delta[j]).path != c.path)
          && (j != i ==> SecondName(env, FirstCopy(env, m, delta[j])) != SecondName(env, c))
          && FirstCopy(env, m, delta[j]).path != SecondName(env, c))
  }

  predicate NamesNothing(m: Namespace, e: Entry, first: Path, second: Path) {
    var p := e.content.path;
    !Below(p, first) && !Below(p, second) && p != second && !(p == first && PutsFolder(m, e))
  }

  ghost predicate NamesApart(env: Env, m: Namespace, delta: seq<Entry>) {
    forall i | 0 <= i < |delta| && PutsFolder(m, delta[i]) :: KeepsApart(env, m, delta, i)
  }

  /** The `k`-th entry is the host's own under the name of the copy the `i`-th leaves. */
  predicate Meets(env: Env, m: Namespace, delta: seq<Entry>, i: nat, k: nat)
    requires i < |delta| && k < |delta|
  {
    i < k && PutsFolder(m, delta[i]) && delta[k].content.path == FirstCopy(env, m, delta[i]).path
  }

  // ---------------------------------------------------------------- which copies are made

  lemma MeetsOne(env: Env, m: Namespace, delta: seq<Entry>, i: nat, j: nat, k: nat)
    requires NamesApart(env, m, delta) && i < |delta| && j < |delta| && k < |delta|
    requires Meets(env, m, delta, i, k) && Meets(env, m, delta, j, k)
    ensures i == j
  {
    assert KeepsApart(env, m, delta, i);
  }

  lemma MetIsNoReplacement(env: Env, m: Namespace, delta: seq<Entry>, i: nat, k: nat)
    requires NamesApart(env, m, delta) && i < |delta| && k < |delta| && Meets(env, m, delta, i, k)
    ensures !PutsFolder(m, delta[k])
  {
    assert KeepsApart(env, m, delta, i) && NamesNothing(m, delta[k], FirstCopy(env, m, delta[i]).path,
                                                   SecondName(env, FirstCopy(env, m, delta[i])));
  }

  /** The three ways an entry can go. */
  ghost predicate Leaves(env: Env, m: Namespace, delta: seq<Entry>, k: nat)
    requires k < |delta|
  {
    && (PutsFolder(m, delta[k]) ==> CopyOfEntry(env, m, delta, k) == Some(FirstCopy(env, m, delta[k])))
    && (forall i | 0 <= i < k && Meets(env, m, delta, i, k) ::
          CopyOfEntry(env, m, delta, k) == MetCopy(env, FirstCopy(env, m, delta[i]), delta[k]))
    && (!PutsFolder(m, delta[k]) && (forall i | 0 <= i < k :: !Meets(env, m, delta, i, k)) ==>
          CopyOfEntry(env, m, delta, k) == None)
  }

  /** A copy has the name of a replaced file's copy, or of such a copy's copy. */
  lemma CopyHasAName(env: Env, m: Namespace, delta: seq<Entry>, k: nat, p: Path) returns (i: nat)
    requires k < |delta| && Leaves(env, m, delta, k) && CopiesTo(env, m, delta, k, p)
    ensures i <= k && PutsFolder(m, delta[i])
    ensures (i == k && p == FirstCopy(env, m, delta[i]).path)
            || (Meets(env, m, delta, i, k) && p == SecondName(env, FirstCopy(env, m, delta[i])))
  {
    if PutsFolder(m, delta[k]) {
      i := k;
    } else {
      i :| 0 <= i < k && Meets(env, m, delta, i, k);
    }
  }

  ghost predicate AllLeave(env: Env, m: Namespace, delta: seq<Entry>, k: nat)
    requires k <= |delta|
  {
    forall i | 0 <= i < k :: Leaves(env, m, delta, i)
  }

  /** A copy that lies under an entry's path is one the entry meets. */
  lemma CopyUnderEntry(env: Env, m: Namespace, delta: seq<Entry>, j: nat, k: nat)
    requires NamesApart(env, m, delta) && j < k < |delta| && Leaves(env, m, delta, j)
    ensures CopiesTo(env, m, delta, j, delta[k].content.path) <==> Meets(env, m, delta, j, k)
  {
    var p := delta[k].content.path;
    if CopiesTo(env, m, delta, j, p) {
      var i := CopyHasAName(env, m, delta, j, p);
      assert KeepsApart(env, m, delta, i);
      assert NamesNothing(m, delta[k], FirstCopy(env, m, delta[i]).path, SecondName(env, FirstCopy(env, m, delta[i])));
    }
  }

  lemma MetIsOwned(env: Env, m: Namespace, delta: seq<Entry>, i: nat, k: nat)
    requires Once(delta) && NamesApart(env, m, delta) && k < |delta| && AllLeave(env, m, delta, k)
    requires i < k && Meets(env, m, delta, i, k)
    ensures var l, p := After(env, m, delta, k), delta[k].content.path;
            Owned(l, p) && l[p].content == FirstCopy(env, m, delta[i])
  {
    var p := delta[k].content.path;
    CopyUnderEntry(env, m, delta, i, k);
    OwnedLater(env, m, delta, 0, k, p);
    var j := OwnedIsACopy(env, m, delta, k, p);
    CopyUnderEntry(env, m, delta, j, k);
    MeetsOne(env, m, delta, i, j, k);
  }

  lemma UnmetIsNotOwned(env: Env, m: Namespace, delta: seq<Entry>, k: nat)
    requires Once(delta) && NamesApart(env, m, delta) && k < |delta| && AllLeave(env, m, delta, k)
    requires forall i | 0 <= i < k :: !Meets(env, m, delta, i, k)
    ensures var l, p := After(env, m, delta, k), delta[k].content.path;
            !Owned(l, p) && (p in l <==> p in m) && (p in m ==> l[p].content == m[p].content)
  {
    var p := delta[k].content.path;
    OwnedLater(env, m, delta, 0, k, p);
    forall i | 0 <= i < k ensures !CopiesTo(env, m, delta, i, p) { CopyUnderEntry(env, m, delta, i, k); }
    AfterTracks(env, m, delta, k);
    assert TracksAt(After(env, m, delta, k), Mixed(m, delta, k), delta, k, p);
    MixedOther(m, delta, k, p);
  }

  lemma LeavesMet(env: Env, m: Namespace, delta: seq<Entry>, i: nat, k: nat)
    requires Once(delta) && NamesApart(env, m, delta) && k < |delta| && AllLeave(env, m, delta, k)
    requires i < k && Meets(env, m, delta, i, k) && Is(m, delta[i].content.path, File)
    ensures CopyOfEntry(env, m, delta, k) == MetCopy(env, FirstCopy(env, m, delta[i]), delta[k])
  {
    MetIsOwned(env, m, delta, i, k);
  }

  lemma EntryLeaves(env: Env, m: Namespace, delta: seq<Entry>, k: nat)
    requires Once(delta) && NamesApart(env, m, delta) && k < |delta| && AllLeave(env, m, delta, k)
    ensures Leaves(env, m, delta, k)
  {
    if i :| 0 <= i < k && Meets(env, m, delta, i, k) {
      MetIsNoReplacement(env, m, delta, i, k);
      forall j | 0 <= j < k && Meets(env, m, delta, j, k)
        ensures CopyOfEntry(env, m, delta, k) == MetCopy(env, FirstCopy(env, m, delta[j]), delta[k])
      {
        LeavesMet(env, m, delta, j, k);
      }
    } else {
      UnmetIsNotOwned(env, m, delta, k);
    }
  }

  lemma {:induction false} EntriesLeave(env: Env, m: Namespace, delta: seq<Entry>, k: nat)
    requires Once(delta) && NamesApart(env, m, delta) && k <= |delta|
    ensures AllLeave(env, m, delta, k)
  {
    if k > 0 {
      EntriesLeave(env, m, delta, k - 1);
      EntryLeaves(env, m, delta, k - 1);
    }
  }

  // ---------------------------------------------------------------- what stops a pull

  predicate Serves(physical: Path -> bool, now: Namespace, copy: Content) {
    physical(copy.path) && (Alive(now, copy.path) ==>
                              Is(now, copy.path, File) && now[copy.path].content.hash == copy.hash)
  }

  predicate Blocked(m: Namespace, delta: seq<Entry>, k: nat)
    requires k < |delta|
  {
    delta[k].content.kind == Deleted && exists a | a in Ancestors(delta[k].content.path) :: Blocks(m, delta, a)
  }

  /** A folder replaces a file whose conflict name is taken by something else or has no place. */
  predicate NameTaken(env: Env, physical: Path -> bool, m: Namespace, delta: seq<Entry>, k: nat)
    requires k < |delta|
  {
    PutsFolder(m, delta[k]) && !Serves(physical, Mixed(m, delta, k), FirstCopy(env, m, delta[k]))
  }

  /** The host's own entry displaces a copy, and that one's conflict name does not serve. */
  predicate SecondTaken(env: Env, physical: Path -> bool, m: Namespace, delta: seq<Entry>, i: nat, k: nat)
    requires i < |delta| && k < |delta|
  {
    && Meets(env, m, delta, i, k) && MetCopy(env, FirstCopy(env, m, delta[i]), delta[k]).Some?
    && !Serves(physical, m, MetCopy(env, FirstCopy(env, m, delta[i]), delta[k]).value)
  }

  /** Nothing of the mirror's own lies at a path that is the name of no copy. */
  lemma NotACopysName(env: Env, m: Namespace, delta: seq<Entry>, k: nat, p: Path)
    requires Once(delta) && NamesApart(env, m, delta) && k <= |delta|
    requires forall i | 0 <= i < k && PutsFolder(m, delta[i]) ::
               p != FirstCopy(env, m, delta[i]).path && p != SecondName(env, FirstCopy(env, m, delta[i]))
    ensures TracksUnowned(After(env, m, delta, k), Mixed(m, delta, k), p)
  {
    EntriesLeave(env, m, delta, k);
    if Owned(After(env, m, delta, k), p) {
      var j := OwnedWasLeft(env, m, delta, k, p);
      var i := CopyHasAName(env, m, delta, j, p);
    }
    AfterTracks(env, m, delta, k);
    assert TracksAt(After(env, m, delta, k), Mixed(m, delta, k), delta, k, p);
  }

  predicate TracksUnowned(l: Layout, now: Namespace, p: Path) {
    !Owned(l, p) && (p in l <==> p in now) && (p in l ==> l[p].content == now[p].content)
  }

  lemma HiddenIsBlocked(env: Env, m: Namespace, delta: seq<Entry>, k: nat)
    requires Leads(m, delta) && NamesApart(env, m, delta) && k < |delta|
    ensures Hidden(After(env, m, delta, k), delta[k]) <==> Blocked(m, delta, k)
  {
    var l, now := After(env, m, delta, k), Mixed(m, delta, k);
    forall a | a in Ancestors(delta[k].content.path)
      ensures At(l, a, File) <==> delta[k].content.kind == Deleted && Blocks(m, delta, a)
    {
      AncestorIsNoName(env, m, delta, k, a);
      NotACopysName(env, m, delta, k, a);
      if delta[k].content.kind != Deleted { FoldersComeFirst(m, delta, k, a); } else {
        BlockedWhenLookedUp(m, delta, k, a);
      }
    }
  }

  lemma AncestorIsNoName(env: Env, m: Namespace, delta: seq<Entry>, k: nat, a: Path)
    requires NamesApart(env, m, delta) && k < |delta| && a in Ancestors(delta[k].content.path)
    ensures forall i | 0 <= i < |delta| && PutsFolder(m, delta[i]) ::
              a != FirstCopy(env, m, delta[i]).path && a != SecondName(env, FirstCopy(env, m, delta[i]))
  {
    AncestorsAreTheFoldersAbove(delta[k].content.path, a);
    forall i | 0 <= i < |delta| && PutsFolder(m, delta[i])
      ensures a != FirstCopy(env, m, delta[i]).path && a != SecondName(env, FirstCopy(env, m, delta[i]))
    {
      assert KeepsApart(env, m, delta, i);
      assert NamesNothing(m, delta[k], FirstCopy(env, m, delta[i]).path, SecondName(env, FirstCopy(env, m, delta[i])));
    }
  }

  lemma FirstNameIsFree(env: Env, m: Namespace, delta: seq<Entry>, k: nat)
    requires Once(delta) && NamesApart(env, m, delta) && k < |delta| && PutsFolder(m, delta[k])
    ensures TracksUnowned(After(env, m, delta, k), Mixed(m, delta, k), FirstCopy(env, m, delta[k]).path)
  {
    assert KeepsApart(env, m, delta, k);
    forall i | 0 <= i < k && PutsFolder(m, delta[i])
      ensures FirstCopy(env, m, delta[k]).path != FirstCopy(env, m, delta[i]).path
      ensures FirstCopy(env, m, delta[k]).path != SecondName(env, FirstCopy(env, m, delta[i]))
    {
      assert KeepsApart(env, m, delta, i);
    }
    NotACopysName(env, m, delta, k, FirstCopy(env, m, delta[k]).path);
  }

  lemma SecondNameIsFree(env: Env, m: Namespace, delta: seq<Entry>, i: nat, k: nat)
    requires Once(delta) && NamesApart(env, m, delta) && k < |delta| && i < k && Meets(env, m, delta, i, k)
    ensures TracksUnowned(After(env, m, delta, k), m, SecondName(env, FirstCopy(env, m, delta[i])))
  {
    var u := SecondName(env, FirstCopy(env, m, delta[i]));
    EntriesLeave(env, m, delta, k);
    assert KeepsApart(env, m, delta, i);
    if Owned(After(env, m, delta, k), u) {
      var j := OwnedWasLeft(env, m, delta, k, u);
      var h := CopyHasAName(env, m, delta, j, u);
    }
    AfterTracks(env, m, delta, k);
    assert TracksAt(After(env, m, delta, k), Mixed(m, delta, k), delta, k, u);
    forall j | 0 <= j < k ensures delta[j].content.path != u {
      assert NamesNothing(m, delta[j], FirstCopy(env, m, delta[i]).path, u);
    }
    MixedOther(m, delta, k, u);
  }

  lemma UsableIsServing(physical: Path -> bool, l: Layout, now: Namespace, copy: Content)
    requires TracksUnowned(l, now, copy.path)
    ensures Usable(physical, l, copy) <==> Serves(physical, now, copy)
  {
  }

  /** What stops an entry, in terms of the delta and the namespace. */
  ghost predicate StopsPlainly(env: Env, physical: Path -> bool, m: Namespace, delta: seq<Entry>, k: nat)
    requires k < |delta|
  {
    || Blocked(m, delta, k)
    || NameTaken(env, physical, m, delta, k)
    || exists i | 0 <= i < k :: SecondTaken(env, physical, m, delta, i, k)
  }

  lemma StoppedIff(env: Env, physical: Path -> bool, m: Namespace, delta: seq<Entry>, k: nat)
    requires Leads(m, delta) && NamesApart(env, m, delta) && k < |delta|
    ensures Stopped(env, physical, m, delta, k) <==> StopsPlainly(env, physical, m, delta, k)
  {
    HiddenIsBlocked(env, m, delta, k);
    EntriesLeave(env, m, delta, |delta|);
    assert Leaves(env, m, delta, k);
    if PutsFolder(m, delta[k]) {
      ReplacementStops(env, physical, m, delta, k);
    } else if i :| 0 <= i < k && Meets(env, m, delta, i, k) {
      MeetingStops(env, physical, m, delta, i, k);
    }
  }

  lemma ReplacementStops(env: Env, physical: Path -> bool, m: Namespace, delta: seq<Entry>, k: nat)
    requires Once(delta) && NamesApart(env, m, delta) && k < |delta| && PutsFolder(m, delta[k])
    requires Leaves(env, m, delta, k)
    ensures forall i | 0 <= i < k :: !Meets(env, m, delta, i, k)
    ensures CopyOfEntry(env, m, delta, k).Some?
    ensures !Usable(physical, After(env, m, delta, k), CopyOfEntry(env, m, delta, k).value)
            <==> NameTaken(env, physical, m, delta, k)
  {
    forall i | 0 <= i < k ensures !Meets(env, m, delta, i, k) {
      if Meets(env, m, delta, i, k) { MetIsNoReplacement(env, m, delta, i, k); }
    }
    FirstNameIsFree(env, m, delta, k);
    UsableIsServing(physical, After(env, m, delta, k), Mixed(m, delta, k), FirstCopy(env, m, delta[k]));
  }

  lemma MeetingStops(env: Env, physical: Path -> bool, m: Namespace, delta: seq<Entry>, i: nat, k: nat)
    requires Once(delta) && NamesApart(env, m, delta) && k < |delta| && Leaves(env, m, delta, k)
    requires i < k && Meets(env, m, delta, i, k)
    ensures CopyOfEntry(env, m, delta, k).Some?
            && !Usable(physical, After(env, m, delta, k), CopyOfEntry(env, m, delta, k).value)
            <==> SecondTaken(env, physical, m, delta, i, k)
    ensures forall j | 0 <= j < k && SecondTaken(env, physical, m, delta, j, k) :: j == i
  {
    forall j | 0 <= j < k && SecondTaken(env, physical, m, delta, j, k) ensures j == i {
      MeetsOne(env, m, delta, i, j, k);
    }
    var copy := MetCopy(env, FirstCopy(env, m, delta[i]), delta[k]);
    assert CopyOfEntry(env, m, delta, k) == copy;
    if copy.Some? {
      SecondNameIsFree(env, m, delta, i, k);
      UsableIsServing(physical, After(env, m, delta, k), m, copy.value);
    }
  }

  // ---------------------------------------------------------------- where the mirror agrees

  /** No copy the entry meets has a clock ahead of the entry's own. */
  ghost predicate NotOverruled(env: Env, m: Namespace, delta: seq<Entry>, k: nat)
    requires k < |delta|
  {
    forall i | 0 <= i < k && Meets(env, m, delta, i, k) ::
      Compare(delta[i].content.clock, delta[k].content.clock) != Greater
  }

  lemma OverruledIff(env: Env, m: Namespace, delta: seq<Entry>, k: nat)
    requires Once(delta) && NamesApart(env, m, delta) && k < |delta|
    ensures (forall i | 0 <= i < k :: !Overruled(env, m, delta, i, k)) <==> NotOverruled(env, m, delta, k)
  {
    EntriesLeave(env, m, delta, |delta|);
    forall i | 0 <= i < k
      ensures Overruled(env, m, delta, i, k)
              <==> Meets(env, m, delta, i, k) && Compare(delta[i].content.clock, delta[k].content.clock) == Greater
    {
      CopyUnderEntry(env, m, delta, i, k);
      forall j | i < j < k && Meets(env, m, delta, i, k) ensures !CopiesTo(env, m, delta, j, delta[k].content.path) {
        CopyUnderEntry(env, m, delta, j, k);
        if Meets(env, m, delta, j, k) { MeetsOne(env, m, delta, i, j, k); }
      }
    }
  }

  /** When nothing stops the pull, no copy is put where an entry was before: a folder that came
      first would have taken the name. */
  lemma NotCopiedOver(env: Env, physical: Path -> bool, m: Namespace, delta: seq<Entry>, k: nat, i: nat)
    requires Leads(m, delta) && NamesApart(env, m, delta) && k < i < |delta|
    requires !Stopped(env, physical, m, delta, i)
    ensures !CopiesTo(env, m, delta, i, delta[k].content.path)
  {
    EntriesLeave(env, m, delta, |delta|);
    assert Leaves(env, m, delta, i);
    var p := delta[k].content.path;
    if CopiesTo(env, m, delta, i, p) {
      var j := CopyHasAName(env, m, delta, i, p);
      assert KeepsApart(env, m, delta, j);
      assert NamesNothing(m, delta[k], FirstCopy(env, m, delta[j]).path, SecondName(env, FirstCopy(env, m, delta[j])));
      assert j == i;
      assert Structured(delta[k].content, delta[i].content);
      MixedNamed(m, delta, i, k);
      StoppedIff(env, physical, m, delta, i);
      assert NameTaken(env, physical, m, delta, i);
    }
  }

  /** For such deltas: a pull that nothing stops ends in agreement at an entry's path exactly
      when no copy the entry meets has a clock ahead of it, */
  lemma NamedAgreesPlainly(env: Env, physical: Path -> bool, m: Namespace, delta: seq<Entry>, k: nat)
    requires Leads(m, delta) && NamesApart(env, m, delta) && k < |delta|
    requires NoneStopped(env, physical, m, delta, |delta|)
    ensures Agrees(After(env, m, delta, |delta|), Through(m, delta), delta[k].content.path)
            <==> NotOverruled(env, m, delta, k)
  {
    NamedAgreesIff(env, m, delta, k);
    OverruledIff(env, m, delta, k);
    forall i | k < i < |delta| ensures !CopiesTo(env, m, delta, i, delta[k].content.path) {
      NotCopiedOver(env, physical, m, delta, k, i);
    }
  }

  /** The names under which conflict copies are left. */
  ghost predicate KeepsCopyAt(env: Env, m: Namespace, delta: seq<Entry>, p: Path) {
    || (exists i | 0 <= i < |delta| :: PutsFolder(m, delta[i]) && p == FirstCopy(env, m, delta[i]).path)
    || (exists i, k | 0 <= i < k < |delta| ::
          Meets(env, m, delta, i, k) && MetCopy(env, FirstCopy(env, m, delta[i]), delta[k]).Some?
          && p == SecondName(env, FirstCopy(env, m, delta[i])))
  }

  /** and at any other path exactly when it is no name of a copy. */
  lemma UnnamedAgreesPlainly(env: Env, m: Namespace, delta: seq<Entry>, p: Path)
    requires Once(delta) && NamesApart(env, m, delta) && forall i | 0 <= i < |delta| :: delta[i].content.path != p
    ensures Agrees(After(env, m, delta, |delta|), Through(m, delta), p) <==> !KeepsCopyAt(env, m, delta, p)
  {
    EntriesLeave(env, m, delta, |delta|);
    UnnamedAgreesIff(env, m, delta, p);
    if k :| 0 <= k < |delta| && CopiesTo(env, m, delta, k, p) {
      assert Leaves(env, m, delta, k);
      var i := CopyHasAName(env, m, delta, k, p);
      if i < k { assert CopyOfEntry(env, m, delta, k) == MetCopy(env, FirstCopy(env, m, delta[i]), delta[k]); }
    }
    forall i | 0 <= i < |delta| && PutsFolder(m, delta[i]) && p == FirstCopy(env, m, delta[i]).path
      ensures CopiesTo(env, m, delta, i, p)
    {
      assert Leaves(env, m, delta, i);
    }
    forall i, k | 0 <= i < k < |delta| && Meets(env, m, delta, i, k)
                  && MetCopy(env, FirstCopy(env, m, delta[i]), delta[k]).Some?
                  && p == SecondName(env, FirstCopy(env, m, delta[i]))
      ensures CopiesTo(env, m, delta, k, p)
    {
      assert Leaves(env, m, delta, k);
    }
  }
}
