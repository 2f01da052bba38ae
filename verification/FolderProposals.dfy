/** A folder proposed over a file: the authority records the conflict copy and the folder, and
    every other mirror that held the file ends in full agreement with it. */
module FolderProposals {
  import opened Records
  import opened Paths
  import opened NamespaceJournal
  import opened JournalPages
  import opened Trees
  import opened Replicas
  import opened Merges
  import opened MergeSafety
  import opened MergeConditions
  import opened Ordering
  import HostVersions
  import opened Deltas
  import opened Layouts
  import opened TreeApplication
  import opened ConflictNames
  import opened DeltaApplication

  // ---------------------------------------------------------------- at the authority

  /** A folder is proposed where the authority has a file, and the file's conflict name is new. */
  ghost predicate OffersFolder(env: Env, s: Replica, e: Entry) {
    var p := e.content.path;
    && Inv(s) && !s.Mirror() && e.IsPending() && e.content.kind == Directory && e.version == VersionOf(e.content)
    && p in s.rows && s.rows[p].entry.content.kind == File && HostVersions.UpToDate(s, p)
    && CopyRecord(env, s, e).content.path !in s.rows && CopyRecord(env, s, e).content.path !in s.tree
  }

  function CopyRecord(env: Env, s: Replica, e: Entry): Record
    requires e.content.path in s.rows
  {
    var file := s.rows[e.content.path].entry;
    Versioned(file.content.(path := ConflictPath(e.content.path, env.tag(file.version)), clock := ClockFor(s, e)))
  }

  function FolderRecord(s: Replica, e: Entry): Record {
    Versioned(e.content.(clock := ClockFor(s, e)))
  }

  function FolderDecision(): Decision {
    Decision(false, false, true, true, false)
  }

  lemma FolderIsDecided(env: Env, s: Replica, e: Entry)
    requires OffersFolder(env, s, e)
    ensures Relate(s, e) in {Ahead, Apart} && Decide(env, s, e, Relate(s, e)) == FolderDecision()
    ensures Refresh(s, e.content.path, CauseOf(e)) == Some(s)
  {
    assert RowOk(s, e.content.path);
    HostVersions.NoNewLook(s, e.content.path, CauseOf(e));
  }

  lemma FolderRoute(s: Replica, peer: string, e: Entry, relation: Relation)
    requires !s.Mirror() && relation in {Ahead, Apart}
    ensures var route := RouteWith(s, peer, e, true, relation, FolderDecision());
            route == Carry(FolderDecision()) || route.Refuse?
  {
  }

  lemma RefusedIsNotComplete(env: Env, s: Replica, peer: string, e: Entry)
    requires Refresh(s, e.content.path, CauseOf(e)) == Some(s) && RouteOf(env, s, peer, e, true).Refuse?
    ensures Merge(env, s, peer, e, true).reply != Complete
  {
  }

  lemma FolderIsCarried(env: Env, s: Replica, peer: string, e: Entry)
    requires OffersFolder(env, s, e) && Merge(env, s, peer, e, true).reply == Complete
    ensures Merge(env, s, peer, e, true) == Apply(env, s, peer, e, FolderDecision(), CauseOf(e))
  {
    FolderIsDecided(env, s, e);
    FolderRoute(s, peer, e, Relate(s, e));
    if RouteOf(env, s, peer, e, true).Refuse? {
      RefusedIsNotComplete(env, s, peer, e);
    } else {
      MergeCarries(env, s, peer, e, FolderDecision());
    }
  }

  /** A save at the authority of what no revision of the path says appends one that does. */
  lemma SaveAppends(s: Replica, e: Entry, stamp: Stamp, cause: Proposal)
    requires !s.Mirror() && Save(s, e, stamp, cause).Some?
    requires var prior := LatestOf(s.log, e.content.path);
             prior.Some? ==> prior.value.body.entry.version != VersionOf(e.content)
    ensures var s' := Save(s, e, stamp, cause).value;
            && |s'.log| == |s.log| + 1 && s.log <= s'.log && s'.log[|s.log|].body.entry == Versioned(e.content)
            && s'.ledger == s.ledger && s'.host == s.host
  {
  }

  lemma CopyIsSaved(env: Env, s: Replica, peer: string, e: Entry, cause: Proposal)
    requires OffersFolder(env, s, e) && Kept(env, s, peer, e, FolderDecision(), cause).Some?
    ensures var kept := Kept(env, s, peer, e, FolderDecision(), cause).value;
            && |kept.log| == |s.log| + 1 && s.log <= kept.log && kept.log[|s.log|].body.entry == CopyRecord(env, s, e)
            && kept.host == s.host
  {
    var p, loser := e.content.path, EntryOf(s.rows[e.content.path]);
    FreshFile(s, p);
    var copy := CopyOf(env, p, loser, ClockFor(s, e));
    PlaceCopyKeeps(s, peer, e, loser, true, copy.content.path);
    var placed := PlaceCopy(s, peer, e, loser, true, copy.content.path).value;
    LatestIsMember(s.log, copy.content.path);
    SaveAppends(placed, copy, StampOf(placed.tree, copy.content.path), cause);
  }

  lemma FolderIsSaved(s: Replica, kept: Replica, made: Replica, e: Entry, copy: Path, stamp: Stamp, cause: Proposal)
    requires !s.Mirror() && e.content.kind == Directory && copy != e.content.path
    requires kept.host == s.host && |kept.log| == |s.log| + 1 && s.log <= kept.log && kept.log[|s.log|].Path() == copy
    requires LatestOf(s.log, e.content.path).Some?
    requires LatestOf(s.log, e.content.path).value.body.entry.version
             == VersionOf(LatestOf(s.log, e.content.path).value.body.entry.content)
    requires LatestOf(s.log, e.content.path).value.body.entry.content.kind == File
    requires made.log == kept.log && made.host == kept.host && Save(made, e, stamp, cause).Some?
    ensures var s' := Save(made, e, stamp, cause).value;
            && |s'.log| == |s.log| + 2 && kept.log <= s'.log && s'.log[|s.log| + 1].body.entry == Versioned(e.content)
  {
    LatestAfterAppend(s.log, kept.log[|s.log|], e.content.path);
    assert kept.log == s.log + [kept.log[|s.log|]];
    SaveAppends(made, e, stamp, cause);
  }

  lemma AppliedFolder(env: Env, s: Replica, peer: string, e: Entry, cause: Proposal)
    returns (kept: Replica, made: Replica)
    requires OffersFolder(env, s, e) && Apply(env, s, peer, e, FolderDecision(), cause).reply == Complete
    ensures Kept(env, s, peer, e, FolderDecision(), cause) == Some(kept)
    ensures made.log == kept.log && made.host == kept.host
    ensures var folder := e.(content := e.content.(clock := ClockFor(s, e)));
            Apply(env, s, peer, e, FolderDecision(), cause)
            == SaveOrFail(made, folder, StampOf(made.tree, e.content.path), cause)
  {
    kept := Kept(env, s, peer, e, FolderDecision(), cause).value;
    var local := LocalRow(s, e.content.path);
    made := Made(kept, peer, e, FolderDecision(), local).value;
    MaterializeKeeps(kept, peer, e, local);
  }

  /** When the authority takes the folder, its journal gains exactly the copy and the folder, both
      under the joined clock. */
  lemma BothAreRecorded(env: Env, s: Replica, peer: string, e: Entry)
    requires OffersFolder(env, s, e) && Merge(env, s, peer, e, true).reply == Complete
    ensures var log := Merge(env, s, peer, e, true).state.log;
            && s.log <= log && |log| == |s.log| + 2
            && log[|s.log|].body.entry == CopyRecord(env, s, e) && log[|s.log| + 1].body.entry == FolderRecord(s, e)
  {
    var p, cause := e.content.path, CauseOf(e);
    FolderIsCarried(env, s, peer, e);
    var kept, made := AppliedFolder(env, s, peer, e, cause);
    CopyIsSaved(env, s, peer, e, cause);
    assert RowOk(s, p);
    LatestEntry(s.log, s.ledger, p);
    ConflictPathDiffers(p, env.tag(s.rows[p].entry.version));
    FolderIsSaved(s, kept, made, e.(content := e.content.(clock := ClockFor(s, e))), CopyRecord(env, s, e).content.path,
                  StampOf(made.tree, p), cause);
  }

  // ---------------------------------------------------------------- at another mirror

  /** A journal that ends with a file's copy and the folder that replaced it. */
  ghost predicate EndsWithFolder(env: Env, m: Namespace, log: Log, n: nat, p: Path) {
    && |log| == n + 2 && Is(m, p, File) && log[n + 1].Path() == p
    && log[n + 1].body.entry.content.kind == Directory
    && log[n].body.entry.content == FirstCopy(env, m, Project(log[n + 1]))
    && log[n].Path() !in m && log[n].Path() != p
  }

  lemma TwoRows(log: Log, n: nat)
    requires |log| == n + 2 && log[n].Path() != log[n + 1].Path()
    ensures Projected(Select(log, false, n, n + 2)) == [Project(log[n]), Project(log[n + 1])]
  {
    assert Newest(log, n, n + 2) && Newest(log, n + 1, n + 2);
    assert Select(log, false, n + 2, n + 2) == [];
    assert Select(log, false, n + 1, n + 2) == [log[n + 1]];
    assert Select(log, false, n, n + 2) == [log[n]] + [log[n + 1]] == [log[n], log[n + 1]];
  }

  lemma TwoOf(delta: seq<Entry>, a: Entry, b: Entry)
    requires multiset(delta) == multiset([a, b])
    ensures delta == [a, b] || delta == [b, a]
  {
    assert |multiset(delta)| == |delta| == 2;
    assert delta[0] in multiset(delta) && delta[1] in multiset(delta);
    assert delta == [delta[0], delta[1]];
    if delta[0] == delta[1] {
      assert multiset([a, b])[delta[0]] == 2;
    }
  }

  /** The folder is pulled first. */
  lemma FolderFirst(env: Env, m: Namespace, log: Log, n: nat, p: Path, delta: seq<Entry>)
    requires EndsWithFolder(env, m, log, n, p) && Arranged(delta)
    requires multiset(delta) == multiset(Projected(Select(log, false, n, n + 2)))
    ensures delta == [Project(log[n + 1]), Project(log[n])]
  {
    TwoRows(log, n);
    TwoOf(delta, Project(log[n]), Project(log[n + 1]));
    InTurn(delta, 0, 1);
  }

  /** A folder that replaces a file, and an entry under that file's conflict name. */
  ghost predicate FolderThenName(env: Env, m: Namespace, delta: seq<Entry>) {
    && |delta| == 2 && PutsFolder(m, delta[0]) && delta[1].content.path == FirstCopy(env, m, delta[0]).path
    && delta[1].content.path !in m && delta[0].content.path != delta[1].content.path
  }

  ghost predicate FolderThenCopy(env: Env, m: Namespace, delta: seq<Entry>) {
    FolderThenName(env, m, delta) && delta[1].content == FirstCopy(env, m, delta[0])
  }

  lemma CompareSelf(c: Clock)
    ensures Compare(c, c) == Order.Equal
  {
  }

  lemma NamesOfTwo(p: Path, first: Tag, second: Tag)
    ensures var q := ConflictPath(p, first); var u := ConflictPath(q, second);
            && !Below(p, q) && !Below(q, q) && !Below(p, u) && !Below(q, u) && p != u && q != u
  {
    var q := ConflictPath(p, first);
    ConflictPathShape(p, first);
    ConflictPathShape(q, second);
    NoneBelow(p, q);
    NoneBelow(q, q);
    NoneBelow(p, ConflictPath(q, second));
    NoneBelow(q, ConflictPath(q, second));
    SecondCopyDiffers(p, first, second);
    ConflictPathDiffers(q, second);
  }

  lemma TwoNameNothing(env: Env, m: Namespace, delta: seq<Entry>)
    requires FolderThenName(env, m, delta)
    ensures var c := FirstCopy(env, m, delta[0]);
            && NamesNothing(m, delta[0], c.path, SecondName(env, c))
            && NamesNothing(m, delta[1], c.path, SecondName(env, c))
            && c.path != SecondName(env, c)
  {
    var file := m[delta[0].content.path].content;
    NamesOfTwo(delta[0].content.path, env.tag(VersionOf(file)), env.tag(VersionOf(FirstCopy(env, m, delta[0]))));
  }

  lemma FolderNamesApart(env: Env, m: Namespace, delta: seq<Entry>)
    requires FolderThenName(env, m, delta)
    ensures NamesApart(env, m, delta) && !PutsFolder(m, delta[1])
  {
    TwoNameNothing(env, m, delta);
    OnlyOneApart(env, m, delta, FirstCopy(env, m, delta[0]));
  }

  lemma OnlyOneApart(env: Env, m: Namespace, delta: seq<Entry>, c: Content)
    requires |delta| == 2 && PutsFolder(m, delta[0]) && !PutsFolder(m, delta[1]) && c == FirstCopy(env, m, delta[0])
    requires NamesNothing(m, delta[0], c.path, SecondName(env, c))
    requires NamesNothing(m, delta[1], c.path, SecondName(env, c))
    requires c.path != SecondName(env, c)
    ensures NamesApart(env, m, delta)
  {
    forall j | 0 <= j < |delta| ensures NamesNothing(m, delta[j], c.path, SecondName(env, c)) {
      assert j == 0 || j == 1;
    }
    forall j | 0 <= j < |delta| && PutsFolder(m, delta[j]) ensures j == 0 {
      assert j == 0 || j == 1;
    }
    assert KeepsApart(env, m, delta, 0);
  }

  lemma CopyIsMet(env: Env, m: Namespace, delta: seq<Entry>)
    requires FolderThenCopy(env, m, delta)
    ensures MetCopy(env, FirstCopy(env, m, delta[0]), delta[1]) == None
    ensures Compare(delta[0].content.clock, delta[1].content.clock) != Greater
  {
    CompareSelf(delta[0].content.clock);
  }

  lemma FolderIsNotStopped(env: Env, physical: Path -> bool, m: Namespace, delta: seq<Entry>)
    requires |delta| == 2 && PutsFolder(m, delta[0]) && FirstCopy(env, m, delta[0]).path !in m
    requires physical(FirstCopy(env, m, delta[0]).path)
    ensures !StopsPlainly(env, physical, m, delta, 0)
  {
    assert Mixed(m, delta, 0) == m;
  }

  lemma CopyIsNotStopped(env: Env, physical: Path -> bool, m: Namespace, delta: seq<Entry>)
    requires |delta| == 2 && PutsFolder(m, delta[0]) && delta[1].content.kind == File
    requires MetCopy(env, FirstCopy(env, m, delta[0]), delta[1]) == None
    ensures !StopsPlainly(env, physical, m, delta, 1)
  {
    forall i | 0 <= i < 1 ensures !SecondTaken(env, physical, m, delta, i, 1) {
      assert i == 0;
    }
  }

  lemma NothingStopsFolder(env: Env, physical: Path -> bool, m: Namespace, delta: seq<Entry>, k: nat)
    requires FolderThenCopy(env, m, delta) && k < 2 && physical(delta[1].content.path)
    ensures !StopsPlainly(env, physical, m, delta, k)
  {
    CopyIsMet(env, m, delta);
    if k == 0 {
      FolderIsNotStopped(env, physical, m, delta);
    } else {
      CopyIsNotStopped(env, physical, m, delta);
    }
  }

  lemma NothingIsLeft(env: Env, m: Namespace, delta: seq<Entry>, l: Layout, n: Namespace)
    requires FolderThenCopy(env, m, delta) && AgreesPlainly(env, l, m, n, delta)
    ensures l == Unedited(n)
  {
    CopyIsMet(env, m, delta);
    forall p ensures Agrees(l, n, p) {
      if p == delta[0].content.path {
        assert NotOverruled(env, m, delta, 0);
      } else if p == delta[1].content.path {
        assert NotOverruled(env, m, delta, 1);
      } else {
        assert Unnamed(delta, p) && !KeepsCopyAt(env, m, delta, p);
      }
    }
    forall p ensures (p in l <==> p in n) && (p in l ==> l[p] == Unedited(n)[p]) { assert Agrees(l, n, p); }
  }

  /** A mirror that pulls the folder and the copy: it puts the folder in place, keeps the file as
      the very copy the host recorded, and has that confirmed. */
  lemma MirrorFollows(env: Env, s: Replica, peer: string, n: nat, p: Path, delta: seq<Entry>, payload: Entry -> Bytes)
    requires n + 2 == |s.log| && Synchronizes(env, s, peer, n, n + 2, delta, payload)
    requires EndsWithFolder(env, NamespaceOf(s.log[..n]), s.log, n, p)
    ensures var end := PullAll(env, s, peer, delta, payload, |delta|);
            end.reply == Complete && Holding(end.state, Unedited(NamespaceOf(s.log[..n + 2])))
  {
    var m := NamespaceOf(s.log[..n]);
    FolderFirst(env, m, s.log, n, p, delta);
    WellFormedAt(s.log, n, s.ledger);
    FolderNamesApart(env, m, delta);
    PlainTreeToTree(env, s, peer, n, n + 2, delta, payload);
    forall k | 0 <= k < |delta| ensures !StopsPlainly(env, s.ledger.physical, m, delta, k) {
      NothingStopsFolder(env, s.ledger.physical, m, delta, k);
    }
    NothingIsLeft(env, m, delta, After(env, m, delta, |delta|), NamespaceOf(s.log[..n + 2]));
  }

  lemma NamespaceAt(log: Log, p: Path)
    ensures p in NamespaceOf(log) <==> LatestOf(log, p).Some?
    ensures p in NamespaceOf(log) ==> NamespaceOf(log)[p] == Project(LatestOf(log, p).value)
  {
    SnapshotIsLatest(log, p);
  }

  lemma RecordedEndsWithFolder(env: Env, s: Replica, e: Entry, log: Log)
    requires OffersFolder(env, s, e) && s.log <= log && |log| == |s.log| + 2
    requires log[|s.log|].body.entry == CopyRecord(env, s, e) && log[|s.log| + 1].body.entry == FolderRecord(s, e)
    ensures EndsWithFolder(env, NamespaceOf(log[..|s.log|]), log, |s.log|, e.content.path)
  {
    var p, n := e.content.path, |s.log|;
    assert log[..n] == s.log;
    assert RowOk(s, p);
    NamespaceAt(s.log, p);
    NamespaceAt(s.log, log[n].Path());
    LatestIsMember(s.log, log[n].Path());
    ConflictPathDiffers(p, env.tag(s.rows[p].entry.version));
  }

  lemma RecordedReaches(env: Env, h: Replica, e: Entry, s: Replica, peer: string, delta: seq<Entry>,
                        payload: Entry -> Bytes)
    requires OffersFolder(env, h, e) && h.log <= s.log && |s.log| == |h.log| + 2
    requires s.log[|h.log|].body.entry == CopyRecord(env, h, e) && s.log[|h.log| + 1].body.entry == FolderRecord(h, e)
    requires Synchronizes(env, s, peer, |h.log|, |s.log|, delta, payload)
    ensures var end := PullAll(env, s, peer, delta, payload, |delta|);
            end.reply == Complete && Holding(end.state, Unedited(NamespaceOf(s.log[..|s.log|])))
  {
    RecordedEndsWithFolder(env, h, e, s.log);
    MirrorFollows(env, s, peer, |h.log|, e.content.path, delta, payload);
  }

  /** A folder proposed over a file reaches every mirror: once the authority took it, a mirror
      that holds the namespace before, with no edits of its own, pulls what was recorded and
      then holds exactly the namespace after, conflict copy included. */
  lemma FolderReachesMirrors(env: Env, h: Replica, proposer: string, e: Entry, s: Replica, peer: string,
                             delta: seq<Entry>, payload: Entry -> Bytes)
    requires OffersFolder(env, h, e)
    requires Merge(env, h, proposer, e, true).reply == Complete && s.log == Merge(env, h, proposer, e, true).state.log
    requires Synchronizes(env, s, peer, |h.log|, |s.log|, delta, payload)
    ensures var end := PullAll(env, s, peer, delta, payload, |delta|);
            end.reply == Complete && Holding(end.state, Unedited(NamespaceOf(s.log[..|s.log|])))
  {
    BothAreRecorded(env, h, proposer, e);
    RecordedReaches(env, h, e, s, peer, delta, payload);
  }
}
