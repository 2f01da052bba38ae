/** A host's change that is undone by a mirror which made no change, on a journal a host can have:
    a folder replaced a file and left it as a conflict copy, the host then edited the copy and
    made the folder anew.  A mirror that still holds the file makes the copy itself, under the
    new folder's clock, which is ahead of the edit's. */
module OverruledPull {
  import opened Records
  import opened Paths
  import opened NamespaceJournal
  import opened JournalPages
  import opened Trees
  import opened Replicas
  import opened Merges
  import opened MergeSafety
  import opened Ordering
  import HostVersions
  import opened Deltas
  import opened Layouts
  import opened TreeApplication
  import opened ConflictNames
  import opened DeltaApplication
  import opened FolderProposals
  import opened OverruledEntries
  import opened ExampleLogs
  import opened ExamplePaths

  // ---------------------------------------------------------------- the host's journal

  function Late(host: nat): Clock {
    map["host" := host, "other" := 1]
  }

  function FileOf(p: Path, bytes: Bytes, clock: Clock): Content {
    Content(p, File, 1, Sha256(bytes), clock)
  }

  function Other(p: Path, kind: Kind, clock: Clock): Content {
    Content(p, kind, 0, NoDigest, clock)
  }

  /** The file, its conflict copy and the folder that replaced it, an edit of the copy, and the
      folder deleted and made again. */
  function Recs(p: Path, t: Path): seq<Record> {
    [Versioned(FileOf(p, [0], map["host" := 1])), Versioned(FileOf(t, [0], Late(1))),
     Versioned(Other(p, Directory, Late(1))), Versioned(FileOf(t, [1], Late(2))),
     Versioned(Other(p, Deleted, Late(3))), Versioned(Other(p, Directory, Late(4)))]
  }

  /** The copy's name. */
  function Target(env: Env, p: Path): Path {
    ConflictPath(p, env.tag(VersionOf(FileOf(p, [0], map["host" := 1]))))
  }

  ghost predicate Roomy(env: Env, p: Path) {
    InSection(p) && Physical(Target(env, p))
  }

  lemma SomeAreRoomy(env: Env)
    ensures Roomy(env, OUTER)
  {
    SomeInSection();
    CopyIsPhysical(env.tag(VersionOf(FileOf(OUTER, [0], map["host" := 1]))));
  }

  lemma TargetIsBeside(env: Env, p: Path)
    requires Roomy(env, p)
    ensures Target(env, p) != p && Ancestors(Target(env, p)) == {}
  {
    var tag := env.tag(VersionOf(FileOf(p, [0], map["host" := 1])));
    ConflictPathDiffers(p, tag);
    HostVersions.FolderOfCopy(p, tag);
  }

  lemma RecIsValid(p: Path, t: Path, i: nat)
    requires Physical(p) && Physical(t) && i < 6
    ensures ValidRecord(Recs(p, t)[i], Physical)
  {
    var c := Recs(p, t)[i].content;
    assert c.path in {p, t} && c.clock.Keys <= {"host", "other"} && 0 <= c.size <= 1;
    SmallIsValid(c);
  }

  lemma RecsDiffer(p: Path, t: Path, i: nat, j: nat)
    requires p != t && i < j < 6
    ensures Recs(p, t)[i].version != Recs(p, t)[j].version
  {
    var c, d := Recs(p, t)[i].content, Recs(p, t)[j].content;
    assert c.path != d.path || c.kind != d.kind || c.clock["host"] != d.clock["host"];
  }

  lemma RecsAreNew(env: Env, p: Path)
    requires Roomy(env, p)
    ensures AllNew(Recs(p, Target(env, p)))
  {
    var t, recs := Target(env, p), Recs(p, Target(env, p));
    TargetIsBeside(env, p);
    forall i | 0 <= i < |recs| ensures ValidRecord(recs[i], Physical) { RecIsValid(p, t, i); }
    forall i, j | 0 <= i < j < |recs| ensures recs[i].version != recs[j].version { RecsDiffer(p, t, i, j); }
  }

  // ---------------------------------------------------------------- what the host sends

  /** The journal after these commits. */
  ghost predicate Holds6(p: Path, t: Path, log: Log) {
    HoldsAll(log, Recs(p, t))
  }

  lemma Rows(p: Path, t: Path, log: Log)
    requires Holds6(p, t, log)
    ensures |log| == 6 && log[0].Path() == log[2].Path() == log[4].Path() == log[5].Path() == p
    ensures log[1].Path() == log[3].Path() == t
    ensures log[0].body.entry == Recs(p, t)[0] && log[3].body.entry == Recs(p, t)[3]
    ensures log[5].body.entry == Recs(p, t)[5]
  {
    assert forall i | 0 <= i < 6 :: log[i].body.entry == Recs(p, t)[i];
  }

  /** The folder, then the edited copy. */
  function Delta(log: Log): seq<Entry>
    requires |log| == 6
  {
    [Project(log[5]), Project(log[3])]
  }

  lemma Skips(log: Log, i: nat, j: nat)
    requires i < j < |log| && log[i].Path() == log[j].Path()
    ensures Select(log, false, i, |log|) == Select(log, false, i + 1, |log|)
  {
    assert !Newest(log, i, |log|);
    assert [] + Select(log, false, i + 1, |log|) == Select(log, false, i + 1, |log|);
  }

  lemma SelectedLast(p: Path, t: Path, log: Log)
    requires p != t && Holds6(p, t, log)
    ensures |log| == 6 && Select(log, false, 4, 6) == [log[5]]
  {
    Rows(p, t, log);
    Skips(log, 4, 5);
    assert Newest(log, 5, 6);
    assert Select(log, false, 6, 6) == [];
  }

  lemma Selected(p: Path, t: Path, log: Log)
    requires p != t && Holds6(p, t, log)
    ensures Select(log, false, 1, 6) == [log[3], log[5]]
  {
    Rows(p, t, log);
    SelectedLast(p, t, log);
    Skips(log, 1, 3);
    Skips(log, 2, 4);
    assert Newest(log, 3, 6);
    assert [log[3]] + [log[5]] == [log[3], log[5]];
  }

  lemma TwoSwapped(a: Revision, b: Revision)
    ensures multiset([Project(b), Project(a)]) == multiset(Projected([a, b]))
  {
    assert Projected([a, b]) == [Project(a), Project(b)];
    assert multiset([Project(b), Project(a)]) == multiset([Project(a), Project(b)]);
  }

  lemma FolderFileArranged(delta: seq<Entry>)
    requires |delta| == 2 && delta[0].content.kind == Directory && delta[1].content.kind == File
    ensures Arranged(delta)
  {
    forall i, j | 0 <= i < j < |delta| ensures Structured(delta[i].content, delta[j].content) {
      assert i == 0 && j == 1;
    }
  }

  lemma DeltaContents(p: Path, t: Path, log: Log)
    requires Holds6(p, t, log)
    ensures |log| == 6
    ensures Delta(log)[0].content == Other(p, Directory, Late(4)) && Delta(log)[1].content == FileOf(t, [1], Late(2))
  {
    Rows(p, t, log);
  }

  lemma DeltaIsSent(p: Path, t: Path, log: Log)
    requires p != t && Holds6(p, t, log)
    ensures |log| == 6 && multiset(Delta(log)) == multiset(Projected(Select(log, false, 1, 6))) && Arranged(Delta(log))
    ensures Delta(log)[0].content == Other(p, Directory, Late(4)) && Delta(log)[1].content == FileOf(t, [1], Late(2))
  {
    DeltaContents(p, t, log);
    Selected(p, t, log);
    TwoSwapped(log[3], log[5]);
    FolderFileArranged(Delta(log));
  }

  // ---------------------------------------------------------------- the mirror

  function MirrorOf(p: Path, log: Log): Replica
    requires |log| == 6
  {
    Replica("mirror", Some("host"), LEDGER, log, map[p := Row(Project(log[0]), Live(0), 1)], 1, 0,
            map[p := Doc([0], 0)], 1, map[], [])
  }

  function Payload(e: Entry): Bytes {
    if e.content.kind == File then [1] else []
  }

  lemma FirstSnapshot(p: Path, t: Path, log: Log)
    requires Holds6(p, t, log)
    ensures |log| == 6 && NamespaceOf(log[..1]) == map[p := Project(log[0])]
  {
    Rows(p, t, log);
    assert log[..1][..0] == [] && log[..1][0] == log[0];
    assert Snapshot(log[..1]) == map[p := log[0]];
  }

  lemma MirrorIsSound(p: Path, t: Path, log: Log)
    requires InSection(p) && Holds6(p, t, log)
    ensures |log| == 6 && Inv(MirrorOf(p, log))
  {
    Rows(p, t, log);
    assert RowOk(MirrorOf(p, log), p);
  }

  lemma MirrorHolds(p: Path, t: Path, log: Log)
    requires InSection(p) && Holds6(p, t, log)
    ensures |log| == 6 && Holding(MirrorOf(p, log), Unedited(NamespaceOf(log[..1])))
  {
    var s, l := MirrorOf(p, log), Unedited(NamespaceOf(log[..1]));
    Rows(p, t, log);
    FirstSnapshot(p, t, log);
    MirrorIsSound(p, t, log);
    forall q ensures SpotAt(s, l, q) { }
  }

  lemma FlatIsATree(m: Namespace, p: Path, t: Path)
    requires m.Keys <= {p, t} && Ancestors(p) == {} && Ancestors(t) == {}
    ensures IsTree(m)
  {
  }

  lemma PathsAreTwo(p: Path, t: Path, log: Log)
    requires Holds6(p, t, log)
    ensures forall r | r in log :: r.Path() in {p, t}
  {
    Rows(p, t, log);
    forall r | r in log ensures r.Path() in {p, t} {
      var i :| 0 <= i < 6 && log[i] == r;
    }
  }

  lemma KeysAreInLog(log: Log, p: Path, t: Path)
    requires forall r | r in log :: r.Path() in {p, t}
    ensures NamespaceOf(log).Keys <= {p, t}
  {
    forall q | q in NamespaceOf(log) ensures q in {p, t} {
      NamespaceAt(log, q);
      LatestIsMember(log, q);
    }
  }

  lemma LeadsToATree(env: Env, p: Path, log: Log)
    requires Roomy(env, p) && Holds6(p, Target(env, p), log)
    ensures |log| == 6 && IsTree(NamespaceOf(log[..6]))
  {
    assert log[..6] == log;
    TargetIsBeside(env, p);
    PathsAreTwo(p, Target(env, p), log);
    KeysAreInLog(log, p, Target(env, p));
    FlatIsATree(NamespaceOf(log), p, Target(env, p));
  }

  lemma MirrorSynchronizes(env: Env, p: Path, log: Log)
    requires Roomy(env, p) && Holds6(p, Target(env, p), log)
    ensures |log| == 6 && Synchronizes(env, MirrorOf(p, log), "host", 1, 6, Delta(log), Payload)
  {
    TargetIsBeside(env, p);
    DeltaIsSent(p, Target(env, p), log);
    MirrorHolds(p, Target(env, p), log);
    LeadsToATree(env, p, log);
    forall q | LEDGER.physical(q) ensures '/' in q { PhysicalHasSlash(q); }
  }

  // ---------------------------------------------------------------- the pull

  lemma FolderIsAhead()
    ensures Compare(Late(4), Late(2)) == Greater
  {
    assert Reading(Late(4), "host") == 4 && Reading(Late(2), "host") == 2;
    assert Reading(Late(4), "other") == Reading(Late(2), "other") == 1;
  }

  lemma CopyIsFile(env: Env, p: Path, m: Namespace, first: Entry, folder: Entry)
    requires m == map[p := first] && first.content == FileOf(p, [0], map["host" := 1])
    requires folder.content == Other(p, Directory, Late(4))
    ensures PutsFolder(m, folder) && FirstCopy(env, m, folder) == FileOf(Target(env, p), [0], Late(4))
  {
  }

  lemma EditOverrules(env: Env, t: Path, e: Entry)
    requires e.content == FileOf(t, [1], Late(2))
    ensures MetCopy(env, FileOf(t, [0], Late(4)), e) == None
  {
    FolderIsAhead();
  }

  lemma NameIsMet(env: Env, p: Path, log: Log)
    requires Roomy(env, p) && Holds6(p, Target(env, p), log)
    ensures |log| == 6
    ensures var m, delta := NamespaceOf(log[..1]), Delta(log);
            && FolderThenName(env, m, delta) && FirstCopy(env, m, delta[0]) == FileOf(Target(env, p), [0], Late(4))
            && MetCopy(env, FirstCopy(env, m, delta[0]), delta[1]) == None
  {
    var t := Target(env, p);
    TargetIsBeside(env, p);
    Rows(p, t, log);
    FirstSnapshot(p, t, log);
    DeltaContents(p, t, log);
    CopyIsFile(env, p, NamespaceOf(log[..1]), Project(log[0]), Delta(log)[0]);
    EditOverrules(env, t, Delta(log)[1]);
  }

  lemma CompletesUnlessStopped(env: Env, s: Replica, peer: string, after: nat, through: nat, delta: seq<Entry>,
                               payload: Entry -> Bytes)
    requires Synchronizes(env, s, peer, after, through, delta, payload) && |delta| == 2
    requires NamesApart(env, NamespaceOf(s.log[..after]), delta)
    requires !StopsPlainly(env, s.ledger.physical, NamespaceOf(s.log[..after]), delta, 0)
    requires !StopsPlainly(env, s.ledger.physical, NamespaceOf(s.log[..after]), delta, 1)
    ensures PullAll(env, s, peer, delta, payload, 2).reply == Complete
  {
    PlainTreeToTree(env, s, peer, after, through, delta, payload);
  }

  lemma PullCompletes(env: Env, p: Path, log: Log)
    requires Roomy(env, p) && Holds6(p, Target(env, p), log)
    ensures |log| == 6
    ensures PullAll(env, MirrorOf(p, log), "host", Delta(log), Payload, 2).reply == Complete
  {
    NameIsMet(env, p, log);
    DeltaIsFile(env, p, log);
    MirrorSynchronizes(env, p, log);
    var m, delta := NamespaceOf(log[..1]), Delta(log);
    FolderNamesApart(env, m, delta);
    FolderIsNotStopped(env, Physical, m, delta);
    CopyIsNotStopped(env, Physical, m, delta);
    CompletesUnlessStopped(env, MirrorOf(p, log), "host", 1, 6, delta, Payload);
  }

  lemma DeltaIsFile(env: Env, p: Path, log: Log)
    requires Roomy(env, p) && Holds6(p, Target(env, p), log)
    ensures |log| == 6 && Delta(log)[1].content.kind == File
  {
    TargetIsBeside(env, p);
    DeltaIsSent(p, Target(env, p), log);
  }

  lemma EditIsOverruled(env: Env, p: Path, log: Log)
    requires Roomy(env, p) && Holds6(p, Target(env, p), log)
    ensures |log| == 6
    ensures var m, delta := NamespaceOf(log[..1]), Delta(log);
            Overruled(env, m, delta, 0, 1)
              && CopyOfEntry(env, m, delta, 0) == Some(FileOf(Target(env, p), [0], Late(4)))
  {
    var t := Target(env, p);
    NameIsMet(env, p, log);
    DeltaIsSent(p, t, log);
    MirrorSynchronizes(env, p, log);
    var m, delta := NamespaceOf(log[..1]), Delta(log);
    SynchronizesPulls(env, MirrorOf(p, log), "host", 1, 6, delta, Payload);
    FolderNamesApart(env, m, delta);
    FolderIsAhead();
    assert Meets(env, m, delta, 0, 1);
    OverruledIff(env, m, delta, 1);
    EntriesLeave(env, m, delta, 2);
    assert Leaves(env, m, delta, 0);
  }

  lemma EndsThatWay(env: Env, p: Path, log: Log)
    requires Roomy(env, p) && Holds6(p, Target(env, p), log)
    ensures |log| == 6 && EndsOverruled(env, MirrorOf(p, log), "host", 1, 6, Delta(log), Payload, 0, 1)
    ensures CopyOfEntry(env, NamespaceOf(log[..1]), Delta(log), 0) == Some(FileOf(Target(env, p), [0], Late(4)))
  {
    MirrorSynchronizes(env, p, log);
    PullCompletes(env, p, log);
    EditIsOverruled(env, p, log);
  }

  /** The mirror's proposal once it pulled. */
  function Proposed(t: Path, log: Log): Entry
    requires |log| == 6
  {
    ProposalOf(FileOf(t, [0], Late(4)), Project(log[3]))
  }

  // ---------------------------------------------------------------- back at the host

  /** The host as it was when it sent the delta, with the proposal's bytes staged. */
  function HostOf(p: Path, t: Path, log: Log): Replica
    requires |log| == 6
  {
    Replica("host", None, LEDGER, log,
            map[p := Row(Project(log[5]), Live(0), 6), t := Row(Project(log[3]), Live(1), 4)], 6, 4,
            map[p := Folder(0), t := Doc([1], 1)], 2, map[PartKey("mirror", Proposed(t, log)) := [0]], [])
  }

  lemma Newest6(p: Path, t: Path, log: Log)
    requires p != t && Holds6(p, t, log)
    ensures |log| == 6 && LatestOf(log, p) == Some(log[5]) && LatestOf(log, t) == Some(log[3])
  {
    Rows(p, t, log);
    assert log[..5][|log[..5]| - 1] == log[4] && log[..5][..4] == log[..4];
    assert log[..4][|log[..4]| - 1] == log[3];
    assert LatestOf(log[..4], t) == Some(log[3]);
    assert LatestOf(log[..5], t) == Some(log[3]);
  }

  lemma HostRows(p: Path, t: Path, log: Log)
    requires p != t && Holds6(p, t, log)
    ensures |log| == 6 && RowOk(HostOf(p, t, log), p) && RowOk(HostOf(p, t, log), t)
    ensures HostVersions.UpToDate(HostOf(p, t, log), t)
  {
    Rows(p, t, log);
    Newest6(p, t, log);
  }

  lemma HostTree(p: Path, t: Path, log: Log)
    requires |log| == 6 && p != t && Ancestors(p) == {} && Ancestors(t) == {}
    ensures TreeOk(HostOf(p, t, log).tree)
    ensures forall q | q in HostOf(p, t, log).tree :: HostOf(p, t, log).tree[q].stamp < 2
  {
    assert HostOf(p, t, log).tree.Keys == {p, t};
  }

  lemma SoundWhen(h: Replica, p: Path, t: Path)
    requires WellFormed(h.log, h.ledger) && TreeOk(h.tree) && (forall q | q in h.tree :: h.tree[q].stamp < h.tick)
    requires h.rows.Keys == {p, t} && RowOk(h, p) && RowOk(h, t) && forall r | r in h.log :: r.Path() in {p, t}
    ensures Inv(h)
  {
  }

  lemma HostIsSound(env: Env, p: Path, log: Log)
    requires Roomy(env, p) && Holds6(p, Target(env, p), log)
    ensures |log| == 6 && Inv(HostOf(p, Target(env, p), log))
  {
    var t := Target(env, p);
    TargetIsBeside(env, p);
    HostRows(p, t, log);
    HostTree(p, t, log);
    PathsAreTwo(p, t, log);
    SoundWhen(HostOf(p, t, log), p, t);
  }

  lemma LaterJoin()
    ensures Joined(Late(4), Late(2)) == Late(4)
  {
  }

  lemma ProposalIsValid(h: Replica, t: Path, e: Entry)
    requires !h.Mirror() && t in h.rows && h.rows[t].entry.content == FileOf(t, [1], Late(2))
    requires e.content == FileOf(t, [0], Late(4)) && Physical(t)
    ensures ClockFor(h, e) == Late(4) && ValidRecord(Versioned(e.content.(clock := ClockFor(h, e))), Physical)
  {
    LaterJoin();
    assert Late(4).Keys == {"host", "other"};
    SmallIsValid(e.content);
  }

  lemma ProposalIsStaged(p: Path, t: Path, log: Log)
    requires p != t && Holds6(p, t, log)
    ensures |log| == 6 && Whole(HostOf(p, t, log), "mirror", Proposed(t, log))
    ensures HostOf(p, t, log).rows[t].entry.version != Proposed(t, log).version
    ensures HostOf(p, t, log).rows[t].entry.content == FileOf(t, [1], Late(2))
  {
    Rows(p, t, log);
    assert [0 as byte] != [1 as byte];
  }

  lemma OfferedWhen(h: Replica, t: Path, e: Entry)
    requires Inv(h) && !h.Mirror() && |h.log| < 100 && h.sequence < 100 && Ancestors(t) == {} && e.content.path == t
    requires Whole(h, "mirror", e) && t in h.rows && h.rows[t].entry.version != e.version
    requires HostVersions.UpToDate(h, t) && h.rows[t].entry.content.kind == File
    requires ValidRecord(Versioned(e.content.(clock := ClockFor(h, e))), h.ledger.physical)
    ensures Offered(h, "mirror", e)
  {
  }

  lemma ProposalIsOffered(env: Env, p: Path, log: Log)
    requires Roomy(env, p) && Holds6(p, Target(env, p), log)
    ensures |log| == 6 && Offered(HostOf(p, Target(env, p), log), "mirror", Proposed(Target(env, p), log))
    ensures ConfirmedId(HostOf(p, Target(env, p), log), Target(env, p)) == log[3].id
  {
    var t := Target(env, p);
    TargetIsBeside(env, p);
    HostRows(p, t, log);
    HostIsSound(env, p, log);
    Newest6(p, t, log);
    ProposalIsStaged(p, t, log);
    ProposalIsValid(HostOf(p, t, log), t, Proposed(t, log));
    OfferedWhen(HostOf(p, t, log), t, Proposed(t, log));
  }

  /** What the example shows. */
  ghost predicate Undone(env: Env, p: Path, t: Path, log: Log) {
    && |log| == 6 && WellFormed(log, LEDGER)
    && Synchronizes(env, MirrorOf(p, log), "host", 1, 6, Delta(log), Payload)
    && Inv(HostOf(p, t, log)) && p != t && HostOf(p, t, log).tree[t].bytes == [1]
    && var pulled := PullAll(env, MirrorOf(p, log), "host", Delta(log), Payload, |Delta(log)|);
       && pulled.reply == Complete && t in pulled.state.rows
       && TakesBack(env, HostOf(p, t, log), "mirror", pulled.state.rows[t].entry, FileOf(t, [0], Late(4)))
  }

  lemma LogUndoes(env: Env, p: Path, log: Log)
    requires Roomy(env, p) && Holds6(p, Target(env, p), log)
    ensures Undone(env, p, Target(env, p), log)
  {
    var t := Target(env, p);
    TargetIsBeside(env, p);
    EndsThatWay(env, p, log);
    HostIsSound(env, p, log);
    ProposalIsOffered(env, p, log);
    DeltaIsSent(p, t, log);
    var copy := ChangeIsUndone(env, MirrorOf(p, log), "host", 1, 6, Delta(log), Payload, 0, 1, HostOf(p, t, log),
                               "mirror");
  }

  /** Nobody but the host changed anything: it edited the conflict copy.  A mirror in step with it
      pulls the delta and proposes the file as it was before; the host takes the proposal, and
      its edit is gone from the tree. */
  lemma EditIsUndone(env: Env, p: Path)
    requires Roomy(env, p)
    ensures Undone(env, p, Target(env, p), LogOf(Recs(p, Target(env, p))))
  {
    RecsAreNew(env, p);
    LogHoldsAll(Recs(p, Target(env, p)));
    LogUndoes(env, p, LogOf(Recs(p, Target(env, p))));
  }
}
