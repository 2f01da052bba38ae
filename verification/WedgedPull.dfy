/** A pull that never gets through, on a journal a host can have: a file was deleted, its name
    was a folder for a while, with a file inside, and in the end it names a file again.  A
    mirror that still holds the first file is sent the deletion of the inner one, which it
    cannot even look up. */
module WedgedPull {
  import opened Records
  import opened Paths
  import opened NamespaceJournal
  import opened JournalPages
  import opened Trees
  import opened Replicas
  import opened Merges
  import opened Ordering
  import opened HostVersions
  import opened Deltas
  import opened Layouts
  import opened TreeApplication
  import opened DeltaApplication
  import opened ExampleLogs
  import opened ExamplePaths

  // ---------------------------------------------------------------- the host's journal

  function Stated(path: Path, kind: Kind, bytes: Bytes, k: nat): Record {
    Versioned(Content(path, kind, |bytes|, if kind == File then Sha256(bytes) else NoDigest, map["host" := k]))
  }

  /** What the host commits, one record after the other. */
  function Recs(w: Names): seq<Record> {
    [Stated(w.outer, File, [0], 1), Stated(w.outer, Deleted, [], 2), Stated(w.outer, Directory, [], 3),
     Stated(w.inner, File, [1], 4), Stated(w.inner, Deleted, [], 5), Stated(w.outer, Deleted, [], 6),
     Stated(w.outer, File, [2], 7)]
  }

  lemma RecShape(w: Names, i: nat)
    requires i < 7
    ensures var c := Recs(w)[i].content;
            && Recs(w)[i] == Versioned(c) && c.path in {w.outer, w.inner} && c.clock == map["host" := i + 1]
            && 0 <= c.size <= 1 && if c.kind == File then c.hash != NoDigest else c.size == 0 && c.hash == NoDigest
  {
  }

  lemma RecIsValid(w: Names, i: nat)
    requires Nested(w) && i < 7
    ensures ValidRecord(Recs(w)[i], Physical) && Recs(w)[i].version == VersionOf(Recs(w)[i].content)
    ensures Recs(w)[i].content.clock == map["host" := i + 1]
  {
    RecShape(w, i);
    SmallIsValid(Recs(w)[i].content);
  }

  lemma RecDiffers(w: Names, i: nat, j: nat)
    requires Nested(w) && i < j < 7
    ensures Recs(w)[i].version != Recs(w)[j].version
  {
    RecIsValid(w, i);
    RecIsValid(w, j);
    assert map["host" := i + 1]["host"] != map["host" := j + 1]["host"];
  }

  lemma RecsAreNew(w: Names)
    requires Nested(w)
    ensures AllNew(Recs(w))
  {
    var recs := Recs(w);
    forall i | 0 <= i < |recs| ensures ValidRecord(recs[i], Physical) { RecIsValid(w, i); }
    forall i, j | 0 <= i < j < |recs| ensures recs[i].version != recs[j].version { RecDiffers(w, i, j); }
  }

  ghost predicate Holds(w: Names, log: Log) {
    HoldsAll(log, Recs(w))
  }

  // ---------------------------------------------------------------- the delta after the first revision

  /** What the host sends a mirror that holds its first revision. */
  function Delta(log: Log): seq<Entry>
    requires |log| == 7
  {
    [Project(log[4]), Project(log[6])]
  }

  lemma Rows(w: Names, log: Log)
    requires Nested(w)
    requires Holds(w, log)
    ensures forall i | i in {0, 1, 2, 5, 6} :: log[i].Path() == w.outer
    ensures forall i | i in {3, 4} :: log[i].Path() == w.inner
  {
    assert forall i | 0 <= i < 7 :: log[i].body.entry == Recs(w)[i];
  }

  lemma Skips(log: Log, i: nat, j: nat)
    requires i < j < |log| && log[i].Path() == log[j].Path()
    ensures Select(log, false, i, |log|) == Select(log, false, i + 1, |log|)
  {
    assert !Newest(log, i, |log|);
    assert [] + Select(log, false, i + 1, |log|) == Select(log, false, i + 1, |log|);
  }

  lemma LastRows(w: Names, log: Log)
    requires Nested(w)
    requires Holds(w, log)
    ensures Select(log, false, 5, 7) == [log[6]]
  {
    Rows(w, log);
    Skips(log, 5, 6);
    assert Newest(log, 6, 7);
    assert Select(log, false, 7, 7) == [];
  }

  lemma SelectedDelta(w: Names, log: Log)
    requires Nested(w)
    requires Holds(w, log)
    ensures Select(log, false, 1, 7) == [log[4], log[6]]
  {
    Rows(w, log);
    LastRows(w, log);
    Skips(log, 1, 2);
    Skips(log, 2, 5);
    Skips(log, 3, 4);
    assert Newest(log, 4, 7);
    assert [log[4]] + [log[6]] == [log[4], log[6]];
  }

  lemma DeletionFirst(w: Names)
    requires Nested(w)
    ensures Before(Recs(w)[4].content, Recs(w)[6].content) && Recs(w)[4].content.kind == Deleted
    ensures Recs(w)[6].content.kind == File
  {
  }

  lemma TwoProjected(a: Revision, b: Revision)
    ensures Projected([a, b]) == [Project(a), Project(b)]
  {
  }

  lemma DeltaIsSelected(w: Names, log: Log)
    requires Nested(w)
    requires Holds(w, log)
    ensures Delta(log) == Projected(Select(log, false, 1, 7)) && InOrder(Delta(log))
    ensures Delta(log)[0].content == Recs(w)[4].content && Delta(log)[1].content == Recs(w)[6].content
  {
    SelectedDelta(w, log);
    TwoProjected(log[4], log[6]);
    assert log[4].body.entry == Recs(w)[4] && log[6].body.entry == Recs(w)[6];
    DeletionFirst(w);
  }

  // ---------------------------------------------------------------- the mirror

  function MirrorOf(w: Names, log: Log): Replica
    requires |log| == 7
  {
    Replica("mirror", Some("host"), LEDGER, log, map[w.outer := Row(Project(log[0]), Live(0), 1)], 1, 0,
            map[w.outer := Doc([0], 0)], 1, map[], [])
  }

  function Payload(e: Entry): Bytes {
    if e.content.kind == File then [2] else []
  }

  lemma MirrorKeepsInv(w: Names, log: Log)
    requires Nested(w)
    requires Holds(w, log)
    ensures Inv(MirrorOf(w, log))
  {
    var s := MirrorOf(w, log);
    assert log[0].body.entry == Recs(w)[0];
    assert RowOk(s, w.outer);
  }

  lemma FirstSnapshot(w: Names, log: Log)
    requires Nested(w)
    requires Holds(w, log)
    ensures Snapshot(log[..1]) == map[w.outer := log[0]] && NamespaceOf(log[..1]) == map[w.outer := Project(log[0])]
  {
    Rows(w, log);
    assert log[..1][..0] == [] && log[..1][0] == log[0];
  }

  lemma MirrorHolds(w: Names, log: Log)
    requires Nested(w)
    requires Holds(w, log)
    ensures Holding(MirrorOf(w, log), Unedited(NamespaceOf(log[..1])))
  {
    var s, l := MirrorOf(w, log), Unedited(NamespaceOf(log[..1]));
    FirstSnapshot(w, log);
    MirrorKeepsInv(w, log);
    assert log[0].body.entry == Recs(w)[0];
    forall p ensures SpotAt(s, l, p) { }
  }

  lemma OverlayOfTwo(m: map<Path, Revision>, a: Revision, b: Revision)
    ensures Overlay(m, [a, b]) == m[a.Path() := a][b.Path() := b]
  {
    var m1 := m[a.Path() := a];
    assert [a, b][1..] == [b] && [b][1..] == [];
    assert Overlay(m1, [b]) == Overlay(m1[b.Path() := b], []) == m1[b.Path() := b];
  }

  lemma LastSnapshot(w: Names, log: Log)
    requires Nested(w)
    requires Holds(w, log)
    ensures Snapshot(log[..7]) == map[w.outer := log[0]][w.inner := log[4]][w.outer := log[6]]
  {
    Rows(w, log);
    FirstSnapshot(w, log);
    SelectedDelta(w, log);
    DeltaEqualsReplay(log, 1, 7);
    OverlayOfTwo(map[w.outer := log[0]], log[4], log[6]);
  }

  lemma LeadsToATree(w: Names, log: Log)
    requires Nested(w)
    requires Holds(w, log)
    ensures IsTree(NamespaceOf(log[..7]))
  {
    LastSnapshot(w, log);
    assert log[4].body.entry == Recs(w)[4];
  }

  // ---------------------------------------------------------------- the pull

  lemma LooksBelowAFile(s: Replica, path: Path, a: Path, cause: Proposal)
    requires a in Ancestors(path) && IsDoc(s.tree, a)
    ensures Refresh(s, path, cause) == None && Unseen(s, path) == s
  {
  }

  lemma FirstEntryFails(w: Names, env: Env, s: Replica, e: Entry, payload: Bytes)
    requires Nested(w)
    requires e.content.path == w.inner && IsDoc(s.tree, w.outer)
    ensures Pull(env, s, "host", e, payload) == Outcome(s, Failed("refresh"))
  {
    LooksBelowAFile(s, w.inner, w.outer, CauseOf(e));
  }

  lemma PullBreaksOff(w: Names, env: Env, s: Replica, delta: seq<Entry>)
    requires Nested(w)
    requires |delta| == 2 && delta[0].content.path == w.inner && IsDoc(s.tree, w.outer)
    ensures PullAll(env, s, "host", delta, Payload, 2) == Outcome(s, Failed("refresh"))
  {
    FirstEntryFails(w, env, s, delta[0], Payload(delta[0]));
    assert PullAll(env, s, "host", delta, Payload, 1) == Outcome(s, Failed("refresh"));
  }

  lemma CanBeSent(w: Names, s: Replica, e: Entry)
    requires Nested(w)
    requires e.content in {Recs(w)[4].content, Recs(w)[6].content} && s.parts == map[]
    ensures Sendable(s, "host", e, Payload(e))
  {
    DeletionFirst(w);
    assert Recs(w)[6].content.hash == Sha256([2]) && Recs(w)[6].content.size == 1;
  }

  lemma DeltaIsReady(w: Names, s: Replica, delta: seq<Entry>)
    requires Nested(w)
    requires |delta| == 2 && delta[0].content == Recs(w)[4].content && delta[1].content == Recs(w)[6].content
    requires s.parts == map[]
    ensures forall e | e in delta :: Sendable(s, "host", e, Payload(e))
  {
    DeletionFirst(w);
    CanBeSent(w, s, delta[0]);
    CanBeSent(w, s, delta[1]);
  }

  lemma MirrorSynchronizes(w: Names, env: Env, log: Log)
    requires Nested(w)
    requires Holds(w, log)
    ensures Synchronizes(env, MirrorOf(w, log), "host", 1, 7, Delta(log), Payload)
  {
    DeltaIsSelected(w, log);
    InOrderIsArranged(Delta(log));
    MirrorHolds(w, log);
    LeadsToATree(w, log);
    DeltaIsReady(w, MirrorOf(w, log), Delta(log));
    forall p | LEDGER.physical(p) ensures '/' in p { PhysicalHasSlash(p); }
  }

  lemma SomethingStops(env: Env, s: Replica, peer: string, after: nat, through: nat, delta: seq<Entry>,
                       payload: Entry -> Bytes)
    requires Synchronizes(env, s, peer, after, through, delta, payload)
    requires PullAll(env, s, peer, delta, payload, |delta|).reply != Complete
    ensures !NoneStopped(env, s.ledger.physical, NamespaceOf(s.log[..after]), delta, |delta|)
  {
    TreeToTree(env, s, peer, after, through, delta, payload);
  }

  ghost predicate Wedged(w: Names, env: Env, log: Log, s: Replica, delta: seq<Entry>) {
    && WellFormed(log, LEDGER) && s.log == log && s.ledger == LEDGER
    && Synchronizes(env, s, "host", 1, 7, delta, Payload)
    && PullAll(env, s, "host", delta, Payload, |delta|) == Outcome(s, Failed("refresh"))
    && !NoneStopped(env, LEDGER.physical, NamespaceOf(log[..1]), delta, |delta|)
  }

  lemma WedgedAllTheSame(w: Names, env: Env, log: Log, s: Replica, delta: seq<Entry>)
    requires Nested(w)
    requires WellFormed(log, LEDGER) && s.log == log && s.ledger == LEDGER
    requires Synchronizes(env, s, "host", 1, 7, delta, Payload)
    requires |delta| == 2 && delta[0].content.path == w.inner && IsDoc(s.tree, w.outer)
    ensures Wedged(w, env, log, s, delta)
  {
    PullBreaksOff(w, env, s, delta);
    SomethingStops(env, s, "host", 1, 7, delta, Payload);
  }

  lemma LogWedges(w: Names, env: Env, log: Log)
    requires Nested(w)
    requires Holds(w, log)
    ensures Wedged(w, env, log, MirrorOf(w, log), Delta(log))
  {
    Rows(w, log);
    MirrorSynchronizes(w, env, log);
    WedgedAllTheSame(w, env, log, MirrorOf(w, log), Delta(log));
  }

  /** The mirror holds the host's namespace at revision 1 and has its journal up to revision 7,
      whose namespace is a tree, the delta is the compacted one in its order, and every payload
      can be sent.  Still the pull fails and leaves the mirror as it was, so it fails every
      time. */
  lemma FolderInBetweenBlocks(w: Names, env: Env)
    requires Nested(w)
    ensures |LogOf(Recs(w))| == 7 && Wedged(w, env, LogOf(Recs(w)), MirrorOf(w, LogOf(Recs(w))), Delta(LogOf(Recs(w))))
  {
    RecsAreNew(w);
    LogHoldsAll(Recs(w));
    LogWedges(w, env, LogOf(Recs(w)));
  }
}
