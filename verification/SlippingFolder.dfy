/** A merge that lets a proposal slip behind the push cursor: a mirror has a folder confirmed by
    its host, the host was restored to a journal in which the path is deleted under an older
    clock, and the mirror, whose folder is not empty, keeps it against that. */
module SlippingFolder {
  import opened Records
  import opened Paths
  import opened NamespaceJournal
  import opened Trees
  import opened Replicas
  import opened Merges
  import MergeConditions
  import opened MergeSteps
  import C = Cursors
  import opened ExampleLogs
  import opened ExamplePaths

  function FolderAt(p: Path): Content {
    Content(p, Directory, 0, NoDigest, map["host" := 2])
  }

  function Deletion(p: Path): Content {
    Content(p, Deleted, 0, NoDigest, map["host" := 1])
  }

  /** The row as the lost journal confirmed it. */
  function FolderRow(p: Path): Row {
    Row(Entry(FolderAt(p), VersionOf(FolderAt(p)), Some(Confirmed("space", "host", OtherRevision("lost"), 1))), Live(0),
        1)
  }

  function MirrorOf(w: Names, log: Log): Replica {
    Replica("mirror", Some("host"), LEDGER, log, map[w.outer := FolderRow(w.outer)], 1, 0,
            map[w.outer := Folder(0), w.inner := Doc([0], 0)], 1, map[], [])
  }

  ghost predicate Deletes(w: Names, log: Log) {
    HoldsAll(log, [Versioned(Deletion(w.outer))])
  }

  lemma DeletionIsRecorded(w: Names)
    requires Nested(w)
    ensures Deletes(w, LogOf([Versioned(Deletion(w.outer))]))
  {
    SmallIsValid(Deletion(w.outer));
    LogHoldsAll([Versioned(Deletion(w.outer))]);
  }

  lemma MirrorTree(w: Names, log: Log)
    requires Nested(w)
    ensures TreeOk(MirrorOf(w, log).tree) && HasChildren(MirrorOf(w, log).tree, w.outer)
  {
    assert MirrorOf(w, log).tree.Keys == {w.outer, w.inner};
    assert w.outer in Ancestors(w.inner);
    AncestorsAreTheFoldersAbove(w.inner, w.outer);
  }

  lemma MirrorIsSound(w: Names, log: Log)
    requires Nested(w) && Deletes(w, log)
    ensures Inv(MirrorOf(w, log))
  {
    MirrorTree(w, log);
    assert RowOk(MirrorOf(w, log), w.outer);
  }

  lemma RouteKeepsFolder(s: Replica, peer: string, e: Entry, d: Decision)
    requires s.host == Some(peer) && Contains(s, e) && e.content.path in s.rows && |e.content.clock| <= MAX_CLOCK
    requires s.rows[e.content.path].entry.IsConfirmed() && d.retain && !d.same
    ensures RouteWith(s, peer, e, false, Ahead, d) == KeepFolder(s.rows[e.content.path])
  {
  }

  lemma FolderIsDecided(env: Env, s: Replica, e: Entry)
    requires s.Mirror() && e.content.path in s.rows && s.rows[e.content.path].entry.version != e.version
    requires s.rows[e.content.path].entry.content.kind == Directory && e.content.kind == Deleted
    requires HasChildren(s.tree, e.content.path)
    ensures Relate(s, e) == Ahead && Decide(env, s, e, Ahead).retain && !Decide(env, s, e, Ahead).same
  {
  }

  lemma FolderIsSeen(w: Names, log: Log, cause: Proposal)
    requires Nested(w)
    ensures Refresh(MirrorOf(w, log), w.outer, cause) == Some(MirrorOf(w, log))
  {
  }

  lemma FolderIsKept(env: Env, w: Names, log: Log, e: Entry)
    requires Nested(w) && Deletes(w, log) && |log| == 1 && e == Project(log[0])
    ensures RouteOf(env, MirrorOf(w, log), "host", e, false) == KeepFolder(FolderRow(w.outer))
    ensures Refresh(MirrorOf(w, log), w.outer, CauseOf(e)) == Some(MirrorOf(w, log))
  {
    var s := MirrorOf(w, log);
    MirrorTree(w, log);
    DeletionIsThere(w, log, e);
    FolderIsSeen(w, log, CauseOf(e));
    FolderIsDecided(env, s, e);
    RouteKeepsFolder(s, "host", e, Decide(env, s, e, Ahead));
  }

  lemma DeletionIsThere(w: Names, log: Log, e: Entry)
    requires Deletes(w, log) && |log| == 1 && e == Project(log[0])
    ensures Contains(MirrorOf(w, log), e) && e.content == Deletion(w.outer) && e.version == VersionOf(e.content)
    ensures e.version != FolderRow(w.outer).entry.version && |e.content.clock| == 1
  {
    assert log[0] in MirrorOf(w, log).log;
    WellFormedAt(log, 0, LEDGER);
  }

  lemma KeptIsSaved(env: Env, s: Replica, peer: string, e: Entry, row: Row)
    requires s.Mirror() && e.content.path in s.rows && row == s.rows[e.content.path]
    requires row.entry.version == VersionOf(row.entry.content) && row.entry.content.path == e.content.path
    requires Joined(e.content.clock, row.entry.content.clock) == row.entry.content.clock
    requires Refresh(s, e.content.path, CauseOf(e)) == Some(s) && RouteOf(env, s, peer, e, false) == KeepFolder(row)
    ensures Merge(env, s, peer, e, false)
            == Outcome(s.(rows := s.rows[e.content.path :=
                                    row.(entry := Rebased(row.entry, e, row.entry.content.clock))]), Complete)
  {
  }

  lemma JoinedStays()
    ensures Joined(map["host" := 1], map["host" := 2]) == map["host" := 2]
  {
  }

  /** The folder becomes a proposal under the version and the sequence it has. */
  lemma FolderIsProposed(env: Env, w: Names, log: Log, e: Entry)
    requires Nested(w) && Deletes(w, log) && |log| == 1 && e == Project(log[0])
    ensures var s, end, row := MirrorOf(w, log), Merge(env, MirrorOf(w, log), "host", e, false), FolderRow(w.outer);
            end == Outcome(s.(rows := s.rows[w.outer := row.(entry := Rebased(row.entry, e, row.entry.content.clock))]),
                           Complete)
  {
    DeletionIsThere(w, log, e);
    FolderIsKept(env, w, log, e);
    JoinedStays();
    KeptIsSaved(env, MirrorOf(w, log), "host", e, FolderRow(w.outer));
  }

  lemma SafeUnlessPending(s: Replica, c: C.State, p: Path)
    requires s.rows.Keys == {p} && s.rows[p].sequence == 1 == s.sequence && c.savedPushed == 1
    requires (p, s.rows[p].entry.version) !in c.completed
    ensures C.PushSafe(View(s, c), c.savedPushed) <==> s.rows[p].entry.IsConfirmed()
  {
    assert View(s, c).rows.Keys == {p};
  }

  /** The merge completes, the push cursor was safe before it and is not after it. */
  ghost predicate Slipped(env: Env, s: Replica, e: Entry, c: C.State, p: Path) {
    var end := Merge(env, s, "host", e, false);
    && end.reply == Complete && C.PushSafe(View(s, c), c.savedPushed)
    && p in end.state.rows && !end.state.rows[p].entry.IsConfirmed() && end.state.rows[p].sequence == 1
    && !C.PushSafe(View(end.state, c), c.savedPushed)
  }

  lemma DeletionSlips(env: Env, w: Names, log: Log, e: Entry, c: C.State)
    requires Nested(w) && Deletes(w, log) && |log| == 1 && e == Project(log[0])
    requires c.savedPushed == 1 && (w.outer, VersionOf(FolderAt(w.outer))) !in c.completed
    ensures Slipped(env, MirrorOf(w, log), e, c, w.outer)
  {
    FolderIsProposed(env, w, log, e);
    SafeUnlessPending(MirrorOf(w, log), c, w.outer);
    SafeUnlessPending(Merge(env, MirrorOf(w, log), "host", e, false).state, c, w.outer);
  }

  /** Whatever else the round is about: with the push cursor at the folder and the folder not
      completed by the host, the proposal slips. */
  lemma MergeSlips(env: Env, w: Names, c: C.State)
    requires Nested(w) && c.savedPushed == 1 && (w.outer, VersionOf(FolderAt(w.outer))) !in c.completed
    ensures var log := LogOf([Versioned(Deletion(w.outer))]);
            |log| == 1 && Inv(MirrorOf(w, log)) && Slipped(env, MirrorOf(w, log), Project(log[0]), c, w.outer)
  {
    var log := LogOf([Versioned(Deletion(w.outer))]);
    DeletionIsRecorded(w);
    MirrorIsSound(w, log);
    DeletionSlips(env, w, log, Project(log[0]), c);
  }
}
