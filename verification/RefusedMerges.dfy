/** Two merges that are refused although nothing is wrong with what was sent: one at an
    authority that lost its journal, one beside a file that has a conflict copy's name. */
module RefusedMerges {
  import opened Records
  import opened Paths
  import opened NamespaceJournal
  import opened Trees
  import opened Replicas
  import opened Merges
  import opened MergeSafety
  import opened MergeConditions
  import opened ExampleLogs
  import opened ExamplePaths
  import HostVersions

  function FileAt(p: Path, bytes: Bytes, clock: Clock): Content {
    Content(p, File, |bytes|, Sha256(bytes), clock)
  }

  /** The journal with one revision of the file. */
  function OneRevision(p: Path): Log {
    Committed([], LEDGER, Versioned(FileAt(p, [0], map["host" := 1])), NoVersion, NoRevision).0
  }

  lemma OneRevisionIsThere(p: Path)
    requires InSection(p)
    ensures WellFormed(OneRevision(p), LEDGER) && |OneRevision(p)| == 1
    ensures OneRevision(p)[0].body.entry == Versioned(FileAt(p, [0], map["host" := 1]))
    ensures LatestOf(OneRevision(p), p) == Some(OneRevision(p)[0]) && OneRevision(p)[0].id.RevisionDigest?
  {
    SmallIsValid(FileAt(p, [0], map["host" := 1]));
    CommitKeepsWellFormed([], LEDGER, Versioned(FileAt(p, [0], map["host" := 1])), NoVersion, NoRevision);
  }

  // ---------------------------------------------------------------- an authority without its journal

  /** A mirror's edit of the file, proposed against its one revision. */
  function Edit(p: Path): Entry
    requires |OneRevision(p)| == 1
  {
    var content := FileAt(p, [1], map["host" := 1, "mirror" := 1]);
    Entry(content, VersionOf(content), Some(Pending(OneRevision(p)[0].id)))
  }

  /** An authority that starts over, with the edit's bytes staged. */
  function Restored(e: Entry): Replica {
    Replica("host", None, LEDGER, [], map[], 0, 0, map[], 0, map[PartKey("mirror", e) := [1]], [])
  }

  lemma EditIsUnknown(p: Path, e: Entry)
    requires InSection(p)
    requires |OneRevision(p)| == 1 && OneRevision(p)[0].id.RevisionDigest? && e == Edit(p)
    ensures UnknownHere(Restored(e), e) && Whole(Restored(e), "mirror", e) && !MayCreate(e)
  {
    assert e.content.clock.Keys == {"host", "mirror"};
    SmallIsValid(e.content);
    RestoredIsSound(e);
  }

  lemma RestoredIsSound(e: Entry)
    ensures Inv(Restored(e))
  {
  }

  /** A file was confirmed and edited on a mirror; the authority was restored to a state
      before it.  The staged and valid edit is refused. */
  lemma EditAfterRestoreFails(p: Path, env: Env)
    requires InSection(p)
    ensures |OneRevision(p)| == 1 && Inv(Restored(Edit(p))) && Whole(Restored(Edit(p)), "mirror", Edit(p))
    ensures Merge(env, Restored(Edit(p)), "mirror", Edit(p), true).reply.Failed?
  {
    OneRevisionIsThere(p);
    var e := Edit(p);
    EditIsUnknown(p, e);
    UnknownMerge(env, Restored(e), "mirror", e);
    LostNeverCompletes(env, Restored(e), "mirror", e, CauseOf(e));
  }

  // ---------------------------------------------------------------- a taken conflict name

  /** Another replica's first version of the same file. */
  function Rival(p: Path): Entry {
    var content := FileAt(p, [1], map["mirror" := 1]);
    Entry(content, VersionOf(content), Some(Pending(NoRevision)))
  }

  /** The authority has the file, and a file with other bytes under the name the rival's
      conflict copy would get. */
  function Crowded(p: Path, log: Log, target: Path): Replica
    requires |log| == 1
  {
    Replica("host", None, LEDGER, log, map[p := Row(Project(log[0]), Live(0), 1)], 1, 1,
            map[p := Doc([0], 0), target := Doc([2], 1)], 2, map[PartKey("mirror", Rival(p)) := [1]], [])
  }

  ghost predicate First(p: Path, log: Log) {
    && WellFormed(log, LEDGER) && |log| == 1
    && log[0].body.entry == Versioned(FileAt(p, [0], map["host" := 1]))
    && LatestOf(log, p) == Some(log[0]) && log[0].id.RevisionDigest?
  }

  lemma CrowdedRow(p: Path, log: Log, target: Path)
    requires InSection(p)
    requires First(p, log) && target != p
    ensures RowOk(Crowded(p, log, target), p)
  {
  }

  lemma CrowdedTree(p: Path, log: Log, target: Path)
    requires InSection(p)
    requires |log| == 1 && target != p && Ancestors(target) == {}
    ensures TreeOk(Crowded(p, log, target).tree)
    ensures forall q | q in Crowded(p, log, target).tree :: Crowded(p, log, target).tree[q].stamp < 2
  {
    assert Crowded(p, log, target).tree.Keys == {p, target};
  }

  lemma CrowdedLog(p: Path, log: Log, target: Path)
    requires InSection(p)
    requires First(p, log)
    ensures forall r | r in log :: r.Path() in Crowded(p, log, target).rows
  {
    assert log == [log[0]] && log[0].Path() == p;
  }

  lemma CrowdedIsSound(p: Path, log: Log, target: Path)
    requires InSection(p)
    requires First(p, log) && target != p && Ancestors(target) == {}
    ensures Inv(Crowded(p, log, target))
  {
    CrowdedRow(p, log, target);
    CrowdedTree(p, log, target);
    CrowdedLog(p, log, target);
  }

  function RivalDecision(): Decision {
    Decision(false, false, false, true, true)
  }

  lemma RivalIsSeen(p: Path, log: Log, target: Path)
    requires InSection(p)
    requires First(p, log) && target != p
    ensures Refresh(Crowded(p, log, target), p, CauseOf(Rival(p))) == Some(Crowded(p, log, target))
  {
  }

  lemma RivalLoses(p: Path, env: Env, s: Replica, log: Log, target: Path)
    requires InSection(p)
    requires First(p, log) && target != p && s == Crowded(p, log, target)
    ensures Relate(s, Rival(p)) == Apart && Decide(env, s, Rival(p), Apart) == RivalDecision()
    ensures Whole(s, "mirror", Rival(p))
  {
    assert s.rows[p].entry.content == FileAt(p, [0], map["host" := 1]);
    assert [0 as byte] != [1 as byte] && [0 as byte][0] == 0;
  }

  lemma RivalClock(p: Path, s: Replica, log: Log, target: Path)
    requires InSection(p)
    requires First(p, log) && s == Crowded(p, log, target)
    ensures |ClockFor(s, Rival(p))| <= 2
  {
    assert Joined(map["mirror" := 1], map["host" := 1]).Keys <= {"mirror", "host"};
    FewKeys(ClockFor(s, Rival(p)).Keys, {"mirror", "host"});
  }

  lemma RivalIsCarried(p: Path, s: Replica, log: Log, target: Path)
    requires InSection(p)
    requires First(p, log) && s == Crowded(p, log, target) && Whole(s, "mirror", Rival(p))
    ensures RouteWith(s, "mirror", Rival(p), true, Apart, RivalDecision()) == Carry(RivalDecision())
  {
    RivalClock(p, s, log, target);
    LocalLoserIsCarried(s, Rival(p), RivalDecision());
  }

  lemma LocalLoserIsCarried(s: Replica, e: Entry, d: Decision)
    requires !s.Mirror() && |ClockFor(s, e)| <= MAX_CLOCK && Whole(s, "mirror", e)
    ensures RouteWith(s, "mirror", e, true, Apart, d) == Carry(d)
  {
  }

  lemma FewKeys(a: set<string>, b: set<string>)
    requires a <= b
    ensures |a| <= |b|
  {
    assert b == a + (b - a);
  }

  /** Two replicas made the same file independently.  The second one's bytes are staged, but
      the merge is refused, and changes nothing, because their conflict name is taken. */
  lemma TakenNameRefuses(p: Path, env: Env)
    requires InSection(p)
    ensures |OneRevision(p)| == 1
    ensures var s := Crowded(p, OneRevision(p), ConflictPath(p, env.tag(Rival(p).version)));
            && Inv(s) && Whole(s, "mirror", Rival(p))
            && Merge(env, s, "mirror", Rival(p), true) == Outcome(s, Failed("conflict_copy"))
  {
    OneRevisionIsThere(p);
    RivalIsRefused(p, env, OneRevision(p));
  }

  lemma RivalIsRefused(p: Path, env: Env, log: Log)
    requires InSection(p)
    requires First(p, log)
    ensures var s := Crowded(p, log, ConflictPath(p, env.tag(Rival(p).version)));
            && Inv(s) && Whole(s, "mirror", Rival(p))
            && Merge(env, s, "mirror", Rival(p), true) == Outcome(s, Failed("conflict_copy"))
  {
    var target := ConflictPath(p, env.tag(Rival(p).version));
    var s := Crowded(p, log, target);
    HostVersions.FolderOfCopy(p, env.tag(Rival(p).version));
    ConflictPathDiffers(p, env.tag(Rival(p).version));
    CrowdedIsSound(p, log, target);
    RivalIsSeen(p, log, target);
    RivalLoses(p, env, s, log, target);
    RivalIsCarried(p, s, log, target);
    MergeCarries(env, s, "mirror", Rival(p), RivalDecision());
    RivalIsReady(p, env, s, target);
    ConflictIsKeptIff(env, s, "mirror", Rival(p), Apart, RivalDecision(), CauseOf(Rival(p)));
  }

  lemma RivalIsReady(p: Path, env: Env, s: Replica, target: Path)
    requires InSection(p)
    requires Inv(s) && p in s.rows && s.rows[p].stamp == StampOf(s.tree, p) && IsDoc(s.tree, p)
    requires s.rows[p].entry.content.kind == File && Whole(s, "mirror", Rival(p))
    requires Decide(env, s, Rival(p), Apart) == RivalDecision() && target in s.tree && s.tree[target] == Doc([2], 1)
    ensures Ready(env, s, "mirror", Rival(p), Apart, RivalDecision()) && Reachable(s.tree, p)
    ensures LoserOf(s, Rival(p), RivalDecision()) == Rival(p) && !NameServes(s, target, Rival(p).content.hash)
  {
    assert RowOk(s, p);
    NameServesNot(p, s, target);
  }

  lemma NameServesNot(p: Path, s: Replica, target: Path)
    requires InSection(p)
    requires target in s.tree && s.tree[target] == Doc([2], 1)
    ensures !NameServes(s, target, Rival(p).content.hash)
  {
    assert [2 as byte] != [1 as byte];
  }
}
