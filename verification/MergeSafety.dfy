/** A merge loses no bytes. */
module MergeSafety {
  import opened Records
  import opened Paths
  import opened NamespaceJournal
  import opened Trees
  import opened Replicas
  import opened Merges

  /** The tree holds a file with this digest at `p`. */
  predicate Holds(t: Tree, p: Path, d: Digest) {
    IsDoc(t, p) && Sha256(t[p].bytes) == d
  }

  /** Outside `touched` every entry stays as it is, and anything new is a folder. */
  ghost predicate OnlyTouches(t: Tree, t': Tree, touched: set<Path>) {
    && (forall q | q in t && q !in touched :: q in t' && t'[q] == t[q])
    && (forall q | q in t' && q !in t && q !in touched :: t'[q].Folder?)
  }

  lemma OnlyTouchesChain(t0: Tree, t1: Tree, t2: Tree, a: set<Path>, b: set<Path>)
    requires OnlyTouches(t0, t1, a) && OnlyTouches(t1, t2, b)
    ensures OnlyTouches(t0, t2, a + b)
  {
  }

  lemma InstallTouches(t: Tree, p: Path, bytes: Bytes, stamp: nat)
    requires Install(t, p, bytes, stamp).Some?
    ensures OnlyTouches(t, Install(t, p, bytes, stamp).value, {p})
    ensures p in Install(t, p, bytes, stamp).value && Install(t, p, bytes, stamp).value[p] == Doc(bytes, stamp)
  {
  }

  lemma MakeFolderTouches(t: Tree, p: Path, stamp: nat)
    requires MakeFolder(t, p, stamp).Some?
    ensures OnlyTouches(t, MakeFolder(t, p, stamp).value, {p})
  {
  }

  // ---------------------------------------------------------------- the two tree changes

  /** What placing a losing file does: only its conflict path gains a file, with the
      loser's digest; when the incoming entry wins, it has the local file's very bytes. */
  lemma PlaceCopyKeeps(s: Replica, peer: string, incoming: Entry, loser: Entry, wins: bool, target: Path)
    requires PlaceCopy(s, peer, incoming, loser, wins, target).Some?
    requires wins ==> Holds(s.tree, incoming.content.path, loser.content.hash)
    requires !wins ==> loser == incoming && Whole(s, peer, incoming)
    ensures var s' := PlaceCopy(s, peer, incoming, loser, wins, target).value;
            && OnlyTouches(s.tree, s'.tree, if target in s.tree then {} else {target})
            && Holds(s'.tree, target, loser.content.hash)
            && s' == s.(tree := s'.tree, tick := s'.tick, parts := s'.parts)
            && (forall k | k in s.parts && k != PartKey(peer, incoming) :: k in s'.parts && s'.parts[k] == s.parts[k])
            && (wins ==> s'.parts == s.parts)
  {
    if target in s.tree {
    } else if wins {
      InstallTouches(s.tree, target, s.tree[incoming.content.path].bytes, s.tick);
    } else {
      InstallTouches(s.tree, target, s.parts[PartKey(peer, incoming)], s.tick);
    }
  }

  lemma KeepLoserKeeps(env: Env, s: Replica, peer: string, incoming: Entry, loser: Entry, wins: bool, clock: Clock,
                       cause: Proposal)
    requires KeepLoser(env, s, peer, incoming, loser, wins, clock, cause).Some?
    requires wins ==> Holds(s.tree, incoming.content.path, loser.content.hash)
    requires !wins ==> loser == incoming && Whole(s, peer, incoming)
    ensures var s' := KeepLoser(env, s, peer, incoming, loser, wins, clock, cause).value;
            var target := ConflictPath(incoming.content.path, env.tag(loser.version));
            && OnlyTouches(s.tree, s'.tree, if target in s.tree then {} else {target})
            && Holds(s'.tree, target, loser.content.hash)
            && s'.recovery == s.recovery && s'.ledger == s.ledger && s'.host == s.host
            && (forall k | k in s.parts && k != PartKey(peer, incoming) :: k in s'.parts && s'.parts[k] == s.parts[k])
            && (wins ==> s'.parts == s.parts)
  {
    var copy := CopyOf(env, incoming.content.path, loser, clock);
    PlaceCopyKeeps(s, peer, incoming, loser, wins, copy.content.path);
    var placed := PlaceCopy(s, peer, incoming, loser, wins, copy.content.path).value;
    SaveFields(placed, copy, StampOf(placed.tree, copy.content.path), cause);
  }

  /** A save changes rows, the journal and the sequence only. */
  lemma SaveFields(s: Replica, e: Entry, stamp: Stamp, cause: Proposal)
    requires Save(s, e, stamp, cause).Some?
    ensures var s' := Save(s, e, stamp, cause).value;
            s' == s.(log := s'.log, sequence := s'.sequence, rows := s'.rows)
  {
  }

  /** What materializing does: only the path changes; a file that is replaced or removed
      is archived first. */
  lemma MaterializeKeeps(s: Replica, peer: string, incoming: Entry, local: Option<Row>)
    requires Materialize(s, peer, incoming, local).Some?
    ensures var s', path := Materialize(s, peer, incoming, local).value, incoming.content.path;
            && OnlyTouches(s.tree, s'.tree, {path})
            && s'.recovery == Archived(s, path)
            && s' == s.(tree := s'.tree, tick := s'.tick, parts := s'.parts, recovery := s'.recovery)
            && (incoming.content.kind == File ==> PartKey(peer, incoming) in s.parts && IsDoc(s'.tree, path)
                                                  && s'.tree[path].bytes == s.parts[PartKey(peer, incoming)])
            && (incoming.content.kind == Directory ==> path in s'.tree && s'.tree[path].Folder?)
            && (incoming.content.kind == Deleted ==> path !in s'.tree)
  {
    var path, key := incoming.content.path, PartKey(peer, incoming);
    match incoming.content.kind
    case File =>
      var cleared := (if LocalIs(local, Directory) then Remove(s.tree, path) else Some(s.tree)).value;
      InstallTouches(cleared, path, s.parts[key], s.tick);
    case Directory =>
      var cleared := (if LocalIs(local, File) then Remove(s.tree, path) else Some(s.tree)).value;
      MakeFolderTouches(cleared, path, s.tick);
    case Deleted =>
  }

  // ---------------------------------------------------------------- applying a decision

  /** The situation in which a decision is carried out. */
  ghost predicate Ready(env: Env, s: Replica, peer: string, incoming: Entry, relation: Relation, d: Decision) {
    && Inv(s) && Fresh(s, incoming.content.path)
    && relation in {Ahead, Apart} && d == Decide(env, s, incoming, relation)
    && (d.bytesNeeded ==> Whole(s, peer, incoming))
  }

  /** Where the loser of a merge goes. */
  function LoserPath(env: Env, s: Replica, incoming: Entry, d: Decision): Path {
    ConflictPath(incoming.content.path, env.tag(LoserOf(s, incoming, d).version))
  }

  /** Under a fresh row, the tree has a file exactly when the row is a fetched file. */
  lemma FreshFile(s: Replica, p: Path)
    requires Fresh(s, p)
    ensures IsDoc(s.tree, p) <==> p in s.rows && s.rows[p].entry.content.kind == File && s.rows[p].stamp != Remote
    ensures IsDoc(s.tree, p) ==> Sha256(s.tree[p].bytes) == s.rows[p].entry.content.hash
  {
  }

  /** The conflict path, when the merge writes a new file there. */
  function CopyMade(env: Env, s: Replica, incoming: Entry, d: Decision): set<Path> {
    var target := LoserPath(env, s, incoming, d);
    if d.conflict && target !in s.tree then {target} else {}
  }

  /** What keeping the loser left behind. */
  lemma KeptEffect(env: Env, s: Replica, peer: string, incoming: Entry, relation: Relation, d: Decision,
                   cause: Proposal)
    requires Ready(env, s, peer, incoming, relation, d) && Kept(env, s, peer, incoming, d, cause).Some?
    ensures var s1 := Kept(env, s, peer, incoming, d, cause).value;
            && OnlyTouches(s.tree, s1.tree, CopyMade(env, s, incoming, d))
            && (d.conflict ==> Holds(s1.tree, LoserPath(env, s, incoming, d), LoserOf(s, incoming, d).content.hash))
            && s1.recovery == s.recovery
            && (d.incomingWins ==> s1.parts == s.parts)
  {
    FreshFile(s, incoming.content.path);
    if d.conflict {
      KeepLoserKeeps(env, s, peer, incoming, LoserOf(s, incoming, d), d.incomingWins, ClockFor(s, incoming), cause);
    }
  }

  /** What is left when the loser could not be kept. */
  lemma UnkeptEffect(env: Env, s: Replica, peer: string, incoming: Entry, relation: Relation, d: Decision)
    requires Ready(env, s, peer, incoming, relation, d)
    ensures var s1 := Unkept(env, s, peer, incoming, d);
            && OnlyTouches(s.tree, s1.tree, CopyMade(env, s, incoming, d))
            && s1.recovery == s.recovery
  {
    FreshFile(s, incoming.content.path);
    var target := LoserPath(env, s, incoming, d);
    if d.conflict && PlaceCopy(s, peer, incoming, LoserOf(s, incoming, d), d.incomingWins, target).Some? {
      PlaceCopyKeeps(s, peer, incoming, LoserOf(s, incoming, d), d.incomingWins, target);
    }
  }

  /** A change of the tree at `p`, with whatever file was there archived. */
  ghost predicate Replaces(s: Replica, s': Replica, p: Path) {
    && OnlyTouches(s.tree, s'.tree, {p})
    && (s'.recovery == Archived(s, p) || (s'.recovery == s.recovery && s'.tree == s.tree))
  }

  lemma MadeEffect(s: Replica, peer: string, incoming: Entry, d: Decision, local: Option<Row>)
    requires Made(s, peer, incoming, d, local).Some?
    ensures Replaces(s, Made(s, peer, incoming, d, local).value, incoming.content.path)
  {
    if d.incomingWins && !d.same {
      MaterializeKeeps(s, peer, incoming, local);
    }
  }

  lemma KeptThenReplaced(s: Replica, s1: Replica, s2: Replica, copy: set<Path>, p: Path)
    requires OnlyTouches(s.tree, s1.tree, copy) && s1.recovery == s.recovery && p !in copy
    requires Replaces(s1, s2, p) && (p in s1.tree && p !in s.tree ==> s1.tree[p].Folder?)
    ensures OnlyTouches(s.tree, s2.tree, {p} + copy)
    ensures s2.recovery == Archived(s, p)
            || (s2.recovery == s.recovery && (p in s.tree ==> p in s2.tree && s2.tree[p] == s.tree[p]))
  {
    OnlyTouchesChain(s.tree, s1.tree, s2.tree, copy, {p});
    assert copy + {p} == {p} + copy;
  }

  /** Where a merge may stop: it touched the path and perhaps its conflict copy, and a
      file it replaced or removed at the path is in the archive. */
  ghost predicate Contained(s: Replica, s': Replica, p: Path, copy: set<Path>) {
    && OnlyTouches(s.tree, s'.tree, {p} + copy)
    && (s'.recovery == Archived(s, p)
        || (s'.recovery == s.recovery && (p in s.tree ==> p in s'.tree && s'.tree[p] == s.tree[p])))
  }

  predicate SameFiles(a: Replica, b: Replica) {
    a.tree == b.tree && a.recovery == b.recovery && a.parts == b.parts
  }

  lemma SaveOrFailFiles(s: Replica, e: Entry, stamp: Stamp, cause: Proposal)
    ensures SameFiles(s, SaveOrFail(s, e, stamp, cause).state)
  {
  }

  /** The state after each of the three stages a merge may stop at. */
  lemma ApplyStages(env: Env, s: Replica, peer: string, incoming: Entry, d: Decision, cause: Proposal)
    returns (kept: Option<Replica>, made: Option<Replica>, end: Outcome)
    ensures kept == Kept(env, s, peer, incoming, d, cause) && end == Apply(env, s, peer, incoming, d, cause)
    ensures kept.None? ==> end.state == Unkept(env, s, peer, incoming, d) && end.reply.Failed? && made.None?
    ensures kept.Some? ==> made == Made(kept.value, peer, incoming, d, LocalRow(s, incoming.content.path))
    ensures kept.Some? && made.None? ==> end.state == kept.value && end.reply.Failed?
    ensures made.Some? ==> SameFiles(made.value, end.state)
  {
    kept := Kept(env, s, peer, incoming, d, cause);
    end := Apply(env, s, peer, incoming, d, cause);
    if kept.None? {
      made := None;
    } else {
      var local := LocalRow(s, incoming.content.path);
      made := Made(kept.value, peer, incoming, d, local);
      if made.Some? && (d.incomingWins || local.Some?) {
        var winner := if d.incomingWins then incoming else EntryOf(local.value);
        SaveOrFailFiles(made.value, winner.(content := winner.content.(clock := ClockFor(s, incoming))),
                        StampOf(made.value.tree, incoming.content.path), cause);
      }
    }
  }

  lemma ApplyContained(env: Env, s: Replica, peer: string, incoming: Entry, relation: Relation, d: Decision,
                       cause: Proposal)
    requires Ready(env, s, peer, incoming, relation, d)
    ensures Contained(s, Apply(env, s, peer, incoming, d, cause).state, incoming.content.path,
                      CopyMade(env, s, incoming, d))
  {
    var path, copy := incoming.content.path, CopyMade(env, s, incoming, d);
    ConflictPathDiffers(path, env.tag(LoserOf(s, incoming, d).version));
    var kept, made, end := ApplyStages(env, s, peer, incoming, d, cause);
    if kept.Some? {
      KeptEffect(env, s, peer, incoming, relation, d, cause);
      if made.Some? {
        MadeEffect(kept.value, peer, incoming, d, LocalRow(s, path));
        KeptThenReplaced(s, kept.value, made.value, copy, path);
      }
    } else {
      UnkeptEffect(env, s, peer, incoming, relation, d);
    }
  }

  /** A merge carried out to completion leaves the incoming file's bytes at its path or at
      its conflict path, unless an older incoming version simply lost. */
  lemma ApplyIncoming(env: Env, s: Replica, peer: string, incoming: Entry, relation: Relation, d: Decision,
                      cause: Proposal)
    requires Ready(env, s, peer, incoming, relation, d) && incoming.content.kind == File
    requires Apply(env, s, peer, incoming, d, cause).reply == Complete
    requires d.incomingWins || d.conflict
    ensures var t, path := Apply(env, s, peer, incoming, d, cause).state.tree, incoming.content.path;
            Holds(t, path, incoming.content.hash)
              || Holds(t, ConflictPath(path, env.tag(incoming.version)), incoming.content.hash)
  {
    var path := incoming.content.path;
    var kept, made, end := ApplyStages(env, s, peer, incoming, d, cause);
    KeptEffect(env, s, peer, incoming, relation, d, cause);
    FreshFile(s, path);
    if d.incomingWins && !d.same {
      MaterializeKeeps(kept.value, peer, incoming, LocalRow(s, path));
    }
  }

  /** The local file's bytes stay at the path or go to its conflict path, unless the
      incoming entry simply follows it; then they are archived. */
  lemma ApplyLocal(env: Env, s: Replica, peer: string, incoming: Entry, relation: Relation, d: Decision,
                   cause: Proposal)
    requires Ready(env, s, peer, incoming, relation, d) && IsDoc(s.tree, incoming.content.path)
    requires Apply(env, s, peer, incoming, d, cause).reply == Complete
    ensures var s', path := Apply(env, s, peer, incoming, d, cause).state, incoming.content.path;
            || (path in s'.tree && s'.tree[path] == s.tree[path])
            || (d.conflict && d.incomingWins
                && Holds(s'.tree, ConflictPath(path, env.tag(s.rows[path].entry.version)), Sha256(s.tree[path].bytes)))
            || (!d.conflict && d.incomingWins && !d.same && s'.recovery == s.recovery + [(path, s.tree[path].bytes)])
  {
    var path := incoming.content.path;
    var kept, made, end := ApplyStages(env, s, peer, incoming, d, cause);
    KeptEffect(env, s, peer, incoming, relation, d, cause);
    FreshFile(s, path);
    ConflictPathDiffers(path, env.tag(LoserOf(s, incoming, d).version));
    if d.incomingWins && !d.same {
      MaterializeKeeps(kept.value, peer, incoming, LocalRow(s, path));
    }
  }

  // ---------------------------------------------------------------- the whole merge

  lemma FilesStay(env: Env, s: Replica, peer: string, incoming: Entry, route: Route, cause: Proposal)
    requires !route.Carry?
    ensures var end := Follow(env, s, peer, incoming, route, cause).state;
            end.tree == s.tree && end.recovery == s.recovery
  {
    match route
    case KeepEdit(row) => SaveOrFailFiles(s, Rebased(row.entry, incoming, row.entry.content.clock), row.stamp, cause);
    case Settle(local) => if local.Some? { SaveOrFailFiles(s, incoming, local.value.stamp, cause); }
    case KeepFolder(row) =>
      SaveOrFailFiles(s, Rebased(row.entry, incoming, Joined(incoming.content.clock, row.entry.content.clock)),
                      row.stamp, cause);
    case _ =>
  }

  lemma RouteEnding(env: Env, s: Replica, peer: string, incoming: Entry, route: Route, cause: Proposal)
    ensures var end := Follow(env, s, peer, incoming, route, cause);
            if route.Carry? then end == Apply(env, s, peer, incoming, route.decision, cause)
            else end.state.tree == s.tree && end.state.recovery == s.recovery
  {
    if !route.Carry? { FilesStay(env, s, peer, incoming, route, cause); }
  }

  lemma CarryFacts(s: Replica, peer: string, incoming: Entry, commit: bool, relation: Relation, d: Decision)
    ensures RouteWith(s, peer, incoming, commit, relation, d).Carry? ==>
              RouteWith(s, peer, incoming, commit, relation, d).decision == d && relation in {Ahead, Apart}
              && (d.bytesNeeded ==> Whole(s, peer, incoming))
  {
  }

  lemma CarriedIsReady(env: Env, s: Replica, peer: string, incoming: Entry, commit: bool, route: Route)
    requires Inv(s) && Fresh(s, incoming.content.path)
    requires route == RouteOf(env, s, peer, incoming, commit) && route.Carry?
    ensures Ready(env, s, peer, incoming, Relate(s, incoming), route.decision)
  {
    CarryFacts(s, peer, incoming, commit, Relate(s, incoming), Decide(env, s, incoming, Relate(s, incoming)));
  }

  /** After the look, a merge either leaves the files alone or carries out a decision. */
  lemma FreshEnding(env: Env, s: Replica, peer: string, incoming: Entry, commit: bool, cause: Proposal)
    returns (route: Route, end: Outcome)
    requires Inv(s) && Fresh(s, incoming.content.path)
    ensures route == RouteOf(env, s, peer, incoming, commit) && end == MergeFresh(env, s, peer, incoming, commit, cause)
    ensures !route.Carry? ==> end.state.tree == s.tree && end.state.recovery == s.recovery
    ensures route.Carry? ==> end == Apply(env, s, peer, incoming, route.decision, cause)
                             && Ready(env, s, peer, incoming, Relate(s, incoming), route.decision)
  {
    route := RouteOf(env, s, peer, incoming, commit);
    end := MergeFresh(env, s, peer, incoming, commit, cause);
    RouteEnding(env, s, peer, incoming, route, cause);
    if route.Carry? { CarriedIsReady(env, s, peer, incoming, commit, route); }
  }

  /** A proposed file that is not already there either wins or is kept as a conflict. */
  lemma ProposedFileIsKept(env: Env, s: Replica, incoming: Entry, relation: Relation)
    requires Proposed(s, incoming) && incoming.content.kind == File && relation in {Ahead, Apart}
    ensures var d := Decide(env, s, incoming, relation); d.incomingWins || d.conflict
  {
  }

  lemma SettledProposalIsThere(env: Env, s: Replica, peer: string, incoming: Entry, commit: bool)
    requires Inv(s) && Fresh(s, incoming.content.path) && Proposed(s, incoming) && incoming.content.kind == File
    requires RouteOf(env, s, peer, incoming, commit).Settle?
    ensures Holds(s.tree, incoming.content.path, incoming.content.hash)
  {
    assert RowOk(s, incoming.content.path);
    FreshFile(s, incoming.content.path);
  }

  /** A local file that is replaced without a conflict copy: the incoming entry follows
      it, is no folder, and the file was not a mirror's unconfirmed edit. */
  lemma ReplacedMeansAhead(env: Env, s: Replica, incoming: Entry, relation: Relation)
    requires relation in {Ahead, Apart} && LocalIs(LocalRow(s, incoming.content.path), File)
    requires s.rows[incoming.content.path].stamp != Remote
    ensures var d := Decide(env, s, incoming, relation);
            d.incomingWins && !d.conflict && !d.same ==>
              relation == Ahead && incoming.content.kind != Directory
              && !(s.Mirror() && s.rows[incoming.content.path].entry.IsPending())
  {
  }

  lemma RefreshIsALook(s: Replica, path: Path, cause: Proposal)
    requires Inv(s) && Refresh(s, path, cause).Some?
    ensures Looked(s, Refresh(s, path, cause).value, path)
  {
    ObservedMakesFresh(s, path, cause);
  }

  /** The replica after the look every merge starts with. */
  function Seen(s: Replica, incoming: Entry): Replica {
    var r := Refresh(s, incoming.content.path, CauseOf(incoming));
    if r.Some? then r.value else s
  }

  /** Where a losing file may be written. */
  function ConflictPaths(env: Env, seen: Replica, incoming: Entry): set<Path> {
    var path := incoming.content.path;
    {ConflictPath(path, env.tag(incoming.version))}
    + if path in seen.rows then {ConflictPath(path, env.tag(seen.rows[path].entry.version))} else {}
  }

  /** The files after a merge of `path`: other entries stay as they are, except that an
      unused conflict path may gain a file and missing parent folders may appear; a file
      no longer at `path` as it was is in the archive. */
  ghost predicate TouchesLittle(s: Replica, s': Replica, path: Path, conflicts: set<Path>) {
    && (forall q | q in s.tree && q != path :: q in s'.tree && s'.tree[q] == s.tree[q])
    && (forall q | q in s'.tree && q !in s.tree && q != path && q !in conflicts :: s'.tree[q].Folder?)
    && (s'.recovery == Archived(s, path)
        || (s'.recovery == s.recovery && (path in s.tree ==> path in s'.tree && s'.tree[path] == s.tree[path])))
  }

  lemma ContainedTouchesLittle(env: Env, s: Replica, s': Replica, incoming: Entry, d: Decision)
    requires Contained(s, s', incoming.content.path, CopyMade(env, s, incoming, d))
    ensures TouchesLittle(s, s', incoming.content.path, ConflictPaths(env, s, incoming))
  {
    var copy, path := CopyMade(env, s, incoming, d), incoming.content.path;
    assert copy <= ConflictPaths(env, s, incoming) && forall q | q in copy :: q !in s.tree;
    assert OnlyTouches(s.tree, s'.tree, {path} + copy);
  }

  lemma FreshTouchesLittle(env: Env, s: Replica, peer: string, incoming: Entry, commit: bool, cause: Proposal)
    requires Inv(s) && Fresh(s, incoming.content.path)
    ensures TouchesLittle(s, MergeFresh(env, s, peer, incoming, commit, cause).state, incoming.content.path,
                          ConflictPaths(env, s, incoming))
  {
    var route, end := FreshEnding(env, s, peer, incoming, commit, cause);
    if route.Carry? {
      ApplyContained(env, s, peer, incoming, Relate(s, incoming), route.decision, cause);
      ContainedTouchesLittle(env, s, end.state, incoming, route.decision);
    }
  }

  /** The merge is the look at its destination and what follows from there. */
  lemma MergeFromSeen(env: Env, s: Replica, peer: string, incoming: Entry, commit: bool)
    returns (seen: Replica, end: Outcome)
    requires Inv(s)
    ensures seen == Seen(s, incoming) && end == Merge(env, s, peer, incoming, commit)
    ensures Inv(seen) && seen.tree == s.tree && seen.recovery == s.recovery && seen.host == s.host
    ensures seen.parts == s.parts
    ensures Refresh(s, incoming.content.path, CauseOf(incoming)).None? ==>
              end == Outcome(Unseen(s, incoming.content.path), Failed("refresh"))
    ensures Refresh(s, incoming.content.path, CauseOf(incoming)).Some? ==>
              Fresh(seen, incoming.content.path)
                && end == MergeFresh(env, seen, peer, incoming, commit, CauseOf(incoming))
  {
    seen := Seen(s, incoming);
    end := Merge(env, s, peer, incoming, commit);
    if Refresh(s, incoming.content.path, CauseOf(incoming)).Some? {
      RefreshIsALook(s, incoming.content.path, CauseOf(incoming));
    }
  }

  /** However a merge ends, refused and broken off ones included, it touches little. */
  lemma MergeTouchesLittle(env: Env, s: Replica, peer: string, incoming: Entry, commit: bool)
    requires Inv(s)
    ensures TouchesLittle(s, Merge(env, s, peer, incoming, commit).state, incoming.content.path,
                          ConflictPaths(env, Seen(s, incoming), incoming))
  {
    var seen, end := MergeFromSeen(env, s, peer, incoming, commit);
    if Refresh(s, incoming.content.path, CauseOf(incoming)).Some? {
      FreshTouchesLittle(env, seen, peer, incoming, commit, CauseOf(incoming));
    }
  }

  /** No merge, whatever its outcome, lets any file's bytes vanish: they are still at
      their path or in the archive. */
  lemma NoBytesVanish(env: Env, s: Replica, peer: string, incoming: Entry, commit: bool, p: Path)
    requires Inv(s) && IsDoc(s.tree, p)
    ensures var s' := Merge(env, s, peer, incoming, commit).state;
            || (p in s'.tree && s'.tree[p] == s.tree[p])
            || (p, s.tree[p].bytes) in s'.recovery
  {
    MergeTouchesLittle(env, s, peer, incoming, commit);
  }

  // ---------------------------------------------------------------- completed merges

  ghost predicate IncomingKept(env: Env, t: Tree, incoming: Entry) {
    var path := incoming.content.path;
    Holds(t, path, incoming.content.hash)
      || Holds(t, ConflictPath(path, env.tag(incoming.version)), incoming.content.hash)
  }

  /** The file that was at `path`, whose row had `version`, is there or at its conflict path. */
  ghost predicate LocalKept(env: Env, t: Tree, t': Tree, path: Path, version: Version)
    requires IsDoc(t, path)
  {
    || (path in t' && t'[path] == t[path])
    || Holds(t', ConflictPath(path, env.tag(version)), Sha256(t[path].bytes))
  }

  lemma FreshKeepsIncoming(env: Env, s: Replica, peer: string, incoming: Entry, commit: bool, cause: Proposal)
    requires Inv(s) && Fresh(s, incoming.content.path) && Proposed(s, incoming) && incoming.content.kind == File
    requires MergeFresh(env, s, peer, incoming, commit, cause).reply == Complete
    ensures IncomingKept(env, MergeFresh(env, s, peer, incoming, commit, cause).state.tree, incoming)
  {
    var route, end := FreshEnding(env, s, peer, incoming, commit, cause);
    if route.Carry? {
      ProposedFileIsKept(env, s, incoming, Relate(s, incoming));
      ApplyIncoming(env, s, peer, incoming, Relate(s, incoming), route.decision, cause);
    } else if route.Settle? {
      SettledProposalIsThere(env, s, peer, incoming, commit);
    }
  }

  /** On the authority a proposed file that completes is there: at its own path or at its
      conflict path, with the proposed digest. */
  lemma AuthorityKeepsIncoming(env: Env, s: Replica, peer: string, incoming: Entry, commit: bool)
    requires Inv(s) && Proposed(s, incoming) && incoming.content.kind == File
    requires Merge(env, s, peer, incoming, commit).reply == Complete
    ensures IncomingKept(env, Merge(env, s, peer, incoming, commit).state.tree, incoming)
  {
    var seen, end := MergeFromSeen(env, s, peer, incoming, commit);
    FreshKeepsIncoming(env, seen, peer, incoming, commit, CauseOf(incoming));
  }

  lemma FreshKeepsLocal(env: Env, s: Replica, peer: string, incoming: Entry, commit: bool, cause: Proposal)
    requires Inv(s) && Fresh(s, incoming.content.path) && IsDoc(s.tree, incoming.content.path)
    requires MergeFresh(env, s, peer, incoming, commit, cause).reply == Complete
    ensures var s', path := MergeFresh(env, s, peer, incoming, commit, cause).state, incoming.content.path;
            && path in s.rows
            && (|| LocalKept(env, s.tree, s'.tree, path, s.rows[path].entry.version)
                || (&& Relate(s, incoming) == Ahead && incoming.content.kind != Directory
                    && !(s.Mirror() && s.rows[path].entry.IsPending())
                    && s'.recovery == s.recovery + [(path, s.tree[path].bytes)]))
  {
    FreshFile(s, incoming.content.path);
    var route, end := FreshEnding(env, s, peer, incoming, commit, cause);
    if route.Carry? {
      ReplacedMeansAhead(env, s, incoming, Relate(s, incoming));
      ApplyLocal(env, s, peer, incoming, Relate(s, incoming), route.decision, cause);
    }
  }

  /** On the authority the local file's bytes are at the path or at the conflict path of
      the version it had, unless the proposal was made against exactly the confirmed
      revision and does not put a folder in its place; even then they are archived. */
  lemma AuthorityKeepsLocal(env: Env, s: Replica, peer: string, incoming: Entry, commit: bool)
    requires Inv(s) && Proposed(s, incoming) && IsDoc(s.tree, incoming.content.path)
    requires Merge(env, s, peer, incoming, commit).reply == Complete
    ensures var s', seen, path := Merge(env, s, peer, incoming, commit).state, Seen(s, incoming), incoming.content.path;
            && path in seen.rows
            && (|| LocalKept(env, s.tree, s'.tree, path, seen.rows[path].entry.version)
                || (&& BaseIn(incoming) == ConfirmedId(seen, path) && incoming.content.kind != Directory
                    && s'.recovery == s.recovery + [(path, s.tree[path].bytes)]))
  {
    var seen, end := MergeFromSeen(env, s, peer, incoming, commit);
    FreshKeepsLocal(env, seen, peer, incoming, commit, CauseOf(incoming));
  }

  /** On a mirror a file edited since the last confirmed revision survives every host
      revision that completes: at its path or at its conflict path. */
  lemma MirrorKeepsPending(env: Env, s: Replica, peer: string, incoming: Entry, commit: bool)
    requires Inv(s) && s.Mirror() && IsDoc(s.tree, incoming.content.path)
    requires Merge(env, s, peer, incoming, commit).reply == Complete
    ensures var s', seen, path := Merge(env, s, peer, incoming, commit).state, Seen(s, incoming), incoming.content.path;
            path in seen.rows && (seen.rows[path].entry.IsPending() ==>
                                    LocalKept(env, s.tree, s'.tree, path, seen.rows[path].entry.version))
  {
    var seen, end := MergeFromSeen(env, s, peer, incoming, commit);
    FreshKeepsLocal(env, seen, peer, incoming, commit, CauseOf(incoming));
  }
}
