/** What a merge on a mirror is for the round: at most one look, one conflict copy, and one of
    the three effects of the state machine. */
module MergeSteps {
  import opened Records
  import opened Paths
  import opened NamespaceJournal
  import opened Trees
  import opened Replicas
  import opened Merges
  import opened MergeSafety
  import opened MergeInvariant
  import HostVersions
  import MergeConditions
  import C = Cursors

  /** The index as the round sees it. */
  function Rows(rows: map<Path, Row>): map<Path, C.LocalRow> {
    map p | p in rows :: C.LocalRow(rows[p].entry.version, rows[p].sequence, !rows[p].entry.IsConfirmed())
  }

  /** The round's state over this replica. */
  function View(s: Replica, c: C.State): C.State {
    c.(rows := Rows(s.rows), sequence := s.sequence)
  }

  /** A proposal saved for a path. */
  function Proposes(c: C.State, path: Path, version: Version): C.State {
    C.WithRow(c, path, C.SavedRow(c, path, version, true))
  }

  // ---------------------------------------------------------------- saving

  lemma StoredIsARow(s: Replica, e: Entry, stamp: Stamp, c: C.State)
    requires Stored(s, s.log, e, stamp).Some?
    requires e.content.path in s.rows ==> s.rows[e.content.path].sequence <= s.sequence
    ensures View(Stored(s, s.log, e, stamp).value, c)
            == C.WithRow(View(s, c), e.content.path,
                         C.SavedRow(View(s, c), e.content.path, e.version, !e.IsConfirmed()))
  {
    var s' := Stored(s, s.log, e, stamp).value;
    RowsUpdated(s.rows, e.content.path, s'.rows[e.content.path]);
  }

  lemma RowsUpdated(rows: map<Path, Row>, p: Path, row: Row)
    ensures Rows(rows[p := row])
            == Rows(rows)[p := C.LocalRow(row.entry.version, row.sequence, !row.entry.IsConfirmed())]
  {
  }

  /** A save on a mirror is a save of the round's row. */
  lemma SaveIsARow(s: Replica, e: Entry, stamp: Stamp, cause: Proposal, c: C.State)
    requires s.Mirror() && Save(s, e, stamp, cause).Some?
    requires e.content.path in s.rows ==> s.rows[e.content.path].sequence <= s.sequence
    ensures View(Save(s, e, stamp, cause).value, c)
            == C.WithRow(View(s, c), e.content.path,
                         C.SavedRow(View(s, c), e.content.path, VersionOf(e.content), !e.IsConfirmed()))
  {
    var standing := if e.IsConfirmed() then e.standing else Some(Pending(BaseFor(s, e)));
    StoredIsARow(s, Entry(e.content, VersionOf(e.content), standing), stamp, c);
  }

  lemma SavedAgain(s: Replica, e: Entry, stamp: Stamp, cause: Proposal, c: C.State)
    requires Inv(s) && s.Mirror() && Save(s, e, stamp, cause).Some?
    requires e.content.path in s.rows && VersionOf(e.content) == s.rows[e.content.path].entry.version
    requires e.IsConfirmed() == s.rows[e.content.path].entry.IsConfirmed()
    ensures View(Save(s, e, stamp, cause).value, c) == View(s, c)
  {
    assert RowOk(s, e.content.path);
    SaveIsARow(s, e, stamp, cause, c);
    assert View(s, c).rows[e.content.path := View(s, c).rows[e.content.path]] == View(s, c).rows;
  }

  // ---------------------------------------------------------------- looking

  /** A look finds nothing new, or an edit under a version the row does not have. */
  ghost predicate Looks(v: C.State, looked: C.State, path: Path) {
    looked == v || exists version :: C.Enabled(v, C.Edited(path, version)) && looked == Proposes(v, path, version)
  }

  lemma EditedIsNew(s: Replica, path: Path)
    requires Inv(s)
    ensures path in s.rows ==> VersionOf(EditEntry(s, path).content) != s.rows[path].entry.version
  {
    if path in s.rows {
      assert RowOk(s, path);
      assert EditEntry(s, path).content.clock[s.id] > Reading(ClockAt(s, path), s.id);
    }
  }

  lemma ObservedIsALook(s: Replica, path: Path, cause: Proposal, c: C.State)
    requires Inv(s) && s.Mirror() && Observed(s, path, cause).Some?
    ensures Looks(View(s, c), View(Observed(s, path, cause).value, c), path)
  {
    match LookAt(s, path)
    case Unchanged =>
    case Restamped =>
      assert RowOk(s, path);
      SavedAgain(s, EntryOf(s.rows[path]), StampOf(s.tree, path), cause, c);
    case Edited =>
      var counted, version := s.(counter := EditCounter(s, path)), VersionOf(EditEntry(s, path).content);
      assert path in s.rows ==> RowOk(s, path);
      SaveIsARow(counted, EditEntry(s, path), StampOf(s.tree, path), cause, c);
      EditedIsNew(s, path);
      assert C.Enabled(View(s, c), C.Edited(path, version));
  }

  // ---------------------------------------------------------------- keeping the loser

  /** No copy is saved, or one under its conflict name. */
  ghost predicate Copies(looked: C.State, copied: C.State) {
    copied == looked || exists path, version :: copied == Proposes(looked, path, version)
  }

  lemma PlacedFields(s: Replica, peer: string, incoming: Entry, loser: Entry, wins: bool, target: Path)
    requires PlaceCopy(s, peer, incoming, loser, wins, target).Some?
    ensures var placed := PlaceCopy(s, peer, incoming, loser, wins, target).value;
            placed == s.(tree := placed.tree, tick := placed.tick, parts := placed.parts)
  {
  }

  /** In an index every row's sequence is one that was given out. */
  ghost predicate Numbered(s: Replica) {
    forall p | p in s.rows :: s.rows[p].sequence <= s.sequence
  }

  lemma InvIsNumbered(s: Replica)
    requires Inv(s)
    ensures Numbered(s)
  {
    forall p | p in s.rows ensures s.rows[p].sequence <= s.sequence { assert RowOk(s, p); }
  }

  lemma LoserIsACopy(env: Env, s: Replica, peer: string, incoming: Entry, loser: Entry, wins: bool, clock: Clock,
                     cause: Proposal, c: C.State)
    requires s.Mirror() && Numbered(s) && KeepLoser(env, s, peer, incoming, loser, wins, clock, cause).Some?
    ensures Copies(View(s, c), View(KeepLoser(env, s, peer, incoming, loser, wins, clock, cause).value, c))
    ensures var kept := KeepLoser(env, s, peer, incoming, loser, wins, clock, cause).value; kept.host == s.host
  {
    var copy := CopyOf(env, incoming.content.path, loser, clock);
    var placed := PlaceCopy(s, peer, incoming, loser, wins, copy.content.path).value;
    PlacedFields(s, peer, incoming, loser, wins, copy.content.path);
    SaveIsARow(placed, copy, StampOf(placed.tree, copy.content.path), cause, c);
    assert View(placed, c) == View(s, c);
    assert View(KeepLoser(env, s, peer, incoming, loser, wins, clock, cause).value, c)
           == Proposes(View(s, c), copy.content.path, VersionOf(copy.content));
  }

  lemma KeptIsACopy(env: Env, s: Replica, peer: string, incoming: Entry, d: Decision, cause: Proposal, c: C.State)
    requires s.Mirror() && Numbered(s) && Kept(env, s, peer, incoming, d, cause).Some?
    ensures Copies(View(s, c), View(Kept(env, s, peer, incoming, d, cause).value, c))
    ensures Kept(env, s, peer, incoming, d, cause).value.host == s.host
  {
    if d.conflict {
      LoserIsACopy(env, s, peer, incoming, LoserOf(s, incoming, d), d.incomingWins, ClockFor(s, incoming), cause, c);
    }
  }

  lemma UnkeptIsNothing(env: Env, s: Replica, peer: string, incoming: Entry, d: Decision, c: C.State)
    ensures View(Unkept(env, s, peer, incoming, d), c) == View(s, c)
  {
    var loser := LoserOf(s, incoming, d);
    var target := ConflictPath(incoming.content.path, env.tag(loser.version));
    if PlaceCopy(s, peer, incoming, loser, d.incomingWins, target).Some? {
      PlacedFields(s, peer, incoming, loser, d.incomingWins, target);
    }
  }

  lemma MadeIsNothing(s: Replica, peer: string, incoming: Entry, d: Decision, local: Option<Row>, c: C.State)
    requires Made(s, peer, incoming, d, local).Some?
    ensures var made := Made(s, peer, incoming, d, local).value;
            View(made, c) == View(s, c) && made.host == s.host && made.rows == s.rows && made.sequence == s.sequence
  {
  }

  // ---------------------------------------------------------------- the effect

  /** What the merge of an entry comes to: one of the effects when it completes, nothing
      otherwise. */
  ghost predicate Ends(copied: C.State, end: C.State, reply: Reply, path: Path, effect: Option<C.Effect>) {
    && (reply == Complete <==> effect.Some?)
    && (effect.None? ==> end == copied)
    && (effect.Some? ==> end == C.Affected(copied, path, effect.value)
                         && (effect.value.KeepsEdit? ==> path in copied.rows && copied.rows[path].pending))
  }

  lemma SaveOrFailEnds(s: Replica, e: Entry, stamp: Stamp, cause: Proposal, c: C.State)
    returns (effect: Option<C.Effect>)
    requires s.Mirror() && Numbered(s)
    ensures var end := SaveOrFail(s, e, stamp, cause);
            Ends(View(s, c), View(end.state, c), end.reply, e.content.path, effect)
    ensures effect.Some? ==>
              effect.value == if e.IsConfirmed() then C.TakesHost(VersionOf(e.content))
                else C.ProposesFolder(VersionOf(e.content))
  {
    effect := None;
    if Save(s, e, stamp, cause).Some? {
      SaveIsARow(s, e, stamp, cause, c);
      effect := Some(if e.IsConfirmed() then C.TakesHost(VersionOf(e.content))
                     else C.ProposesFolder(VersionOf(e.content)));
    }
  }

  lemma TakenFromHost(s: Replica, e: Entry, stamp: Stamp, cause: Proposal, c: C.State)
    returns (effect: Option<C.Effect>)
    requires s.Mirror() && Numbered(s) && e.IsConfirmed()
    ensures var end := SaveOrFail(s, e, stamp, cause);
            Ends(View(s, c), View(end.state, c), end.reply, e.content.path, effect)
    ensures effect.Some? ==> effect.value == C.TakesHost(VersionOf(e.content))
  {
    effect := SaveOrFailEnds(s, e, stamp, cause, c);
  }

  /** Carrying out a host's entry: perhaps a copy, and then the host's version. */
  lemma ApplyEnds(env: Env, s: Replica, peer: string, incoming: Entry, d: Decision, cause: Proposal, c: C.State)
    returns (copied: C.State, effect: Option<C.Effect>)
    requires s.Mirror() && Numbered(s) && d.incomingWins && incoming.IsConfirmed()
    ensures Copies(View(s, c), copied)
    ensures var end := Apply(env, s, peer, incoming, d, cause);
            Ends(copied, View(end.state, c), end.reply, incoming.content.path, effect)
  {
    var kept, made, end := ApplyStages(env, s, peer, incoming, d, cause);
    copied, effect := View(s, c), None;
    if kept.None? {
      UnkeptIsNothing(env, s, peer, incoming, d, c);
    } else {
      KeptIsACopy(env, s, peer, incoming, d, cause, c);
      copied := View(kept.value, c);
      if made.Some? {
        KeptIsNumbered(env, s, peer, incoming, d, cause);
        MadeIsNothing(kept.value, peer, incoming, d, LocalRow(s, incoming.content.path), c);
        HostVersions.ClockIsHosts(s, incoming);
        effect := TakenFromHost(made.value, incoming, StampOf(made.value.tree, incoming.content.path), cause, c);
      }
    }
  }

  lemma KeptIsNumbered(env: Env, s: Replica, peer: string, incoming: Entry, d: Decision, cause: Proposal)
    requires s.Mirror() && Numbered(s) && Kept(env, s, peer, incoming, d, cause).Some?
    ensures Numbered(Kept(env, s, peer, incoming, d, cause).value)
  {
    if d.conflict {
      var copy := CopyOf(env, incoming.content.path, LoserOf(s, incoming, d), ClockFor(s, incoming));
      var placed := PlaceCopy(s, peer, incoming, LoserOf(s, incoming, d), d.incomingWins, copy.content.path).value;
      PlacedFields(s, peer, incoming, LoserOf(s, incoming, d), d.incomingWins, copy.content.path);
      SaveIsNumbered(placed, copy, StampOf(placed.tree, copy.content.path), cause);
    }
  }

  lemma SaveIsNumbered(s: Replica, e: Entry, stamp: Stamp, cause: Proposal)
    requires s.Mirror() && Numbered(s) && Save(s, e, stamp, cause).Some?
    ensures Numbered(Save(s, e, stamp, cause).value)
  {
  }

  lemma EditIsKept(s: Replica, path: Path, incoming: Entry, cause: Proposal, c: C.State)
    returns (effect: Option<C.Effect>)
    requires Inv(s) && s.Mirror() && path in s.rows && !s.rows[path].entry.IsConfirmed()
    ensures var row := s.rows[path];
            var end := SaveOrFail(s, Rebased(row.entry, incoming, row.entry.content.clock), row.stamp, cause);
            Ends(View(s, c), View(end.state, c), end.reply, path, effect)
  {
    var row := s.rows[path];
    var e := Rebased(row.entry, incoming, row.entry.content.clock);
    assert RowOk(s, path);
    effect := None;
    if Save(s, e, row.stamp, cause).Some? {
      SavedAgain(s, e, row.stamp, cause, c);
      effect := Some(C.KeepsEdit);
    }
  }

  /** What the routes but the last come to. */
  lemma FollowEnds(env: Env, s: Replica, peer: string, incoming: Entry, route: Route, cause: Proposal, c: C.State)
    returns (effect: Option<C.Effect>)
    requires Inv(s) && s.Mirror() && !route.Carry? && (route.Settle? ==> route.local.Some? && incoming.IsConfirmed())
    requires var path := incoming.content.path;
             && (route.KeepEdit? || route.KeepFolder? ==> path in s.rows && route.row == s.rows[path])
             && (route.KeepEdit? ==> !route.row.entry.IsConfirmed())
    ensures var end := Follow(env, s, peer, incoming, route, cause);
            Ends(View(s, c), View(end.state, c), end.reply, incoming.content.path, effect)
    ensures route.KeepFolder? && effect.Some? ==>
              effect.value == C.ProposesFolder(VersionOf(MergeConditions.FolderProposal(route.row, incoming).content))
  {
    effect := None;
    InvIsNumbered(s);
    match route
    case KeepEdit(row) => effect := EditIsKept(s, incoming.content.path, incoming, cause, c);
    case Settle(local) => effect := TakenFromHost(s, incoming, local.value.stamp, cause, c);
    case KeepFolder(row) =>
      assert RowOk(s, incoming.content.path);
      effect := SaveOrFailEnds(s, MergeConditions.FolderProposal(row, incoming), row.stamp, cause, c);
    case _ =>
  }

  lemma RouteOnMirror(env: Env, s: Replica, peer: string, incoming: Entry, commit: bool)
    requires s.Mirror()
    ensures var route, path := RouteOf(env, s, peer, incoming, commit), incoming.content.path;
            && (!route.Refuse? ==> incoming.IsConfirmed())
            && (route.Settle? ==> route.local.Some?) && (route.Carry? ==> route.decision.incomingWins)
            && (route.KeepEdit? || route.KeepFolder? ==> path in s.rows && route.row == s.rows[path])
            && (route.KeepEdit? ==> !route.row.entry.IsConfirmed())
  {
  }

  lemma FreshMergeEnds(env: Env, s: Replica, peer: string, incoming: Entry, commit: bool, cause: Proposal, c: C.State)
    returns (copied: C.State, effect: Option<C.Effect>)
    requires Inv(s) && s.Mirror()
    ensures Copies(View(s, c), copied)
    ensures var end := MergeFresh(env, s, peer, incoming, commit, cause);
            Ends(copied, View(end.state, c), end.reply, incoming.content.path, effect)
  {
    var route := RouteOf(env, s, peer, incoming, commit);
    RouteOnMirror(env, s, peer, incoming, commit);
    if route.Carry? {
      InvIsNumbered(s);
      copied, effect := ApplyEnds(env, s, peer, incoming, route.decision, cause, c);
    } else {
      copied := View(s, c);
      effect := FollowEnds(env, s, peer, incoming, route, cause, c);
    }
  }

  /** Every merge on a mirror, however it ends, is for the round at most an edit found by the
      look, then at most a conflict copy saved, and then, exactly when it completes, one of
      the three effects. */
  lemma MergeIsAStep(env: Env, s: Replica, peer: string, incoming: Entry, commit: bool, c: C.State)
    returns (looked: C.State, copied: C.State, effect: Option<C.Effect>)
    requires Inv(s) && s.Mirror()
    ensures Looks(View(s, c), looked, incoming.content.path) && Copies(looked, copied)
    ensures var end := Merge(env, s, peer, incoming, commit);
            Ends(copied, View(end.state, c), end.reply, incoming.content.path, effect)
  {
    var path, cause := incoming.content.path, CauseOf(incoming);
    var seen := Refresh(s, path, cause);
    if seen.None? {
      looked, copied, effect := View(s, c), View(s, c), None;
    } else {
      ObservedIsALook(s, path, cause, c);
      RefreshIsALook(s, path, cause);
      looked := View(seen.value, c);
      copied, effect := FreshMergeEnds(env, seen.value, peer, incoming, commit, cause, c);
    }
  }

  /** A mirror that keeps its confirmed folder against the host slips behind the push cursor
      exactly when the folder's clock covers the host's, its sequence lies at or before the
      cursor, and the host has not completed it. */
  lemma KeptFolderSlipsIff(s: Replica, path: Path, incoming: Entry, c: C.State)
    requires Inv(s) && s.Mirror() && path in s.rows && ValidContent(s.rows[path].entry.content)
    requires ValidContent(incoming.content)
    ensures var row, v := s.rows[path], VersionOf(MergeConditions.FolderProposal(s.rows[path], incoming).content);
            C.Reproposed(View(s, c), path, v)
            <==> && row.entry.IsConfirmed()
                 && Compare(row.entry.content.clock, incoming.content.clock) in {Order.Equal, Greater}
                 && row.sequence <= c.savedPushed && (path, v) !in c.completed
  {
    var content := s.rows[path].entry.content;
    assert RowOk(s, path);
    MergeConditions.JoinAbsorbsIff(incoming.content.clock, content.clock);
    assert MergeConditions.FolderProposal(s.rows[path], incoming).content.clock
           == Joined(incoming.content.clock, content.clock);
  }

  /** A conflict copy slips behind the push cursor exactly when it lies there as a confirmed file
      already, word for word, which the host has not completed. */
  lemma SavedCopySlipsIff(s: Replica, copy: Content, c: C.State)
    requires Inv(s) && s.Mirror()
    ensures C.Reproposed(View(s, c), copy.path, VersionOf(copy))
            <==> && copy.path in s.rows && s.rows[copy.path].entry.IsConfirmed()
                 && s.rows[copy.path].entry.content == copy
                 && s.rows[copy.path].sequence <= c.savedPushed && (copy.path, VersionOf(copy)) !in c.completed
  {
    if copy.path in s.rows { assert RowOk(s, copy.path); }
  }
}
