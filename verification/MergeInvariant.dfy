/** Every merge keeps what a replica promises: on the authority each row stays the
    projection of the newest revision of its path, whatever way the merge ends. */
module MergeInvariant {
  import opened Records
  import opened Paths
  import opened NamespaceJournal
  import opened Trees
  import opened Replicas
  import opened Merges
  import opened MergeSafety

  /** Every entry of the new tree is an old one or carries a new stamp. */
  ghost predicate FreshNodes(t: Tree, t': Tree, tick: nat, tick': nat) {
    forall q | q in t' :: (q in t && t'[q] == t[q]) || tick <= t'[q].stamp < tick'
  }

  /** Changing the tree with new stamps cannot make any row tell a lie. */
  lemma TreeChangeKeepsInv(s: Replica, t: Tree, tick: nat)
    requires Inv(s) && TreeOk(t) && s.tick <= tick && FreshNodes(s.tree, t, s.tick, tick)
    ensures Inv(s.(tree := t, tick := tick))
  {
    var s' := s.(tree := t, tick := tick);
    forall p | p in s'.rows ensures RowOk(s', p) {
      assert RowOk(s, p);
    }
  }

  lemma PartsKeepInv(s: Replica, parts: map<(string, Version), Bytes>, recovery: seq<(Path, Bytes)>)
    requires Inv(s)
    ensures Inv(s.(parts := parts, recovery := recovery))
  {
    var s' := s.(parts := parts, recovery := recovery);
    forall p | p in s'.rows ensures RowOk(s', p) {
      assert RowOk(s, p);
    }
  }

  lemma InstallFresh(t: Tree, p: Path, bytes: Bytes, tick: nat)
    requires Install(t, p, bytes, tick).Some?
    ensures FreshNodes(t, Install(t, p, bytes, tick).value, tick, tick + 1)
  {
  }

  lemma MakeFolderFresh(t: Tree, p: Path, tick: nat)
    requires MakeFolder(t, p, tick).Some?
    ensures FreshNodes(t, MakeFolder(t, p, tick).value, tick, tick + 1)
  {
  }

  /** A save of what the tree holds, or of what a remote row promised, keeps the replica. */
  lemma SaveOrFailKeepsInv(s: Replica, e: Entry, stamp: Stamp, cause: Proposal)
    requires Inv(s) && Shaped(e.content)
    requires stamp == Remote ==> s.Mirror()
    requires stamp.Live? ==> stamp.token < s.tick
    requires Describes(e.content, s.tree, e.content.path) || stamp == Remote
    ensures Inv(SaveOrFail(s, e, stamp, cause).state)
  {
    if Save(s, e, stamp, cause).Some? {
      SaveKeepsInv(s, e, stamp, cause);
    }
  }

  // ---------------------------------------------------------------- one tree operation each

  lemma InstallKeepsInv(s: Replica, t: Tree, p: Path, bytes: Bytes)
    requires Inv(s) && TreeOk(t) && FreshNodes(s.tree, t, s.tick, s.tick) && Install(t, p, bytes, s.tick).Some?
    ensures Inv(Grown(s, Install(t, p, bytes, s.tick).value))
  {
    InstallOk(t, p, bytes, s.tick);
    InstallFresh(t, p, bytes, s.tick);
    TreeChangeKeepsInv(s, Install(t, p, bytes, s.tick).value, s.tick + 1);
  }

  lemma MakeFolderKeepsInv(s: Replica, t: Tree, p: Path)
    requires Inv(s) && TreeOk(t) && FreshNodes(s.tree, t, s.tick, s.tick) && MakeFolder(t, p, s.tick).Some?
    ensures Inv(Grown(s, MakeFolder(t, p, s.tick).value))
  {
    MakeFolderOk(t, p, s.tick);
    MakeFolderFresh(t, p, s.tick);
    TreeChangeKeepsInv(s, MakeFolder(t, p, s.tick).value, s.tick + 1);
  }

  lemma RemoveKeepsInv(s: Replica, p: Path)
    requires Inv(s) && Remove(s.tree, p).Some?
    ensures Inv(s.(tree := Remove(s.tree, p).value))
  {
    RemoveOk(s.tree, p);
    TreeChangeKeepsInv(s, Remove(s.tree, p).value, s.tick);
  }

  /** The tree after an entry of the other kind made room. */
  lemma ClearedTree(t: Tree, p: Path, clear: bool, tick: nat)
    requires TreeOk(t) && (clear ==> Remove(t, p).Some?)
    ensures var t' := if clear then Remove(t, p).value else t; TreeOk(t') && FreshNodes(t, t', tick, tick)
  {
    if clear { RemoveOk(t, p); }
  }

  lemma MaterializeKeepsInv(s: Replica, peer: string, incoming: Entry, local: Option<Row>)
    requires Inv(s) && Materialize(s, peer, incoming, local).Some?
    ensures Inv(Materialize(s, peer, incoming, local).value)
  {
    match incoming.content.kind
    case File => MaterializeFileKeepsInv(s, peer, incoming, local);
    case Directory => MaterializeFolderKeepsInv(s, peer, incoming, local);
    case Deleted =>
      RemoveKeepsInv(s, incoming.content.path);
      PartsKeepInv(s.(tree := Remove(s.tree, incoming.content.path).value), s.parts,
                   Archived(s, incoming.content.path));
  }

  lemma MaterializeFileKeepsInv(s: Replica, peer: string, incoming: Entry, local: Option<Row>)
    requires Inv(s) && incoming.content.kind == File && Materialize(s, peer, incoming, local).Some?
    ensures Inv(Materialize(s, peer, incoming, local).value)
  {
    var path, key := incoming.content.path, PartKey(peer, incoming);
    ClearedTree(s.tree, path, LocalIs(local, Directory), s.tick);
    var cleared := if LocalIs(local, Directory) then Remove(s.tree, path).value else s.tree;
    InstallKeepsInv(s, cleared, path, s.parts[key]);
    PartsKeepInv(Grown(s, Install(cleared, path, s.parts[key], s.tick).value), s.parts - {key}, Archived(s, path));
  }

  lemma MaterializeFolderKeepsInv(s: Replica, peer: string, incoming: Entry, local: Option<Row>)
    requires Inv(s) && incoming.content.kind == Directory && Materialize(s, peer, incoming, local).Some?
    ensures Inv(Materialize(s, peer, incoming, local).value)
  {
    var path := incoming.content.path;
    ClearedTree(s.tree, path, LocalIs(local, File), s.tick);
    var cleared := if LocalIs(local, File) then Remove(s.tree, path).value else s.tree;
    MakeFolderKeepsInv(s, cleared, path);
    PartsKeepInv(Grown(s, MakeFolder(cleared, path, s.tick).value), s.parts,
                 if LocalIs(local, File) then Archived(s, path) else s.recovery);
  }

  // ---------------------------------------------------------------- keeping the loser

  lemma CopyInstalledKeepsInv(s: Replica, target: Path, bytes: Bytes, parts: map<(string, Version), Bytes>)
    requires Inv(s) && Install(s.tree, target, bytes, s.tick).Some?
    ensures Inv(Grown(s, Install(s.tree, target, bytes, s.tick).value).(parts := parts))
  {
    var grown := Grown(s, Install(s.tree, target, bytes, s.tick).value);
    InstallKeepsInv(s, s.tree, target, bytes);
    PartsKeepInv(grown, parts, s.recovery);
    assert grown.(parts := parts, recovery := s.recovery) == grown.(parts := parts);
  }

  /** The size of a file's digest preimage is the file's size. */
  predicate Sized(c: Content) {
    c.hash.Sha256? ==> |c.hash.bytes| == c.size
  }

  lemma PlaceCopyKeepsInv(s: Replica, peer: string, incoming: Entry, loser: Entry, wins: bool, target: Path)
    requires Inv(s) && PlaceCopy(s, peer, incoming, loser, wins, target).Some?
    ensures Inv(PlaceCopy(s, peer, incoming, loser, wins, target).value)
  {
    if target !in s.tree {
      if wins {
        CopyInstalledKeepsInv(s, target, s.tree[incoming.content.path].bytes, s.parts);
      } else {
        var key := PartKey(peer, incoming);
        CopyInstalledKeepsInv(s, target, s.parts[key], s.parts - {key});
      }
    }
  }

  /** What is placed is what the copy's entry says. */
  lemma PlacedDescribes(s: Replica, peer: string, incoming: Entry, loser: Entry, wins: bool, target: Path, clock: Clock)
    requires PlaceCopy(s, peer, incoming, loser, wins, target).Some?
    requires loser.content.kind == File && Sized(loser.content)
    requires wins ==> Holds(s.tree, incoming.content.path, loser.content.hash)
    requires !wins ==> loser == incoming && Whole(s, peer, incoming)
    ensures Describes(loser.content.(path := target, clock := clock),
                      PlaceCopy(s, peer, incoming, loser, wins, target).value.tree, target)
  {
    PlaceCopyKeeps(s, peer, incoming, loser, wins, target);
  }

  lemma KeepLoserKeepsInv(env: Env, s: Replica, peer: string, incoming: Entry, loser: Entry, wins: bool, clock: Clock,
                          cause: Proposal)
    requires Inv(s) && KeepLoser(env, s, peer, incoming, loser, wins, clock, cause).Some?
    requires loser.content.kind == File && Sized(loser.content)
    requires wins ==> Holds(s.tree, incoming.content.path, loser.content.hash)
    requires !wins ==> loser == incoming && Whole(s, peer, incoming)
    ensures Inv(KeepLoser(env, s, peer, incoming, loser, wins, clock, cause).value)
  {
    var copy := CopyOf(env, incoming.content.path, loser, clock);
    var target := copy.content.path;
    PlaceCopyKeepsInv(s, peer, incoming, loser, wins, target);
    PlacedDescribes(s, peer, incoming, loser, wins, target, clock);
    var placed := PlaceCopy(s, peer, incoming, loser, wins, target).value;
    SaveOrFailKeepsInv(placed, copy, StampOf(placed.tree, target), cause);
  }

  // ---------------------------------------------------------------- the three stages

  /** A conflict copy lies beside the entry, so making room for it never puts a folder
      at the entry itself. */
  lemma CopyNeedsNoFolderThere(p: Path, tag: Tag)
    ensures p !in Ancestors(ConflictPath(p, tag))
  {
    var q := ConflictPath(p, tag);
    ConflictPathShape(p, tag);
    AncestorsAreTheFoldersAbove(q, p);
    BelowEndsInSlash(q, p);
  }

  lemma BelowEndsInSlash(q: Path, p: Path)
    ensures Below(q, p) ==> |p| <= LastSlash(q)
  {
  }

  ghost predicate SameAt(t: Tree, t': Tree, p: Path) {
    (p in t <==> p in t') && (p in t ==> t'[p] == t[p])
  }

  lemma InstallLeaves(t: Tree, q: Path, bytes: Bytes, stamp: nat, p: Path)
    requires Install(t, q, bytes, stamp).Some? && p != q && p !in Ancestors(q)
    ensures SameAt(t, Install(t, q, bytes, stamp).value, p)
  {
  }

  lemma KeepLoserLeavesPath(env: Env, s: Replica, peer: string, incoming: Entry, loser: Entry, wins: bool, clock: Clock,
                            cause: Proposal)
    requires KeepLoser(env, s, peer, incoming, loser, wins, clock, cause).Some?
    ensures SameAt(s.tree, KeepLoser(env, s, peer, incoming, loser, wins, clock, cause).value.tree,
                   incoming.content.path)
  {
    var p := incoming.content.path;
    var copy := CopyOf(env, p, loser, clock);
    CopyNeedsNoFolderThere(p, env.tag(loser.version));
    ConflictPathDiffers(p, env.tag(loser.version));
    var placed := PlaceCopy(s, peer, incoming, loser, wins, copy.content.path).value;
    if copy.content.path in s.tree {
    } else if wins {
      InstallLeaves(s.tree, copy.content.path, s.tree[p].bytes, s.tick, p);
    } else {
      InstallLeaves(s.tree, copy.content.path, s.parts[PartKey(peer, incoming)], s.tick, p);
    }
    SaveFields(placed, copy, StampOf(placed.tree, copy.content.path), cause);
  }

  lemma KeptKeepsInv(env: Env, s: Replica, peer: string, incoming: Entry, relation: Relation, d: Decision,
                     cause: Proposal)
    requires Ready(env, s, peer, incoming, relation, d) && Kept(env, s, peer, incoming, d, cause).Some?
    ensures Inv(Kept(env, s, peer, incoming, d, cause).value)
    ensures SameAt(s.tree, Kept(env, s, peer, incoming, d, cause).value.tree, incoming.content.path)
  {
    FreshFile(s, incoming.content.path);
    if d.conflict {
      KeepLoserKeepsInv(env, s, peer, incoming, LoserOf(s, incoming, d), d.incomingWins, ClockFor(s, incoming), cause);
      KeepLoserLeavesPath(env, s, peer, incoming, LoserOf(s, incoming, d), d.incomingWins, ClockFor(s, incoming),
                          cause);
    }
  }

  lemma UnkeptKeepsInv(env: Env, s: Replica, peer: string, incoming: Entry, d: Decision)
    requires Inv(s)
    ensures Inv(Unkept(env, s, peer, incoming, d))
  {
    var loser := LoserOf(s, incoming, d);
    var target := ConflictPath(incoming.content.path, env.tag(loser.version));
    if PlaceCopy(s, peer, incoming, loser, d.incomingWins, target).Some? {
      PlaceCopyKeepsInv(s, peer, incoming, loser, d.incomingWins, target);
    }
  }

  /** After the second stage the tree holds the winner. */
  lemma MadeHoldsIncoming(s: Replica, peer: string, incoming: Entry, d: Decision, local: Option<Row>)
    requires Inv(s) && d.incomingWins && Made(s, peer, incoming, d, local).Some? && Shaped(incoming.content)
    requires d.same ==> Describes(incoming.content, s.tree, incoming.content.path)
    requires incoming.content.kind == File && !d.same ==> Whole(s, peer, incoming)
    ensures var s' := Made(s, peer, incoming, d, local).value;
            Inv(s') && Describes(incoming.content, s'.tree, incoming.content.path)
  {
    if !d.same {
      MaterializeKeeps(s, peer, incoming, local);
      MaterializeKeepsInv(s, peer, incoming, local);
    }
  }

  lemma SameDescribes(c: Content, t: Tree, t': Tree, p: Path)
    requires Describes(c, t, p) && SameAt(t, t', p)
    ensures Describes(c, t', p)
  {
  }

  lemma ClockMattersNot(c: Content, clock: Clock, t: Tree, p: Path)
    requires Describes(c, t, p)
    ensures Describes(c.(clock := clock), t, p)
  {
  }

  /** A winner the tree holds is saved as such. */
  lemma WinnerKeepsInv(s: Replica, winner: Entry, clock: Clock, cause: Proposal)
    requires Inv(s) && Shaped(winner.content) && Describes(winner.content, s.tree, winner.content.path)
    ensures var e := winner.(content := winner.content.(clock := clock));
            Inv(SaveOrFail(s, e, StampOf(s.tree, winner.content.path), cause).state)
  {
    var e := winner.(content := winner.content.(clock := clock));
    ClockMattersNot(winner.content, clock, s.tree, winner.content.path);
    SaveOrFailKeepsInv(s, e, StampOf(s.tree, winner.content.path), cause);
  }

  /** A mirror takes its host's choice: what it carries out, the incoming entry wins. */
  lemma MirrorCarriesTheHostsChoice(env: Env, s: Replica, peer: string, incoming: Entry, commit: bool)
    requires RouteOf(env, s, peer, incoming, commit).Carry? && s.Mirror()
    ensures RouteOf(env, s, peer, incoming, commit).decision.incomingWins
  {
  }

  lemma ReadyFacts(env: Env, s: Replica, peer: string, incoming: Entry, relation: Relation, d: Decision)
    requires Ready(env, s, peer, incoming, relation, d) && (s.Mirror() ==> d.incomingWins)
    ensures var p := incoming.content.path;
            && (d.same ==> Describes(incoming.content, s.tree, p))
            && (d.incomingWins && incoming.content.kind == File && !d.same ==> Whole(s, peer, incoming))
            && (!d.incomingWins && p in s.rows ==>
                  s.rows[p].entry.content.path == p && Shaped(s.rows[p].entry.content)
                  && Describes(s.rows[p].entry.content, s.tree, p))
  {
    assert incoming.content.path in s.rows ==> RowOk(s, incoming.content.path);
  }

  lemma LocalKeepsInv(s: Replica, kept: Replica, path: Path, local: Row, clock: Clock, cause: Proposal)
    requires Inv(kept) && SameAt(s.tree, kept.tree, path)
    requires local.entry.content.path == path && Shaped(local.entry.content)
    requires Describes(local.entry.content, s.tree, path)
    ensures var e := EntryOf(local);
            Inv(SaveOrFail(kept, e.(content := e.content.(clock := clock)), StampOf(kept.tree, path), cause).state)
  {
    SameDescribes(local.entry.content, s.tree, kept.tree, path);
    WinnerKeepsInv(kept, EntryOf(local), clock, cause);
  }

  /** Whichever stage a decision breaks off at, the replica keeps its promises. */
  lemma ApplyKeepsInv(env: Env, s: Replica, peer: string, incoming: Entry, relation: Relation, d: Decision,
                      cause: Proposal)
    requires Ready(env, s, peer, incoming, relation, d) && Shaped(incoming.content)
    requires s.Mirror() ==> d.incomingWins
    ensures Inv(Apply(env, s, peer, incoming, d, cause).state)
  {
    var path := incoming.content.path;
    var kept := Kept(env, s, peer, incoming, d, cause);
    if kept.None? {
      UnkeptKeepsInv(env, s, peer, incoming, d);
    } else {
      var local := LocalRow(s, path);
      KeptKeepsInv(env, s, peer, incoming, relation, d, cause);
      KeptEffect(env, s, peer, incoming, relation, d, cause);
      ReadyFacts(env, s, peer, incoming, relation, d);
      if d.incomingWins {
        WinningKeepsInv(s, kept.value, peer, incoming, d, local, ClockFor(s, incoming), cause);
      } else if local.Some? {
        LocalKeepsInv(s, kept.value, path, local.value, ClockFor(s, incoming), cause);
      }
    }
  }

  lemma WinningKeepsInv(s: Replica, kept: Replica, peer: string, incoming: Entry, d: Decision, local: Option<Row>,
                        clock: Clock, cause: Proposal)
    requires Inv(kept) && d.incomingWins && Shaped(incoming.content)
    requires SameAt(s.tree, kept.tree, incoming.content.path) && kept.parts == s.parts
    requires d.same ==> Describes(incoming.content, s.tree, incoming.content.path)
    requires incoming.content.kind == File && !d.same ==> Whole(s, peer, incoming)
    ensures var made := Made(kept, peer, incoming, d, local);
            made.Some? ==>
              Inv(SaveOrFail(made.value, incoming.(content := incoming.content.(clock := clock)),
                             StampOf(made.value.tree, incoming.content.path), cause).state)
  {
    if Made(kept, peer, incoming, d, local).Some? {
      MadeHoldsIncoming(kept, peer, incoming, d, local);
      WinnerKeepsInv(Made(kept, peer, incoming, d, local).value, incoming, clock, cause);
    }
  }

  // ---------------------------------------------------------------- the whole merge

  /** Saving the row's own content again, under another clock and standing. */
  lemma ResaveKeepsInv(s: Replica, path: Path, e: Entry, cause: Proposal)
    requires Inv(s) && Fresh(s, path) && path in s.rows && e.content.path == path && Shaped(e.content)
    requires ContentEqual(e.content, s.rows[path].entry.content)
    requires s.rows[path].stamp == Remote ==> s.Mirror()
    ensures Inv(SaveOrFail(s, e, s.rows[path].stamp, cause).state)
  {
    assert RowOk(s, path);
    SaveOrFailKeepsInv(s, e, s.rows[path].stamp, cause);
  }

  predicate Settles(s: Replica, path: Path, local: Option<Row>, c: Content) {
    path in s.rows && local == Some(s.rows[path]) && ContentEqual(c, s.rows[path].entry.content)
  }

  lemma RelateAndRetain(env: Env, s: Replica, incoming: Entry)
    ensures s.Mirror() ==> Relate(s, incoming) in {Same, Ahead}
    ensures Decide(env, s, incoming, Relate(s, incoming)).retain ==> incoming.content.path in s.rows
  {
  }

  /** What a chosen route says about the row it carries. */
  lemma RouteFacts(s: Replica, peer: string, incoming: Entry, commit: bool, relation: Relation, d: Decision)
    requires (s.Mirror() ==> relation in {Same, Ahead}) && (d.retain ==> incoming.content.path in s.rows)
    ensures var route, path := RouteWith(s, peer, incoming, commit, relation, d), incoming.content.path;
            && (route.KeepEdit? ==> path in s.rows && route.row == s.rows[path])
            && (route.KeepFolder? ==> path in s.rows && route.row == s.rows[path])
            && (route.Settle? && s.Mirror() ==> Settles(s, path, route.local, incoming.content))
  {
  }

  lemma FollowKeepsInv(env: Env, s: Replica, peer: string, incoming: Entry, route: Route, cause: Proposal)
    requires Inv(s) && Fresh(s, incoming.content.path) && Shaped(incoming.content) && !route.Carry?
    requires var path := incoming.content.path;
             && (route.KeepEdit? || route.KeepFolder? ==> path in s.rows && route.row == s.rows[path])
             && (route.Settle? && s.Mirror() ==> Settles(s, path, route.local, incoming.content))
    ensures Inv(Follow(env, s, peer, incoming, route, cause).state)
  {
    var path := incoming.content.path;
    assert path in s.rows ==> RowOk(s, path);
    match route
    case Refuse(_) =>
    case KeepEdit(row) => ResaveKeepsInv(s, path, Rebased(row.entry, incoming, row.entry.content.clock), cause);
    case Settle(_) => if s.Mirror() { ResaveKeepsInv(s, path, incoming, cause); }
    case KeepFolder(row) =>
      ResaveKeepsInv(s, path, Rebased(row.entry, incoming, Joined(incoming.content.clock, row.entry.content.clock)),
                     cause);
    case Ask => AskKeepsInv(s, PartKey(peer, incoming));
    case Broken =>
      PartsKeepInv(s, s.parts - {PartKey(peer, incoming)}, s.recovery);
      assert s.(recovery := s.recovery) == s;
  }

  lemma AskKeepsInv(s: Replica, key: (string, Version))
    requires Inv(s)
    ensures Inv(s.(parts := s.parts[key := if key in s.parts then s.parts[key] else []]))
  {
    var parts := s.parts[key := if key in s.parts then s.parts[key] else []];
    PartsKeepInv(s, parts, s.recovery);
    assert s.(parts := parts, recovery := s.recovery) == s.(parts := parts);
  }

  /** Every merge, however it ends, keeps the replica's promises: on the authority each row
      is the projection of the newest revision of its path and no path of the journal
      lacks a row; everywhere a row under the tree's own stamp says what the tree holds. */
  lemma MergeKeepsInv(env: Env, s: Replica, peer: string, incoming: Entry, commit: bool)
    requires Inv(s) && Shaped(incoming.content)
    ensures Inv(Merge(env, s, peer, incoming, commit).state)
  {
    var cause := CauseOf(incoming);
    var seen, end := MergeFromSeen(env, s, peer, incoming, commit);
    if Refresh(s, incoming.content.path, cause).Some? {
      MergeFreshKeepsInv(env, seen, peer, incoming, commit, cause);
    }
  }

  lemma MergeFreshKeepsInv(env: Env, seen: Replica, peer: string, incoming: Entry, commit: bool, cause: Proposal)
    requires Inv(seen) && Fresh(seen, incoming.content.path) && Shaped(incoming.content)
    ensures Inv(MergeFresh(env, seen, peer, incoming, commit, cause).state)
  {
    var route, _ := FreshEnding(env, seen, peer, incoming, commit, cause);
    if route.Carry? {
      if seen.Mirror() { MirrorCarriesTheHostsChoice(env, seen, peer, incoming, commit); }
      ApplyKeepsInv(env, seen, peer, incoming, Relate(seen, incoming), route.decision, cause);
    } else {
      RelateAndRetain(env, seen, incoming);
      RouteFacts(seen, peer, incoming, commit, Relate(seen, incoming),
                 Decide(env, seen, incoming, Relate(seen, incoming)));
      FollowKeepsInv(env, seen, peer, incoming, route, cause);
    }
  }
}
