/** Exactly when a proposal for an unknown path is accepted, a losing file is kept, and a folder
    proposed against the host gets a new sequence. */
module MergeConditions {
  import opened Records
  import opened Paths
  import opened NamespaceJournal
  import opened Trees
  import opened Replicas
  import opened Merges
  import opened MergeSafety
  import HostVersions

  /** An authority with room for one more revision, and neither a row nor a file at the
      path of a valid proposal. */
  ghost predicate UnknownHere(s: Replica, incoming: Entry) {
    var path := incoming.content.path;
    && Inv(s) && Proposed(s, incoming) && |s.log| < MAX_COUNTER && s.sequence < MAX_COUNTER
    && path !in s.rows && path !in s.tree && Reachable(s.tree, path)
    && incoming.version == VersionOf(incoming.content) && ValidRecord(Versioned(incoming.content), s.ledger.physical)
  }

  lemma NoRowNoRevision(s: Replica, path: Path)
    requires Inv(s) && !s.Mirror() && path !in s.rows
    ensures LatestOf(s.log, path).None? && SequenceOf(s.log) == |s.log|
  {
    LatestIsMember(s.log, path);
    SequencesCount(s.log, s.ledger);
  }

  function OutrightDecision(incoming: Entry): Decision {
    Decision(false, false, true, false, incoming.content.kind == File)
  }

  function LostDecision(incoming: Entry): Decision {
    Decision(false, false, false, incoming.content.kind == File, incoming.content.kind == File)
  }

  /** Only a proposal that claims no base, or a folder, may create the path. */
  predicate MayCreate(incoming: Entry) {
    BaseIn(incoming) == NoRevision || incoming.content.kind == Directory
  }

  lemma UnknownDecision(env: Env, s: Replica, incoming: Entry)
    requires UnknownHere(s, incoming)
    ensures Relate(s, incoming) == if BaseIn(incoming) == NoRevision then Ahead else Apart
    ensures Decide(env, s, incoming, Relate(s, incoming))
            == if MayCreate(incoming) then OutrightDecision(incoming) else LostDecision(incoming)
  {
    NoRowNoRevision(s, incoming.content.path);
  }

  lemma CarriedOut(s: Replica, peer: string, incoming: Entry, relation: Relation, d: Decision)
    requires UnknownHere(s, incoming) && (incoming.content.kind == File ==> Whole(s, peer, incoming))
    requires relation in {Ahead, Apart} && d in {OutrightDecision(incoming), LostDecision(incoming)}
    ensures RouteWith(s, peer, incoming, true, relation, d) == Carry(d)
  {
    assert ClockFor(s, incoming) == incoming.content.clock;
  }

  lemma UnknownRoute(env: Env, s: Replica, peer: string, incoming: Entry)
    requires UnknownHere(s, incoming) && (incoming.content.kind == File ==> Whole(s, peer, incoming))
    ensures RouteOf(env, s, peer, incoming, true)
            == Carry(if MayCreate(incoming) then OutrightDecision(incoming) else LostDecision(incoming))
  {
    UnknownDecision(env, s, incoming);
    CarriedOut(s, peer, incoming, Relate(s, incoming), Decide(env, s, incoming, Relate(s, incoming)));
  }

  lemma CreatedIsSaved(s: Replica, made: Replica, incoming: Entry, stamp: Stamp, cause: Proposal)
    requires UnknownHere(s, incoming)
    requires made.log == s.log && made.ledger == s.ledger && made.sequence == s.sequence && made.rows == s.rows
    requires made.host == s.host
    ensures Save(made, incoming, stamp, cause).Some?
  {
    NoRowNoRevision(s, incoming.content.path);
  }

  lemma CreatedOutright(s: Replica, peer: string, incoming: Entry)
    requires UnknownHere(s, incoming) && (incoming.content.kind == File ==> Whole(s, peer, incoming))
    ensures var made := Made(s, peer, incoming, OutrightDecision(incoming), None);
            made.Some? && made.value == s.(tree := made.value.tree, tick := made.value.tick, parts := made.value.parts,
                                           recovery := made.value.recovery)
  {
  }

  lemma OutrightCompletes(env: Env, s: Replica, peer: string, incoming: Entry, cause: Proposal)
    requires UnknownHere(s, incoming) && (incoming.content.kind == File ==> Whole(s, peer, incoming))
    ensures Apply(env, s, peer, incoming, OutrightDecision(incoming), cause).reply == Complete
  {
    var d := OutrightDecision(incoming);
    assert ClockFor(s, incoming) == incoming.content.clock;
    CreatedOutright(s, peer, incoming);
    var made := Made(s, peer, incoming, d, None).value;
    CreatedIsSaved(s, made, incoming, StampOf(made.tree, incoming.content.path), cause);
  }

  lemma LostNeverCompletes(env: Env, s: Replica, peer: string, incoming: Entry, cause: Proposal)
    requires UnknownHere(s, incoming)
    ensures Apply(env, s, peer, incoming, LostDecision(incoming), cause).reply.Failed?
  {
  }

  lemma UnknownMerge(env: Env, s: Replica, peer: string, incoming: Entry)
    requires UnknownHere(s, incoming) && (incoming.content.kind == File ==> Whole(s, peer, incoming))
    ensures var d := if MayCreate(incoming) then OutrightDecision(incoming) else LostDecision(incoming);
            Merge(env, s, peer, incoming, true) == Apply(env, s, peer, incoming, d, CauseOf(incoming))
  {
    NothingToSee(s, incoming.content.path, CauseOf(incoming));
    UnknownRoute(env, s, peer, incoming);
    MergeCarries(env, s, peer, incoming, if MayCreate(incoming) then OutrightDecision(incoming)
                 else LostDecision(incoming));
  }

  lemma NothingToSee(s: Replica, path: Path, cause: Proposal)
    requires path !in s.rows && path !in s.tree && Reachable(s.tree, path)
    ensures Refresh(s, path, cause) == Some(s)
  {
  }

  lemma MergeCarries(env: Env, s: Replica, peer: string, incoming: Entry, d: Decision)
    requires Refresh(s, incoming.content.path, CauseOf(incoming)) == Some(s)
    requires RouteOf(env, s, peer, incoming, true) == Carry(d)
    ensures Merge(env, s, peer, incoming, true) == Apply(env, s, peer, incoming, d, CauseOf(incoming))
  {
  }

  /** A valid, fully staged proposal for a path unknown to the authority completes exactly
      when it claims no base or is a folder.  A mirror that edited or deleted a confirmed
      entry proposes it against that revision; an authority restored to a state before
      the path existed refuses such a proposal every time, for a file only after its
      conflict copy was installed. */
  lemma UnknownPathIsCreatedIff(env: Env, s: Replica, peer: string, incoming: Entry)
    requires UnknownHere(s, incoming) && (incoming.content.kind == File ==> Whole(s, peer, incoming))
    ensures Merge(env, s, peer, incoming, true).reply == Complete <==> MayCreate(incoming)
  {
    var cause := CauseOf(incoming);
    UnknownMerge(env, s, peer, incoming);
    if MayCreate(incoming) {
      OutrightCompletes(env, s, peer, incoming, cause);
    } else {
      LostNeverCompletes(env, s, peer, incoming, cause);
    }
  }

  // ---------------------------------------------------------------- a conflict name

  lemma NamesLieTogether(t: Tree, p: Path, tag: Tag)
    requires Reachable(t, p)
    ensures Reachable(t, ConflictPath(p, tag))
  {
    HostVersions.FolderOfCopy(p, tag);
  }

  /** A save of an entry that is no revision of the host: the version stands already, or there
      is room for one more sequence and, at the authority, for one more valid revision. */
  predicate RoomFor(s: Replica, e: Entry) {
    Stands(s, e.content.path, VersionOf(e.content))
    || (s.sequence < MAX_COUNTER && (s.Mirror() || (|s.log| < MAX_COUNTER && ValidContent(e.content))))
  }

  /** At the authority a path's row is its newest revision, and each revision's path has a row. */
  ghost predicate Indexed(s: Replica) {
    && WellFormed(s.log, s.ledger)
    && (!s.Mirror() ==> forall r | r in s.log :: r.Path() in s.rows)
    && (!s.Mirror() ==> forall p | p in s.rows ::
          LatestOf(s.log, p).Some? && s.rows[p].entry == Project(LatestOf(s.log, p).value))
  }

  lemma InvIsIndexed(s: Replica)
    requires Inv(s)
    ensures Indexed(s)
  {
    forall p | p in s.rows ensures RowOk(s, p) { }
  }

  lemma SavedIff(s: Replica, e: Entry, stamp: Stamp, cause: Proposal)
    requires Indexed(s) && !e.IsConfirmed() && s.ledger.physical(e.content.path)
    ensures Save(s, e, stamp, cause).Some? <==> RoomFor(s, e)
  {
    if !s.Mirror() {
      SequencesCount(s.log, s.ledger);
      LatestIsMember(s.log, e.content.path);
    }
  }

  lemma RoomIsLeft(s: Replica, placed: Replica, e: Entry)
    requires Indexed(s) && placed == s.(tree := placed.tree, tick := placed.tick, parts := placed.parts)
    ensures Indexed(placed) && (RoomFor(placed, e) <==> RoomFor(s, e))
  {
  }

  lemma LoserIsWhole(env: Env, s: Replica, peer: string, incoming: Entry, relation: Relation, d: Decision)
    requires Ready(env, s, peer, incoming, relation, d) && d.conflict
    ensures d.incomingWins ==> MergeSafety.Holds(s.tree, incoming.content.path, LoserOf(s, incoming, d).content.hash)
    ensures !d.incomingWins ==> LoserOf(s, incoming, d) == incoming && Whole(s, peer, incoming)
  {
    FreshFile(s, incoming.content.path);
  }

  /** The losing file of a conflict is kept exactly when its conflict name serves and its row
      can be saved; when the name does not serve, the merge fails before it changes anything. */
  lemma ConflictIsKeptIff(env: Env, s: Replica, peer: string, incoming: Entry, relation: Relation, d: Decision,
                          cause: Proposal)
    requires Ready(env, s, peer, incoming, relation, d) && d.conflict && Reachable(s.tree, incoming.content.path)
    ensures var target, loser := LoserPath(env, s, incoming, d), LoserOf(s, incoming, d);
            var copy := CopyOf(env, incoming.content.path, loser, ClockFor(s, incoming));
            && (Kept(env, s, peer, incoming, d, cause).Some? <==>
                  NameServes(s, target, loser.content.hash) && RoomFor(s, copy))
            && (Kept(env, s, peer, incoming, d, cause).None? ==> Apply(env, s, peer, incoming, d, cause).reply.Failed?)
            && (!NameServes(s, target, loser.content.hash) ==>
                  Apply(env, s, peer, incoming, d, cause) == Outcome(s, Failed("conflict_copy")))
  {
    var target, loser := LoserPath(env, s, incoming, d), LoserOf(s, incoming, d);
    NamesLieTogether(s.tree, incoming.content.path, env.tag(loser.version));
    LoserIsThere(env, s, peer, incoming, relation, d);
    LoserIsWhole(env, s, peer, incoming, relation, d);
    PlacedIff(s, peer, incoming, loser, d.incomingWins, target);
    InvIsIndexed(s);
    KeptIff(env, s, peer, incoming, loser, d.incomingWins, ClockFor(s, incoming), cause);
  }

  lemma KeptIff(env: Env, s: Replica, peer: string, incoming: Entry, loser: Entry, wins: bool, clock: Clock,
                cause: Proposal)
    requires Indexed(s)
    requires wins ==> MergeSafety.Holds(s.tree, incoming.content.path, loser.content.hash)
    requires !wins ==> loser == incoming && Whole(s, peer, incoming)
    ensures var copy := CopyOf(env, incoming.content.path, loser, clock);
            KeepLoser(env, s, peer, incoming, loser, wins, clock, cause).Some?
            <==> PlaceCopy(s, peer, incoming, loser, wins, copy.content.path).Some? && RoomFor(s, copy)
  {
    var copy := CopyOf(env, incoming.content.path, loser, clock);
    var placed := PlaceCopy(s, peer, incoming, loser, wins, copy.content.path);
    if placed.Some? {
      PlaceCopyKeeps(s, peer, incoming, loser, wins, copy.content.path);
      RoomIsLeft(s, placed.value, copy);
      SavedIff(placed.value, copy, StampOf(placed.value.tree, copy.content.path), cause);
    }
  }

  lemma LoserIsThere(env: Env, s: Replica, peer: string, incoming: Entry, relation: Relation, d: Decision)
    requires Ready(env, s, peer, incoming, relation, d) && d.conflict
    ensures if d.incomingWins then IsDoc(s.tree, incoming.content.path) else PartKey(peer, incoming) in s.parts
  {
    FreshFile(s, incoming.content.path);
  }

  lemma PlacedIff(s: Replica, peer: string, incoming: Entry, loser: Entry, wins: bool, target: Path)
    requires Reachable(s.tree, target) && if wins then IsDoc(s.tree, incoming.content.path)
             else PartKey(peer, incoming) in s.parts
    ensures PlaceCopy(s, peer, incoming, loser, wins, target).Some? <==> NameServes(s, target, loser.content.hash)
  {
  }

  // ---------------------------------------------------------------- a folder proposed instead

  lemma JoinAbsorbsIff(a: Clock, b: Clock)
    requires (forall k | k in a :: a[k] > 0) && (forall k | k in b :: b[k] > 0)
    ensures Joined(a, b) == b <==> Compare(b, a) in {Order.Equal, Greater}
  {
    var j := Joined(a, b);
    CompareMirrored(b, a);
    assert forall k :: Reading(j, k) == if Reading(b, k) > Reading(a, k) then Reading(b, k) else Reading(a, k);
    assert forall k :: k in a <==> Reading(a, k) > 0;
    assert forall k :: k in b <==> Reading(b, k) > 0;
  }

  /** A mirror that proposes its non-empty folder against the host's revision gives the
      proposal a new local sequence, which puts it after the push cursor, exactly when the
      host's clock is not covered by the folder's. */
  lemma ProposedFolderIsNewIff(s: Replica, p: Path, incoming: Entry, cause: Proposal)
    requires s.Mirror() && p in s.rows && s.rows[p].sequence <= s.sequence
    requires var c := s.rows[p].entry.content; c.path == p && s.rows[p].entry.version == VersionOf(c) && ValidContent(c)
    requires ValidContent(incoming.content)
    requires Save(s, FolderProposal(s.rows[p], incoming), s.rows[p].stamp, cause).Some?
    ensures Save(s, FolderProposal(s.rows[p], incoming), s.rows[p].stamp, cause).value.rows[p].sequence > s.sequence
            <==> Compare(s.rows[p].entry.content.clock, incoming.content.clock) !in {Order.Equal, Greater}
  {
    var row := s.rows[p];
    JoinAbsorbsIff(incoming.content.clock, row.entry.content.clock);
    var e := FolderProposal(row, incoming);
    assert e.content == row.entry.content <==> e.content.clock == row.entry.content.clock;
  }

  function FolderProposal(row: Row, incoming: Entry): Entry {
    Rebased(row.entry, incoming, Joined(incoming.content.clock, row.entry.content.clock))
  }
}
