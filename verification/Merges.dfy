/** The conflict-preserving merge of one incoming entry into a replica. */
module Merges {
  import opened Records
  import opened Paths
  import opened NamespaceJournal
  import opened Trees
  import opened Replicas

  /** What the merge takes from digests as text: the leading digits of a version, and
      the order of two file digests. */
  datatype Env = Env(tag: Version -> Tag, greater: (Digest, Digest) -> bool)

  datatype Reply = Failed(error: string) | Complete | Needs(offset: nat)

  datatype Outcome = Outcome(state: Replica, reply: Reply)

  datatype Relation = Same | Behind | Ahead | Apart

  // ---------------------------------------------------------------- deciding

  function LocalRow(s: Replica, path: Path): Option<Row> {
    if path in s.rows then Some(s.rows[path]) else None
  }

  /** `incoming` is the projection of a revision this replica's journal holds. */
  predicate Contains(s: Replica, incoming: Entry) {
    exists r | r in s.log :: incoming == Project(r) && r.body.space == s.ledger.space
                             && r.body.authority == s.ledger.authority
  }

  function ConfirmedId(s: Replica, path: Path): RevisionId {
    var r := LatestOf(s.log, path);
    if r.Some? then r.value.id else NoRevision
  }

  function BaseIn(e: Entry): RevisionId {
    if e.IsPending() then e.standing.value.base else NoRevision
  }

  predicate Proposed(s: Replica, incoming: Entry) {
    !s.Mirror() && incoming.IsPending()
  }

  function Relate(s: Replica, incoming: Entry): Relation {
    var local := LocalRow(s, incoming.content.path);
    var sameVersion := local.Some? && local.value.entry.version == incoming.version;
    if s.Mirror() then
      if sameVersion && local.value.stamp != Remote then Same else Ahead
    else if Proposed(s, incoming) then
      if sameVersion then Same
      else if BaseIn(incoming) == ConfirmedId(s, incoming.content.path) then Ahead else Apart
    else if local.None? then Ahead
    else match Compare(incoming.content.clock, local.value.entry.content.clock)
      case Equal => Same
      case Greater => Ahead
      case Less => Behind
      case Concurrent => Apart
  }

  datatype Decision = Decision(same: bool, retain: bool, incomingWins: bool, conflict: bool, bytesNeeded: bool)

  function Rank(kind: Kind): int {
    match kind case Directory => 2 case File => 1 case Deleted => 0
  }

  predicate LocalIs(local: Option<Row>, kind: Kind) {
    local.Some? && local.value.entry.content.kind == kind
  }

  predicate Outranks(env: Env, incoming: Content, local: Option<Row>) {
    var rank, hash := if local.Some? then Rank(local.value.entry.content.kind) else 0,
                      if local.Some? then local.value.entry.content.hash else NoDigest;
    Rank(incoming.kind) > rank || (Rank(incoming.kind) == rank && env.greater(incoming.hash, hash))
  }

  function Decide(env: Env, s: Replica, incoming: Entry, relation: Relation): Decision {
    var c := incoming.content;
    var local := LocalRow(s, c.path);
    var absent := local.Some? && local.value.stamp == Remote;
    var same := local.Some? && !absent && ContentEqual(c, local.value.entry.content);
    var retain := LocalIs(local, Directory) && c.kind != Directory && HasChildren(s.tree, c.path);
    var pending := s.Mirror() && local.Some? && !local.value.entry.IsConfirmed();
    var structural := (c.kind == Directory && LocalIs(local, File)) || (c.kind == File && LocalIs(local, Directory));
    var concurrent := relation == Apart || retain || pending || structural;
    var wins := !retain && (s.Mirror() || relation == Ahead || same || c.kind == Directory
                            || (!Proposed(s, incoming) && Outranks(env, c, local)));
    var loserIsFile := if wins then LocalIs(local, File) else c.kind == File;
    var conflict := concurrent && !same && loserIsFile && !(wins && absent);
    Decision(same, retain, wins, conflict, c.kind == File && !same && (wins || conflict))
  }

  // ---------------------------------------------------------------- acting

  function PartKey(peer: string, incoming: Entry): (string, Version) {
    (peer, incoming.version)
  }

  /** A staged part may be used only when it is whole: right size, right digest. */
  predicate Whole(s: Replica, peer: string, incoming: Entry) {
    var key := PartKey(peer, incoming);
    key in s.parts && |s.parts[key]| == incoming.content.size && Sha256(s.parts[key]) == incoming.content.hash
  }

  function Archived(s: Replica, path: Path): seq<(Path, Bytes)> {
    if IsDoc(s.tree, path) then s.recovery + [(path, s.tree[path].bytes)] else s.recovery
  }

  function Grown(s: Replica, t: Tree): Replica {
    s.(tree := t, tick := s.tick + 1)
  }

  /** The entry a losing file is saved as. */
  function CopyOf(env: Env, path: Path, loser: Entry, clock: Clock): Entry {
    Entry(loser.content.(path := ConflictPath(path, env.tag(loser.version)), clock := clock), loser.version,
          Some(Pending(NoRevision)))
  }

  /** A conflict name is unused, or holds the losing file's bytes already. */
  predicate NameServes(s: Replica, target: Path, hash: Digest) {
    s.ledger.physical(target) && (target in s.tree ==> IsDoc(s.tree, target) && Sha256(s.tree[target].bytes) == hash)
  }

  /** Puts the losing file's bytes under its conflict name, unless they are there. */
  function PlaceCopy(s: Replica, peer: string, incoming: Entry, loser: Entry, wins: bool,
                     target: Path): Option<Replica> {
    var path, key := incoming.content.path, PartKey(peer, incoming);
    if !s.ledger.physical(target) || !Reachable(s.tree, target) then None
    else if target in s.tree then
      if s.tree[target].Doc? && Sha256(s.tree[target].bytes) == loser.content.hash then Some(s) else None
    else if wins then
      if !IsDoc(s.tree, path) then None
      else
        var t := Install(s.tree, target, s.tree[path].bytes, s.tick);
        if t.None? then None else Some(Grown(s, t.value))
    else if key !in s.parts then None
    else
      var t := Install(s.tree, target, s.parts[key], s.tick);
      if t.None? then None else Some(Grown(s, t.value).(parts := s.parts - {key}))
  }

  /** Keeps the losing file as an entry of its own. */
  function KeepLoser(env: Env, s: Replica, peer: string, incoming: Entry, loser: Entry, wins: bool, clock: Clock,
                     cause: Proposal): Option<Replica> {
    var copy := CopyOf(env, incoming.content.path, loser, clock);
    var placed := PlaceCopy(s, peer, incoming, loser, wins, copy.content.path);
    if placed.None? then None else Save(placed.value, copy, StampOf(placed.value.tree, copy.content.path), cause)
  }

  /** Makes the tree hold the incoming entry. */
  function Materialize(s: Replica, peer: string, incoming: Entry, local: Option<Row>): Option<Replica> {
    var path, key := incoming.content.path, PartKey(peer, incoming);
    match incoming.content.kind
    case File =>
      var cleared := if LocalIs(local, Directory) then Remove(s.tree, path) else Some(s.tree);
      if cleared.None? || key !in s.parts then None
      else
        var t := Install(cleared.value, path, s.parts[key], s.tick);
        if t.None? then None
        else Some(Grown(s, t.value).(parts := s.parts - {key}, recovery := Archived(s, path)))
    case Directory =>
      var cleared := if LocalIs(local, File) then Remove(s.tree, path) else Some(s.tree);
      if cleared.None? then None
      else
        var t := MakeFolder(cleared.value, path, s.tick);
        if t.None? then None
        else Some(Grown(s, t.value).(recovery := if LocalIs(local, File) then Archived(s, path) else s.recovery))
    case Deleted =>
      var t := Remove(s.tree, path);
      if t.None? then None else Some(s.(tree := t.value, recovery := Archived(s, path)))
  }

  function SaveOrFail(s: Replica, e: Entry, stamp: Stamp, cause: Proposal): Outcome {
    var r := Save(s, e, stamp, cause);
    if r.None? then Outcome(s, Failed("save")) else Outcome(r.value, Complete)
  }

  function ClockFor(s: Replica, incoming: Entry): Clock {
    var local := LocalRow(s, incoming.content.path);
    if s.Mirror() then incoming.content.clock
    else Joined(incoming.content.clock, if local.Some? then local.value.entry.content.clock else map[])
  }

  function LoserOf(s: Replica, incoming: Entry, d: Decision): Entry {
    var local := LocalRow(s, incoming.content.path);
    if d.incomingWins && local.Some? then EntryOf(local.value) else incoming
  }

  /** First the losing file is kept, */
  function Kept(env: Env, s: Replica, peer: string, incoming: Entry, d: Decision, cause: Proposal): Option<Replica> {
    if d.conflict then KeepLoser(env, s, peer, incoming, LoserOf(s, incoming, d), d.incomingWins, ClockFor(s, incoming),
                                 cause)
    else Some(s)
  }

  /** What is left when that fails: a copy may have been placed but not saved. */
  function Unkept(env: Env, s: Replica, peer: string, incoming: Entry, d: Decision): Replica {
    var loser := LoserOf(s, incoming, d);
    var placed := PlaceCopy(s, peer, incoming, loser, d.incomingWins,
                            ConflictPath(incoming.content.path, env.tag(loser.version)));
    if d.conflict && placed.Some? then placed.value else s
  }

  /** then the tree changes, */
  function Made(s: Replica, peer: string, incoming: Entry, d: Decision, local: Option<Row>): Option<Replica> {
    if d.incomingWins && !d.same then Materialize(s, peer, incoming, local) else Some(s)
  }

  /** then the winner is saved.  A losing entry has no winner when there is no local one:
      saving nothing under an empty path is refused. */
  function Apply(env: Env, s: Replica, peer: string, incoming: Entry, d: Decision, cause: Proposal): Outcome {
    var local := LocalRow(s, incoming.content.path);
    var kept := Kept(env, s, peer, incoming, d, cause);
    if kept.None? then Outcome(Unkept(env, s, peer, incoming, d), Failed("conflict_copy"))
    else
      var made := Made(kept.value, peer, incoming, d, local);
      if made.None? then Outcome(kept.value, Failed("materialize"))
      else if !d.incomingWins && local.None? then Outcome(made.value, Failed("invalid_namespace_commit"))
      else
        var winner := if d.incomingWins then incoming else EntryOf(local.value);
        SaveOrFail(made.value, winner.(content := winner.content.(clock := ClockFor(s, incoming))),
                   StampOf(made.value.tree, incoming.content.path), cause)
  }

  /** Which way a merge goes once its destination was looked at. */
  datatype Route =
    | Refuse(error: string)
    | KeepEdit(row: Row)          // a mirror's newer edit stays a proposal, on the new base
    | Settle(local: Option<Row>)  // nothing to change but, on a mirror, the row
    | KeepFolder(row: Row)        // a mirror proposes its non-empty folder instead
    | Ask                         // bytes are needed first
    | Broken                      // the staged part is not the incoming file
    | Carry(decision: Decision)

  predicate NewerEdit(s: Replica, incoming: Entry) {
    var local := LocalRow(s, incoming.content.path);
    s.Mirror() && local.Some? && !local.value.entry.IsConfirmed()
    && Compare(local.value.entry.content.clock, incoming.content.clock) == Greater
  }

  /** The route, given how the incoming entry relates to the local one and what was decided. */
  function RouteWith(s: Replica, peer: string, incoming: Entry, commit: bool, relation: Relation, d: Decision): Route {
    var local := LocalRow(s, incoming.content.path);
    if s.Mirror() && (s.host != Some(peer) || !Contains(s, incoming)) then Refuse("host_revision_required")
    else if NewerEdit(s, incoming) then KeepEdit(local.value)
    else if relation == Same && !(local.Some? && ContentEqual(incoming.content, local.value.entry.content))
    then Refuse("inconsistent_version_clock")
    else if relation == Same || relation == Behind then Settle(local)
    else if |ClockFor(s, incoming)| > MAX_CLOCK then Refuse("replica_clock_limit")
    else if s.Mirror() && local.Some? && d.retain && !d.same then KeepFolder(local.value)
    else if d.bytesNeeded && !commit then Ask
    else if d.bytesNeeded && !Whole(s, peer, incoming) then Broken
    else Carry(d)
  }

  function RouteOf(env: Env, s: Replica, peer: string, incoming: Entry, commit: bool): Route {
    RouteWith(s, peer, incoming, commit, Relate(s, incoming), Decide(env, s, incoming, Relate(s, incoming)))
  }

  /** A staged part of full size but the wrong digest is dropped, so the next attempt
      starts again. */
  function DropBroken(s: Replica, key: (string, Version), size: int): Replica {
    if key in s.parts && |s.parts[key]| == size then s.(parts := s.parts - {key}) else s
  }

  function RevisionIn(e: Entry): RevisionId {
    if e.IsConfirmed() then e.standing.value.revision else NoRevision
  }

  /** A local entry as a proposal against the incoming revision. */
  function Rebased(e: Entry, incoming: Entry, clock: Clock): Entry {
    e.(content := e.content.(clock := clock), standing := Some(Pending(RevisionIn(incoming))))
  }

  /** What a route does. */
  function Follow(env: Env, s: Replica, peer: string, incoming: Entry, route: Route, cause: Proposal): Outcome {
    var key := PartKey(peer, incoming);
    match route
    case Refuse(error) => Outcome(s, Failed(error))
    case KeepEdit(row) => SaveOrFail(s, Rebased(row.entry, incoming, row.entry.content.clock), row.stamp, cause)
    case Settle(local) =>
      if s.Mirror() && local.Some? then SaveOrFail(s, incoming, local.value.stamp, cause) else Outcome(s, Complete)
    case KeepFolder(row) =>
      SaveOrFail(s, Rebased(row.entry, incoming, Joined(incoming.content.clock, row.entry.content.clock)), row.stamp,
                 cause)
    case Ask =>
      var part := if key in s.parts then s.parts[key] else [];
      if |part| > incoming.content.size then Outcome(s, Failed("invalid_partial_transfer"))
      else Outcome(s.(parts := s.parts[key := part]), Needs(|part|))
    case Broken => Outcome(DropBroken(s, key, incoming.content.size), Failed("incomplete_or_corrupt_transfer"))
    case Carry(d) => Apply(env, s, peer, incoming, d, cause)
  }

  /** The part of the merge after the destination was looked at afresh. */
  function MergeFresh(env: Env, s: Replica, peer: string, incoming: Entry, commit: bool, cause: Proposal): Outcome {
    Follow(env, s, peer, incoming, RouteOf(env, s, peer, incoming, commit), cause)
  }

  function CauseOf(incoming: Entry): Proposal {
    Proposal(incoming.version, BaseIn(incoming))
  }

  /** Merges an entry: with `commit` off this only finds out whether bytes are needed,
      and completes at once when they are not. */
  function Merge(env: Env, s: Replica, peer: string, incoming: Entry, commit: bool): Outcome {
    var seen := Refresh(s, incoming.content.path, CauseOf(incoming));
    if seen.None? then Outcome(Unseen(s, incoming.content.path), Failed("refresh"))
    else MergeFresh(env, seen.value, peer, incoming, commit, CauseOf(incoming))
  }
}
