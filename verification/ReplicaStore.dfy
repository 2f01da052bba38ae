/** The replica as an object: saving, observing and merging an entry as they run, statement
    by statement, against the functions of `Replicas` and `Merges`. */
module ReplicaStore {
  import opened Records
  import opened Paths
  import opened NamespaceJournal
  import opened Trees
  import opened Replicas
  import opened Merges
  import P = Payloads

  class Store {
    const id: string
    const ledger: Ledger
    var host: Option<string>
    var log: Log
    var rows: map<Path, Row>
    var sequence: nat
    var counter: nat
    var tree: Tree
    var tick: nat
    var parts: map<(string, Version), Bytes>
    var recovery: seq<(Path, Bytes)>
    var cause: Proposal

    ghost function View(): Replica
      reads this
    {
      Replica(id, host, ledger, log, rows, sequence, counter, tree, tick, parts, recovery)
    }

    constructor (id: string, ledger: Ledger)
      ensures this.id == id && this.ledger == ledger && host.None? && log == [] && rows == map[] && tree == map[]
    {
      this.id, this.ledger := id, ledger;
      host, log, rows, sequence, counter := None, [], map[], 0, 0;
      tree, tick, parts, recovery := map[], 0, map[], [];
      cause := Proposal(NoVersion, NoRevision);
    }

    /** The base a local edit of an entry is proposed against. */
    method BaseOfEdit(e: Entry) returns (base: RevisionId)
      ensures base == BaseFor(View(), e)
    {
      var path := e.content.path;
      if e.IsPending() {
        return e.standing.value.base;
      }
      if path in rows {
        var previous := rows[path].entry;
        if previous.IsPending() {
          return previous.standing.value.base;
        }
        if previous.IsConfirmed() {
          return previous.standing.value.revision;
        }
      }
      var newest := LatestOf(log, path);
      base := if newest.Some? then newest.value.id else NoRevision;
    }

    method SaveEntry(e: Entry, stamp: Stamp) returns (ok: bool)
      modifies this`log, this`rows, this`sequence
      ensures ok <==> Save(old(View()), e, stamp, cause).Some?
      ensures View() == if ok then Save(old(View()), e, stamp, cause).value else old(View())
    {
      var savepoint := log;
      var record := Versioned(e.content);
      var path := e.content.path;
      var saved: Entry;
      if host.None? {
        var (grown, revision) := Committed(log, ledger, record, cause.version, cause.base);
        if revision.None? {
          return false;
        }
        log := grown;
        saved := Project(revision.value);
        CommittedPath(savepoint, ledger, record, cause.version, cause.base);
      } else if e.IsConfirmed() {
        saved := Entry(record.content, record.version, e.standing);
      } else {
        var base := BaseOfEdit(e);
        saved := Entry(record.content, record.version, Some(Pending(base)));
      }
      var position := if path in rows then rows[path].sequence else 0;
      if path !in rows || rows[path].entry.version != saved.version {
        position := sequence + 1;
        if position > MAX_COUNTER {
          log := savepoint;
          return false;
        }
        sequence := position;
      }
      rows := rows[path := Row(saved, stamp, position)];
      ok := true;
    }

    /** Compares a path with its row and saves what changed. */
    method Observe(path: Path) returns (ok: bool)
      requires Reachable(tree, path)
      modifies this`log, this`rows, this`sequence, this`counter
      ensures ok <==> Observed(old(View()), path, cause).Some?
      ensures View() == if ok then Observed(old(View()), path, cause).value else Unseen(old(View()), path)
    {
      var known := path in rows;
      var now := ContentOf(tree, path, map[]);
      var stamp := StampOf(tree, path);
      if path !in tree && (!known || rows[path].stamp == Remote) {
        return true;
      }
      if known && rows[path].entry.content.kind == now.kind && rows[path].stamp == stamp {
        return true;
      }
      if known && ContentEqual(now, rows[path].entry.content) {
        ok := SaveEntry(EntryOf(rows[path]), stamp);
        return;
      }
      var clock := if known then rows[path].entry.content.clock else map[];
      var reading := Reading(clock, id);
      var next := (if reading > counter then reading else counter) + 1;
      if next > MAX_COUNTER || (|clock| > MAX_CLOCK - 1 && id !in clock) {
        return false;
      }
      counter := next;
      ok := SaveEntry(Entry(ContentOf(tree, path, clock[id := next]), NoVersion, None), stamp);
    }

    method Look(path: Path) returns (ok: bool)
      modifies this`log, this`rows, this`sequence, this`counter
      ensures ok <==> Refresh(old(View()), path, cause).Some?
      ensures View() == if ok then Refresh(old(View()), path, cause).value else Unseen(old(View()), path)
    {
      if !Reachable(tree, path) {
        return false;
      }
      ok := Observe(path);
    }

    method RelationTo(incoming: Entry) returns (relation: Relation)
      ensures relation == Relate(View(), incoming)
    {
      var path := incoming.content.path;
      var known := path in rows;
      var sameVersion := known && rows[path].entry.version == incoming.version;
      if host.Some? {
        return if sameVersion && rows[path].stamp != Remote then Same else Ahead;
      }
      if incoming.IsPending() {
        if sameVersion {
          return Same;
        }
        var confirmed := LatestOf(log, path);
        return if incoming.standing.value.base == (if confirmed.Some? then confirmed.value.id else NoRevision)
          then Ahead else Apart;
      }
      if !known {
        return Ahead;
      }
      match Compare(incoming.content.clock, rows[path].entry.content.clock)
      case Equal => relation := Same;
      case Greater => relation := Ahead;
      case Less => relation := Behind;
      case Concurrent => relation := Apart;
    }

    method DecisionOn(env: Env, incoming: Entry, relation: Relation) returns (d: Decision)
      ensures d == Decide(env, View(), incoming, relation)
    {
      var c := incoming.content;
      var local := if c.path in rows then Some(rows[c.path]) else None;
      var absent := local.Some? && local.value.stamp == Remote;
      var same := local.Some? && !absent && ContentEqual(c, local.value.entry.content);
      var retain := false;
      if LocalIs(local, Directory) && c.kind != Directory {
        retain := HasChildren(tree, c.path);
      }
      var pending := host.Some? && local.Some? && !local.value.entry.IsConfirmed();
      var structural := (c.kind == Directory && LocalIs(local, File)) || (c.kind == File && LocalIs(local, Directory));
      var proposed := host.None? && incoming.IsPending();
      var wins := !retain && (host.Some? || relation == Ahead || same || c.kind == Directory
                              || (!proposed && Outranks(env, c, local)));
      var loserIsFile := if wins then LocalIs(local, File) else c.kind == File;
      var conflict := (relation == Apart || retain || pending || structural) && !same && loserIsFile
        && !(wins && absent);
      d := Decision(same, retain, wins, conflict, c.kind == File && !same && (wins || conflict));
    }

    /** Keeps the losing file under its conflict name; a copy that was placed stays even
        when it cannot be saved. */
    method KeepLosing(env: Env, peer: string, incoming: Entry, loser: Entry, wins: bool, clock: Clock)
      returns (ok: bool)
      modifies this`log, this`rows, this`sequence, this`tree, this`tick, this`parts
      ensures ok <==> KeepLoser(env, old(View()), peer, incoming, loser, wins, clock, cause).Some?
      ensures ok ==> View() == KeepLoser(env, old(View()), peer, incoming, loser, wins, clock, cause).value
      ensures !ok ==> View() == var placed :=
                PlaceCopy(old(View()), peer, incoming, loser, wins,
                          ConflictPath(incoming.content.path, env.tag(loser.version)));
                                if placed.Some? then placed.value else old(View())
    {
      var copy := CopyOf(env, incoming.content.path, loser, clock);
      var target, key := copy.content.path, PartKey(peer, incoming);
      ok := Place(peer, incoming, loser, wins, target);
      if ok {
        ok := SaveEntry(copy, StampOf(tree, target));
      }
    }

    method Place(peer: string, incoming: Entry, loser: Entry, wins: bool, target: Path) returns (ok: bool)
      modifies this`tree, this`tick, this`parts
      ensures ok <==> PlaceCopy(old(View()), peer, incoming, loser, wins, target).Some?
      ensures View() == if ok then PlaceCopy(old(View()), peer, incoming, loser, wins, target).value else old(View())
    {
      var path, key := incoming.content.path, PartKey(peer, incoming);
      if !ledger.physical(target) || !Reachable(tree, target) {
        return false;
      }
      if target in tree {
        return tree[target].Doc? && Sha256(tree[target].bytes) == loser.content.hash;
      }
      if wins {
        if !IsDoc(tree, path) {
          return false;
        }
        var linked := Install(tree, target, tree[path].bytes, tick);
        if linked.None? {
          return false;
        }
        tree, tick := linked.value, tick + 1;
      } else {
        if key !in parts {
          return false;
        }
        var moved := Install(tree, target, parts[key], tick);
        if moved.None? {
          return false;
        }
        tree, tick, parts := moved.value, tick + 1, parts - {key};
      }
      ok := true;
    }

    method PutFile(peer: string, incoming: Entry, local: Option<Row>) returns (ok: bool)
      requires incoming.content.kind == File
      modifies this`tree, this`tick, this`parts, this`recovery
      ensures ok <==> Materialize(old(View()), peer, incoming, local).Some?
      ensures View() == if ok then Materialize(old(View()), peer, incoming, local).value else old(View())
    {
      var path, key := incoming.content.path, PartKey(peer, incoming);
      var cleared := tree;
      if LocalIs(local, Directory) {
        var removed := Remove(tree, path);
        if removed.None? {
          return false;
        }
        cleared := removed.value;
      }
      if key !in parts {
        return false;
      }
      var installed := Install(cleared, path, parts[key], tick);
      if installed.None? {
        return false;
      }
      if IsDoc(tree, path) {
        recovery := recovery + [(path, tree[path].bytes)];
      }
      tree, tick, parts := installed.value, tick + 1, parts - {key};
      ok := true;
    }

    method PutFolder(peer: string, incoming: Entry, local: Option<Row>) returns (ok: bool)
      requires incoming.content.kind == Directory
      modifies this`tree, this`tick, this`recovery
      ensures ok <==> Materialize(old(View()), peer, incoming, local).Some?
      ensures View() == if ok then Materialize(old(View()), peer, incoming, local).value else old(View())
    {
      var path := incoming.content.path;
      var cleared := tree;
      if LocalIs(local, File) {
        var removed := Remove(tree, path);
        if removed.None? {
          return false;
        }
        cleared := removed.value;
      }
      var made := MakeFolder(cleared, path, tick);
      if made.None? {
        return false;
      }
      if LocalIs(local, File) && IsDoc(tree, path) {
        recovery := recovery + [(path, tree[path].bytes)];
      }
      tree, tick := made.value, tick + 1;
      ok := true;
    }

    method PutInPlace(peer: string, incoming: Entry, local: Option<Row>) returns (ok: bool)
      modifies this`tree, this`tick, this`parts, this`recovery
      ensures ok <==> Materialize(old(View()), peer, incoming, local).Some?
      ensures View() == if ok then Materialize(old(View()), peer, incoming, local).value else old(View())
    {
      if incoming.content.kind == File {
        ok := PutFile(peer, incoming, local);
      } else if incoming.content.kind == Directory {
        ok := PutFolder(peer, incoming, local);
      } else {
        var path := incoming.content.path;
        var removed := Remove(tree, path);
        if removed.None? {
          return false;
        }
        if IsDoc(tree, path) {
          recovery := recovery + [(path, tree[path].bytes)];
        }
        tree := removed.value;
        ok := true;
      }
    }

    method KeepFirst(env: Env, peer: string, incoming: Entry, d: Decision, local: Option<Row>, clock: Clock)
      returns (ok: bool)
      requires local == LocalRow(View(), incoming.content.path) && clock == ClockFor(View(), incoming)
      modifies this`log, this`rows, this`sequence, this`tree, this`tick, this`parts
      ensures ok <==> Kept(env, old(View()), peer, incoming, d, cause).Some?
      ensures View() == if ok then Kept(env, old(View()), peer, incoming, d, cause).value
              else Unkept(env, old(View()), peer, incoming, d)
    {
      ok := true;
      if d.conflict {
        var loser := if d.incomingWins && local.Some? then EntryOf(local.value) else incoming;
        ok := KeepLosing(env, peer, incoming, loser, d.incomingWins, clock);
      }
    }

    method ThenMake(peer: string, incoming: Entry, d: Decision, local: Option<Row>) returns (ok: bool)
      modifies this`tree, this`tick, this`parts, this`recovery
      ensures ok <==> Made(old(View()), peer, incoming, d, local).Some?
      ensures View() == if ok then Made(old(View()), peer, incoming, d, local).value else old(View())
    {
      ok := true;
      if d.incomingWins && !d.same {
        ok := PutInPlace(peer, incoming, local);
      }
    }

    method SaveOr(e: Entry, stamp: Stamp) returns (reply: Reply)
      modifies this`log, this`rows, this`sequence
      ensures Outcome(View(), reply) == SaveOrFail(old(View()), e, stamp, cause)
    {
      var saved := SaveEntry(e, stamp);
      reply := if saved then Complete else Failed("save");
    }

    /** Keeps the loser, changes the tree, saves the winner. */
    method CarryOut(env: Env, peer: string, incoming: Entry, d: Decision) returns (reply: Reply)
      modifies this`log, this`rows, this`sequence, this`tree, this`tick, this`parts, this`recovery
      ensures Outcome(View(), reply) == Apply(env, old(View()), peer, incoming, d, cause)
    {
      var path := incoming.content.path;
      var local := if path in rows then Some(rows[path]) else None;
      var clock := if host.Some? then incoming.content.clock
                   else Joined(incoming.content.clock, if local.Some? then local.value.entry.content.clock else map[]);
      ghost var before := View();
      var ok := KeepFirst(env, peer, incoming, d, local, clock);
      ApplyByStages(env, before, peer, incoming, d, cause);
      if !ok {
        return Failed("conflict_copy");
      }
      reply := Finish(peer, incoming, d, local, clock);
    }

    /** Changes the tree and saves the winner. */
    method Finish(peer: string, incoming: Entry, d: Decision, local: Option<Row>, clock: Clock) returns (reply: Reply)
      modifies this`log, this`rows, this`sequence, this`tree, this`tick, this`parts, this`recovery
      ensures Outcome(View(), reply) == Rest(old(View()), peer, incoming, d, local, clock, cause)
    {
      var path := incoming.content.path;
      var ok := ThenMake(peer, incoming, d, local);
      if !ok {
        return Failed("materialize");
      }
      if !d.incomingWins && local.None? {
        return Failed("invalid_namespace_commit");
      }
      var winner := if d.incomingWins then incoming else EntryOf(local.value);
      reply := SaveOr(winner.(content := winner.content.(clock := clock)), StampOf(tree, path));
    }

    /** What is left to find out before bytes move: how much of the part is there. */
    method AskForBytes(env: Env, peer: string, incoming: Entry) returns (reply: Reply)
      modifies this`parts
      ensures Outcome(View(), reply) == Follow(env, old(View()), peer, incoming, Ask, cause)
    {
      var key := PartKey(peer, incoming);
      var part := if key in parts then parts[key] else [];
      if |part| > incoming.content.size {
        return Failed("invalid_partial_transfer");
      }
      parts := parts[key := part];
      reply := Needs(|part|);
    }

    method PartIsWhole(peer: string, incoming: Entry) returns (whole: bool)
      ensures whole <==> Whole(View(), peer, incoming)
    {
      var key := PartKey(peer, incoming);
      if key !in parts || |parts[key]| != incoming.content.size {
        return false;
      }
      whole := Sha256(parts[key]) == incoming.content.hash;
    }

    /** The tests a merge makes before it changes anything, in their order. */
    method ChooseRoute(env: Env, peer: string, incoming: Entry, commit: bool) returns (route: Route)
      ensures route == RouteOf(env, View(), peer, incoming, commit)
    {
      var c := incoming.content;
      var local := if c.path in rows then Some(rows[c.path]) else None;
      var mirror := host.Some?;
      var relation := RelationTo(incoming);
      var d := DecisionOn(env, incoming, relation);
      var whole := PartIsWhole(peer, incoming);
      RouteByTests(env, View(), peer, incoming, commit);
      var known := exists r | r in log ::
        incoming == Project(r) && r.body.space == ledger.space && r.body.authority == ledger.authority;
      if mirror && (host != Some(peer) || !known) {
        return Refuse("host_revision_required");
      }
      if mirror && local.Some? && !local.value.entry.IsConfirmed()
        && Compare(local.value.entry.content.clock, c.clock) == Greater {
        return KeepEdit(local.value);
      }
      if relation == Same && !(local.Some? && ContentEqual(c, local.value.entry.content)) {
        return Refuse("inconsistent_version_clock");
      }
      if relation == Same || relation == Behind {
        return Settle(local);
      }
      var clock := if mirror then c.clock
        else Joined(c.clock, if local.Some? then local.value.entry.content.clock else map[]);
      if |clock| > MAX_CLOCK {
        return Refuse("replica_clock_limit");
      }
      if mirror && local.Some? && d.retain && !d.same {
        return KeepFolder(local.value);
      }
      if d.bytesNeeded && !commit {
        return Ask;
      }
      if d.bytesNeeded && !whole {
        return Broken;
      }
      route := Carry(d);
    }

    method FollowRoute(env: Env, peer: string, incoming: Entry, route: Route) returns (reply: Reply)
      modifies this`log, this`rows, this`sequence, this`tree, this`tick, this`parts, this`recovery
      ensures Outcome(View(), reply) == Follow(env, old(View()), peer, incoming, route, cause)
    {
      match route
      case Refuse(error) =>
        reply := Failed(error);
      case KeepEdit(row) =>
        reply := SaveOr(Rebased(row.entry, incoming, row.entry.content.clock), row.stamp);
      case Settle(local) =>
        reply := Complete;
        if host.Some? && local.Some? {
          reply := SaveOr(incoming, local.value.stamp);
        }
      case KeepFolder(row) =>
        reply := SaveOr(Rebased(row.entry, incoming, Joined(incoming.content.clock, row.entry.content.clock)),
                        row.stamp);
      case Ask =>
        reply := AskForBytes(env, peer, incoming);
      case Broken =>
        var key := PartKey(peer, incoming);
        if key in parts && |parts[key]| == incoming.content.size {
          parts := parts - {key};
        }
        reply := Failed("incomplete_or_corrupt_transfer");
      case Carry(d) =>
        reply := CarryOut(env, peer, incoming, d);
    }

    /** Looks at the destination, decides, and acts. */
    method MergeEntry(env: Env, peer: string, incoming: Entry, commit: bool) returns (reply: Reply)
      modifies this
      ensures Outcome(View(), reply) == Merge(env, old(View()), peer, incoming, commit)
    {
      cause := CauseOf(incoming);
      var seen := Look(incoming.content.path);
      if !seen {
        return Failed("refresh");
      }
      var route := ChooseRoute(env, peer, incoming, commit);
      reply := FollowRoute(env, peer, incoming, route);
    }

    /** A small file that comes with its commit replaces what was staged of it. */
    method CommitInline(env: Env, peer: string, incoming: Entry, payload: Bytes, free: int) returns (reply: Reply)
      modifies this
      ensures Outcome(View(), reply) == P.CommitInline(env, old(View()), peer, incoming, payload, free)
    {
      if incoming.content.kind != File || incoming.content.size > P.INLINE_BYTES || |payload| != incoming.content.size
         || Sha256(payload) != incoming.content.hash {
        return Failed("invalid_inline_payload");
      }
      if free >= 0 && free < incoming.content.size + P.SPARE_BYTES {
        return Failed("insufficient_storage");
      }
      var key := PartKey(peer, incoming);
      parts := parts[key := payload];
      reply := MergeEntry(env, peer, incoming, true);
      if reply == Complete {
        parts := parts - {key};
      }
    }

    /** Records the host's file without fetching it, after a look at its path. */
    method AcceptMetadata(peer: string, incoming: Entry) returns (reply: Reply)
      modifies this
      ensures Outcome(View(), reply) == P.AcceptMetadata(old(View()), peer, incoming)
    {
      if !ValidRecord(Record(incoming.content, incoming.version), ledger.physical) || incoming.content.kind != File
         || host != Some(peer) || peer == "" {
        return Failed("host_revision_required");
      }
      if !exists r | r in log :: incoming == Project(r) && r.body.space == ledger.space
                                 && r.body.authority == ledger.authority {
        return Failed("host_revision_required");
      }
      cause := P.NO_CAUSE;
      var path := incoming.content.path;
      var seen := Look(path);
      if !seen {
        return Failed("refresh");
      }
      reply := Note(incoming);
    }

    method Note(incoming: Entry) returns (reply: Reply)
      requires cause == P.NO_CAUSE
      modifies this`log, this`rows, this`sequence, this`tree, this`recovery
      ensures Outcome(View(), reply) == P.Handled(old(View()), incoming, P.HandlingOf(old(View()), incoming))
    {
      var path := incoming.content.path;
      if path in rows {
        var local := rows[path];
        if !local.entry.IsConfirmed() {
          return Failed("pending_local_change_requires_merge");
        }
        if local.entry.content.kind == File && local.stamp != Remote && IsDoc(tree, path)
          && local.stamp == StampOf(tree, path)
           && ContentEqual(local.entry.content, incoming.content) {
          reply := SaveOr(incoming, local.stamp);
          return;
        }
        if local.entry.content.kind == Directory {
          return Failed("structural_change_requires_merge");
        }
        if local.entry.content.kind == File && local.stamp != Remote {
          var t := Remove(tree, path);
          if t.None? {
            return Failed("remove");
          }
          if IsDoc(tree, path) {
            recovery := recovery + [(path, tree[path].bytes)];
          }
          tree := t.value;
        }
      }
      reply := SaveOr(incoming, Remote);
    }
  }

  /** What follows once the losing file is kept. */
  ghost function Rest(s: Replica, peer: string, incoming: Entry, d: Decision, local: Option<Row>, clock: Clock,
                      cause: Proposal): Outcome {
    var made := Made(s, peer, incoming, d, local);
    if made.None? then Outcome(s, Failed("materialize"))
    else if !d.incomingWins && local.None? then Outcome(made.value, Failed("invalid_namespace_commit"))
    else
      var winner := if d.incomingWins then incoming else EntryOf(local.value);
      SaveOrFail(made.value, winner.(content := winner.content.(clock := clock)),
                 StampOf(made.value.tree, incoming.content.path), cause)
  }

  lemma ApplyByStages(env: Env, s: Replica, peer: string, incoming: Entry, d: Decision, cause: Proposal)
    ensures Apply(env, s, peer, incoming, d, cause)
            == var kept := Kept(env, s, peer, incoming, d, cause);
               if kept.None? then Outcome(Unkept(env, s, peer, incoming, d), Failed("conflict_copy"))
               else Rest(kept.value, peer, incoming, d, LocalRow(s, incoming.content.path), ClockFor(s, incoming),
                         cause)
  {
  }

  lemma RouteByTests(env: Env, s: Replica, peer: string, incoming: Entry, commit: bool)
    ensures RouteOf(env, s, peer, incoming, commit)
            == RouteWith(s, peer, incoming, commit, Relate(s, incoming), Decide(env, s, incoming, Relate(s, incoming)))
  {
  }

  lemma CommittedPath(log: Log, ledger: Ledger, record: Record, proposal: Version, base: RevisionId)
    ensures var (_, r) := Committed(log, ledger, record, proposal, base);
            r.Some? ==> r.value.Path() == record.content.path
  {
    LatestIsMember(log, record.content.path);
  }
}
