/** Entries recorded without their payload, and payloads that arrive with the commit. */
module Payloads {
  import opened Records
  import opened Paths
  import opened NamespaceJournal
  import opened Trees
  import opened Replicas
  import opened Merges
  import opened MergeSafety
  import opened MergeInvariant

  const INLINE_BYTES: nat := 64 * 1024
  const SPARE_BYTES: nat := 1024 * 1024

  /** Outside a merge nothing is proposed. */
  const NO_CAUSE := Proposal(NoVersion, NoRevision)

  // ---------------------------------------------------------------- metadata only

  predicate FromItsHost(s: Replica, peer: string, incoming: Entry) {
    && ValidRecord(Record(incoming.content, incoming.version), s.ledger.physical)
    && incoming.content.kind == File && s.host == Some(peer) && peer != "" && Contains(s, incoming)
  }

  /** The row's payload is there, under the stamp it was recorded with. */
  predicate Resident(s: Replica, path: Path) {
    path in s.rows && s.rows[path].entry.content.kind == File && s.rows[path].stamp != Remote
    && IsDoc(s.tree, path) && s.rows[path].stamp == StampOf(s.tree, path)
  }

  datatype Handling =
    | Turned(error: string)
    | Renewed(stamp: Stamp)   // the payload is the host's already
    | Evicted(tree: Tree)     // a payload of an older revision is given up
    | Noted

  function HandlingOf(s: Replica, incoming: Entry): Handling {
    var path := incoming.content.path;
    var local := LocalRow(s, path);
    if local.Some? && !local.value.entry.IsConfirmed() then Turned("pending_local_change_requires_merge")
    else if Resident(s, path) && ContentEqual(local.value.entry.content, incoming.content)
      then Renewed(local.value.stamp)
    else if LocalIs(local, Directory) then Turned("structural_change_requires_merge")
    else if LocalIs(local, File) && local.value.stamp != Remote then
      var t := Remove(s.tree, path);
      if t.None? then Turned("remove") else Evicted(t.value)
    else Noted
  }

  function Without(s: Replica, path: Path, t: Tree): Replica {
    s.(tree := t, recovery := Archived(s, path))
  }

  function Handled(s: Replica, incoming: Entry, h: Handling): Outcome {
    match h
    case Turned(error) => Outcome(s, Failed(error))
    case Renewed(stamp) => SaveOrFail(s, incoming, stamp, NO_CAUSE)
    case Evicted(t) => SaveOrFail(Without(s, incoming.content.path, t), incoming, Remote, NO_CAUSE)
    case Noted => SaveOrFail(s, incoming, Remote, NO_CAUSE)
  }

  /** A mirror records the host's file without fetching it. */
  function AcceptMetadata(s: Replica, peer: string, incoming: Entry): Outcome {
    if !FromItsHost(s, peer, incoming) then Outcome(s, Failed("host_revision_required"))
    else
      var looked := Refresh(s, incoming.content.path, NO_CAUSE);
      if looked.None? then Outcome(Unseen(s, incoming.content.path), Failed("refresh"))
      else Handled(looked.value, incoming, HandlingOf(looked.value, incoming))
  }

  lemma EvictedKeepsInv(s: Replica, path: Path)
    requires Inv(s) && Remove(s.tree, path).Some?
    ensures Inv(Without(s, path, Remove(s.tree, path).value))
  {
    var t := Remove(s.tree, path).value;
    RemoveOk(s.tree, path);
    TreeChangeKeepsInv(s, t, s.tick);
    PartsKeepInv(s.(tree := t, tick := s.tick), s.parts, Archived(s, path));
    assert Without(s, path, t) == s.(tree := t, tick := s.tick).(parts := s.parts, recovery := Archived(s, path));
  }

  lemma HandledKeepsInv(s: Replica, incoming: Entry)
    requires Inv(s) && s.Mirror() && Shaped(incoming.content)
    ensures Inv(Handled(s, incoming, HandlingOf(s, incoming)).state)
  {
    var path := incoming.content.path;
    match HandlingOf(s, incoming)
    case Turned(_) =>
    case Renewed(stamp) =>
      assert RowOk(s, path);
      SaveOrFailKeepsInv(s, incoming, stamp, NO_CAUSE);
    case Evicted(t) =>
      EvictedKeepsInv(s, path);
      SaveOrFailKeepsInv(Without(s, path, t), incoming, Remote, NO_CAUSE);
    case Noted => SaveOrFailKeepsInv(s, incoming, Remote, NO_CAUSE);
  }

  /** A file is given up only under a confirmed row that tells its very digest, and archived. */
  ghost predicate Given(s: Replica, s': Replica, path: Path, p: Path)
    requires IsDoc(s.tree, p)
  {
    || (p in s'.tree && s'.tree[p] == s.tree[p])
    || (p == path && path in s.rows && s.rows[path].entry.IsConfirmed()
        && s.rows[path].entry.content.hash == Sha256(s.tree[p].bytes) && (path, s.tree[p].bytes) in s'.recovery)
  }

  lemma HandledGivesUp(s: Replica, incoming: Entry, p: Path)
    requires Fresh(s, incoming.content.path) && IsDoc(s.tree, p)
    ensures Given(s, Handled(s, incoming, HandlingOf(s, incoming)).state, incoming.content.path, p)
  {
    var path := incoming.content.path;
    FreshFile(s, path);
    match HandlingOf(s, incoming)
    case Turned(_) =>
    case Renewed(stamp) => SaveOrFailFiles(s, incoming, stamp, NO_CAUSE);
    case Evicted(t) =>
      SaveOrFailFiles(Without(s, path, t), incoming, Remote, NO_CAUSE);
      if p == path { assert Archived(s, path)[|s.recovery|] == (path, s.tree[p].bytes); }
    case Noted => SaveOrFailFiles(s, incoming, Remote, NO_CAUSE);
  }

  /** Recording a file without its payload keeps the index honest, and never gives up a file
      with an unconfirmed edit: only one whose bytes a confirmed row tells of. */
  lemma OnlyConfirmedPayloadsAreGivenUp(s: Replica, peer: string, incoming: Entry, p: Path)
    requires Inv(s) && IsDoc(s.tree, p)
    ensures var path, looked, end :=
              incoming.content.path, Refresh(s, incoming.content.path, NO_CAUSE), AcceptMetadata(s, peer, incoming);
            Inv(end.state) && Given(if looked.Some? then looked.value else s, end.state, path, p)
  {
    var path := incoming.content.path;
    var looked := Refresh(s, path, NO_CAUSE);
    if FromItsHost(s, peer, incoming) {
      if looked.Some? {
        RefreshIsALook(s, path, NO_CAUSE);
        HandledKeepsInv(looked.value, incoming);
        HandledGivesUp(looked.value, incoming, p);
      } else if Unseen(s, path) != s {
        CountedKeepsInv(s, EditCounter(s, path));
      }
    }
  }

  // ---------------------------------------------------------------- when it is recorded

  /** What stands in the way of recording: an unconfirmed edit, or a folder. */
  predicate MayBeNoted(s: Replica, path: Path) {
    path in s.rows ==> s.rows[path].entry.IsConfirmed() && s.rows[path].entry.content.kind != Directory
  }

  lemma NotedSaves(s: Replica, incoming: Entry, stamp: Stamp)
    requires s.Mirror() && incoming.IsConfirmed() && incoming.version == VersionOf(incoming.content)
    requires s.sequence < MAX_COUNTER
    ensures var end := SaveOrFail(s, incoming, stamp, NO_CAUSE);
            end.reply == Complete && incoming.content.path in end.state.rows
              && end.state.rows[incoming.content.path].entry == incoming
  {
  }

  lemma HandledIff(s: Replica, incoming: Entry)
    requires s.Mirror() && Fresh(s, incoming.content.path) && Reachable(s.tree, incoming.content.path)
    requires s.sequence < MAX_COUNTER
    requires incoming.content.kind == File && incoming.IsConfirmed() && incoming.version == VersionOf(incoming.content)
    ensures var end := Handled(s, incoming, HandlingOf(s, incoming));
            && (end.reply == Complete <==> MayBeNoted(s, incoming.content.path))
            && (end.reply == Complete ==> incoming.content.path in end.state.rows
                                          && end.state.rows[incoming.content.path].entry == incoming)
  {
    FreshFile(s, incoming.content.path);
    match HandlingOf(s, incoming)
    case Turned(_) =>
    case Renewed(stamp) => NotedSaves(s, incoming, stamp);
    case Evicted(t) => NotedSaves(Without(s, incoming.content.path, t), incoming, Remote);
    case Noted => NotedSaves(s, incoming, Remote);
  }

  /** On a mirror with room for another sequence, a file of the host whose path could be
      looked at is recorded exactly when there is no edit and no folder in its place; the
      row is then the host's revision. */
  lemma RecordedIff(s: Replica, peer: string, incoming: Entry)
    requires Inv(s) && FromItsHost(s, peer, incoming) && Refresh(s, incoming.content.path, NO_CAUSE).Some?
    requires Refresh(s, incoming.content.path, NO_CAUSE).value.sequence < MAX_COUNTER
    ensures var looked, end := Refresh(s, incoming.content.path, NO_CAUSE).value, AcceptMetadata(s, peer, incoming);
            && (end.reply == Complete <==> MayBeNoted(looked, incoming.content.path))
            && (end.reply == Complete ==> incoming.content.path in end.state.rows
                                          && end.state.rows[incoming.content.path].entry == incoming)
  {
    RefreshIsALook(s, incoming.content.path, NO_CAUSE);
    HostFileIsConfirmed(s, peer, incoming);
    HandledIff(Refresh(s, incoming.content.path, NO_CAUSE).value, incoming);
  }

  lemma HostFileIsConfirmed(s: Replica, peer: string, incoming: Entry)
    requires FromItsHost(s, peer, incoming)
    ensures incoming.IsConfirmed() && incoming.version == VersionOf(incoming.content)
  {
  }

  // ---------------------------------------------------------------- fetching it later

  /** A confirmed file whose payload is not there, in folders that are. */
  predicate Away(s: Replica, e: Entry) {
    var p := e.content.path;
    && p in s.rows && s.rows[p].entry == e && e.IsConfirmed() && s.rows[p].stamp == Remote && e.content.kind == File
    && p !in s.tree && Reachable(s.tree, p)
  }

  /** A file that is only recorded is not taken for a deletion by any look. */
  lemma AwayIsNoDeletion(s: Replica, e: Entry, cause: Proposal)
    requires Away(s, e)
    ensures Refresh(s, e.content.path, cause) == Some(s)
  {
  }

  lemma AwayIsCarried(env: Env, s: Replica, peer: string, e: Entry)
    requires Away(s, e) && s.host == Some(peer) && Contains(s, e) && Whole(s, peer, e) && |e.content.clock| <= MAX_CLOCK
    ensures RouteOf(env, s, peer, e, true) == Carry(Decision(false, false, true, false, true))
  {
  }

  /** The payload of a recorded file can be fetched like any other: committing its staged
      bytes puts them at its path, and the row keeps its revision. */
  lemma RecordedIsFetched(env: Env, s: Replica, peer: string, e: Entry)
    requires Inv(s) && Away(s, e) && s.host == Some(peer) && Contains(s, e) && Whole(s, peer, e)
    requires |e.content.clock| <= MAX_CLOCK
    ensures var end, p := Merge(env, s, peer, e, true), e.content.path;
            && end.reply == Complete && end.state.rows == s.rows[p := s.rows[p].(stamp := Live(s.tick))]
            && p in end.state.tree && end.state.tree[p] == Doc(s.parts[PartKey(peer, e)], s.tick)
            && Sha256(end.state.tree[p].bytes) == e.content.hash && end.state.recovery == s.recovery
  {
    AwayIsNoDeletion(s, e, CauseOf(e));
    AwayIsCarried(env, s, peer, e);
    assert RowOk(s, e.content.path);
    assert Archived(s, e.content.path) == s.recovery;
  }

  // ---------------------------------------------------------------- payloads with the commit

  predicate InlineFits(e: Entry, payload: Bytes) {
    e.content.kind == File && e.content.size <= INLINE_BYTES && |payload| == e.content.size
      && Sha256(payload) == e.content.hash
  }

  function Staged(s: Replica, peer: string, e: Entry, payload: Bytes): Replica {
    s.(parts := s.parts[PartKey(peer, e) := payload])
  }

  function Unstaged(s: Replica, peer: string, e: Entry): Replica {
    s.(parts := s.parts - {PartKey(peer, e)})
  }

  /** The drive has room for the payload and some to spare, or does not tell how much it has. */
  predicate RoomOnDrive(free: int, size: int) {
    free < 0 || free >= size + SPARE_BYTES
  }

  /** A small file comes with its commit: it replaces whatever was staged of it. */
  function CommitInline(env: Env, s: Replica, peer: string, e: Entry, payload: Bytes, free: int): Outcome {
    if !InlineFits(e, payload) then Outcome(s, Failed("invalid_inline_payload"))
    else if !RoomOnDrive(free, e.content.size) then Outcome(s, Failed("insufficient_storage"))
    else
      var end := Merge(env, Staged(s, peer, e, payload), peer, e, true);
      if end.reply == Complete then Outcome(Unstaged(end.state, peer, e), Complete) else end
  }

  /** A look has nothing to do with staged parts. */
  lemma SaveIgnoresParts(s: Replica, parts: map<(string, Version), Bytes>, e: Entry, stamp: Stamp, cause: Proposal)
    ensures Save(s.(parts := parts), e, stamp, cause)
            == var r := Save(s, e, stamp, cause); if r.None? then None else Some(r.value.(parts := parts))
  {
  }

  lemma LookIgnoresParts(s: Replica, parts: map<(string, Version), Bytes>, path: Path)
    ensures var s' := s.(parts := parts);
            && LookAt(s', path) == LookAt(s, path) && EditCounter(s', path) == EditCounter(s, path)
            && EditEntry(s', path) == EditEntry(s, path) && Countable(s', path) == Countable(s, path)
            && s'.(counter := EditCounter(s, path)) == s.(counter := EditCounter(s, path)).(parts := parts)
  {
  }

  lemma RefreshIgnoresParts(s: Replica, parts: map<(string, Version), Bytes>, path: Path, cause: Proposal)
    ensures Refresh(s.(parts := parts), path, cause)
            == var r := Refresh(s, path, cause); if r.None? then None else Some(r.value.(parts := parts))
  {
    LookIgnoresParts(s, parts, path);
    match LookAt(s, path)
    case Unchanged =>
    case Restamped => SaveIgnoresParts(s, parts, EntryOf(s.rows[path]), StampOf(s.tree, path), cause);
    case Edited =>
      SaveIgnoresParts(s.(counter := EditCounter(s, path)), parts, EditEntry(s, path), StampOf(s.tree, path), cause);
  }

  /** A second look finds nothing to do. */
  lemma LookTwice(s: Replica, path: Path, cause: Proposal)
    requires Inv(s) && Refresh(s, path, cause).Some?
    ensures Refresh(Refresh(s, path, cause).value, path, cause) == Refresh(s, path, cause)
  {
    var now := StampOf(s.tree, path);
    if LookAt(s, path) == Restamped {
      assert RowOk(s, path);
      SaveFromInv(s, EntryOf(s.rows[path]), now, cause);
    } else if LookAt(s, path) == Edited {
      var counted := s.(counter := EditCounter(s, path));
      CountedKeepsInv(s, EditCounter(s, path));
      SaveFromInv(counted, EditEntry(s, path), now, cause);
    }
  }

  lemma CarryNeverAsks(env: Env, s: Replica, peer: string, e: Entry, d: Decision, cause: Proposal)
    ensures !Apply(env, s, peer, e, d, cause).reply.Needs?
  {
    var kept, made, end := ApplyStages(env, s, peer, e, d, cause);
  }

  lemma NeedsMeansAsk(env: Env, s: Replica, peer: string, e: Entry, route: Route, cause: Proposal)
    requires Follow(env, s, peer, e, route, cause).reply.Needs?
    ensures route.Ask?
    ensures var end := Follow(env, s, peer, e, route, cause).state;
            end == s.(parts := end.parts) && end.parts - {PartKey(peer, e)} == s.parts - {PartKey(peer, e)}
  {
    if route.Carry? { CarryNeverAsks(env, s, peer, e, route.decision, cause); }
  }

  lemma CommitNeverAsks(env: Env, s: Replica, peer: string, e: Entry)
    ensures !Merge(env, s, peer, e, true).reply.Needs?
  {
    var r := Refresh(s, e.content.path, CauseOf(e));
    if r.Some? && Merge(env, s, peer, e, true).reply.Needs? {
      NeedsMeansAsk(env, r.value, peer, e, RouteOf(env, r.value, peer, e, true), CauseOf(e));
    }
  }

  lemma BegunIsSeen(env: Env, s: Replica, peer: string, e: Entry) returns (seen: Replica)
    requires Inv(s) && Merge(env, s, peer, e, false).reply.Needs?
    ensures Refresh(s, e.content.path, CauseOf(e)) == Some(seen) && seen.parts == s.parts
    ensures var begun := Merge(env, s, peer, e, false).state;
            begun == seen.(parts := begun.parts) && begun.parts - {PartKey(peer, e)} == s.parts - {PartKey(peer, e)}
  {
    seen := Refresh(s, e.content.path, CauseOf(e)).value;
    RefreshIsALook(s, e.content.path, CauseOf(e));
    NeedsMeansAsk(env, seen, peer, e, RouteOf(env, seen, peer, e, false), CauseOf(e));
  }

  /** A merge starts from what the look at its destination finds. */
  lemma MergeFromLook(env: Env, s: Replica, t: Replica, peer: string, e: Entry, commit: bool)
    requires Refresh(s, e.content.path, CauseOf(e)).Some?
    requires Refresh(s, e.content.path, CauseOf(e)) == Refresh(t, e.content.path, CauseOf(e))
    ensures Merge(env, s, peer, e, commit) == Merge(env, t, peer, e, commit)
  {
  }

  lemma SamePart(a: map<(string, Version), Bytes>, b: map<(string, Version), Bytes>, k: (string, Version),
                 payload: Bytes)
    requires a - {k} == b - {k}
    ensures a[k := payload] == b[k := payload]
  {
    forall x | x in a && x != k
      ensures x in b && a[x] == b[x]
    {
      assert x in a - {k} && x in b - {k} && (a - {k})[x] == (b - {k})[x];
    }
    forall x | x in b && x != k ensures x in a { assert x in b - {k}; }
  }

  /** The two ways of sending a small file come to the same: staging it after a `begin` that
      asked for it and committing, or committing it with its payload.  Neither ever asks
      for more.  On a full drive the payload is refused and nothing changes. */
  lemma InlineIsTheTransfer(env: Env, s: Replica, peer: string, e: Entry, payload: Bytes, free: int)
    requires Inv(s) && InlineFits(e, payload) && Merge(env, s, peer, e, false).reply.Needs?
    ensures var inline, begun := CommitInline(env, s, peer, e, payload, free), Merge(env, s, peer, e, false).state;
            var sent := Merge(env, Staged(begun, peer, e, payload), peer, e, true);
            if RoomOnDrive(free, |payload|)
            then !inline.reply.Needs? && inline.reply == sent.reply
                 && inline.state == if sent.reply == Complete then Unstaged(sent.state, peer, e) else sent.state
            else inline == Outcome(s, Failed("insufficient_storage"))
  {
    var path, cause, begun := e.content.path, CauseOf(e), Merge(env, s, peer, e, false).state;
    var seen := BegunIsSeen(env, s, peer, e);
    var parts := s.parts[PartKey(peer, e) := payload];
    SamePart(begun.parts, s.parts, PartKey(peer, e), payload);
    assert Staged(begun, peer, e, payload) == seen.(parts := parts);
    RefreshIgnoresParts(s, parts, path, cause);
    LookTwice(s, path, cause);
    RefreshIgnoresParts(seen, parts, path, cause);
    MergeFromLook(env, Staged(s, peer, e, payload), seen.(parts := parts), peer, e, true);
    CommitNeverAsks(env, Staged(s, peer, e, payload), peer, e);
  }
}
