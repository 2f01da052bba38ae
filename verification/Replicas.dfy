/** One replica: its index of entries, its copy of the journal and its file tree, and
    how observing the tree and saving an entry change them. */
module Replicas {
  import opened Records
  import opened Paths
  import opened NamespaceJournal
  import opened Trees

  /** The stamp column of an entry: nothing there, payload not fetched, or a native stamp. */
  datatype Stamp = NoStamp | Remote | Live(token: nat)

  /** An entry is a confirmed revision of the host or a proposal against one. */
  datatype Standing =
    | Confirmed(space: string, authority: string, revision: RevisionId, number: int)
    | Pending(base: RevisionId)

  datatype Entry = Entry(content: Content, version: Version, standing: Option<Standing>) {
    predicate IsConfirmed() { standing.Some? && standing.value.Confirmed? }
    predicate IsPending() { standing.Some? && standing.value.Pending? }
  }

  datatype Row = Row(entry: Entry, stamp: Stamp, sequence: nat)

  /** The version and base the current request proposes, recorded with each commit. */
  datatype Proposal = Proposal(version: Version, base: RevisionId)

  datatype Replica = Replica(
    id: string, host: Option<string>, ledger: Ledger, log: Log,
    rows: map<Path, Row>, sequence: nat, counter: nat,
    tree: Tree, tick: nat, parts: map<(string, Version), Bytes>, recovery: seq<(Path, Bytes)>)
  {
    predicate Mirror() { host.Some? }
  }

  function Project(r: Revision): Entry {
    Entry(r.body.entry.content, r.body.entry.version,
          Some(Confirmed(r.body.space, r.body.authority, r.id, r.body.sequence)))
  }

  /** Reading a row replaces the journal's sequence by the row's own. */
  function EntryOf(row: Row): Entry {
    if row.entry.IsConfirmed() then row.entry.(standing := Some(row.entry.standing.value.(number := row.sequence)))
    else row.entry
  }

  function BaseFor(s: Replica, e: Entry): RevisionId {
    var path := e.content.path;
    if e.IsPending() then e.standing.value.base
    else if path in s.rows && s.rows[path].entry.IsPending() then s.rows[path].entry.standing.value.base
    else if path in s.rows && s.rows[path].entry.IsConfirmed() then s.rows[path].entry.standing.value.revision
    else var r := LatestOf(s.log, path); if r.Some? then r.value.id else NoRevision
  }

  predicate Stands(s: Replica, path: Path, version: Version) {
    path in s.rows && s.rows[path].entry.version == version
  }

  /** The row keeps its local sequence when the version stands and gets the next one otherwise. */
  function Stored(s: Replica, log: Log, e: Entry, stamp: Stamp): Option<Replica> {
    var path := e.content.path;
    var stands := Stands(s, path, e.version);
    var position := if stands then s.rows[path].sequence else s.sequence + 1;
    if !stands && position > MAX_COUNTER then None
    else Some(s.(log := log, sequence := if stands then s.sequence
                 else position, rows := s.rows[path := Row(e, stamp, position)]))
  }

  /** Saves an entry: the authority commits it to the journal, a mirror keeps a host
      revision as it is and turns everything else into a proposal. */
  function Save(s: Replica, e: Entry, stamp: Stamp, cause: Proposal): Option<Replica> {
    var record := Versioned(e.content);
    if !s.Mirror() then
      var (log, r) := Committed(s.log, s.ledger, record, cause.version, cause.base);
      if r.None? then None else Stored(s, log, Project(r.value), stamp)
    else if e.IsConfirmed() then Stored(s, s.log, Entry(record.content, record.version, e.standing), stamp)
    else Stored(s, s.log, Entry(record.content, record.version, Some(Pending(BaseFor(s, e)))), stamp)
  }

  function StampOf(t: Tree, p: Path): Stamp {
    if p in t then Live(t[p].stamp) else NoStamp
  }

  /** What the tree holds at a path, under a given clock. */
  function ContentOf(t: Tree, p: Path, clock: Clock): Content {
    if p !in t then Content(p, Deleted, 0, NoDigest, clock)
    else if t[p].Folder? then Content(p, Directory, 0, NoDigest, clock)
    else Content(p, File, |t[p].bytes|, Sha256(t[p].bytes), clock)
  }

  function ClockAt(s: Replica, path: Path): Clock {
    if path in s.rows then s.rows[path].entry.content.clock else map[]
  }

  /** The counter a local edit of `path` gets. */
  function EditCounter(s: Replica, path: Path): int {
    var reading := Reading(ClockAt(s, path), s.id);
    (if reading > s.counter then reading else s.counter) + 1
  }

  function EditEntry(s: Replica, path: Path): Entry {
    var clock := ClockAt(s, path)[s.id := EditCounter(s, path)];
    Entry(ContentOf(s.tree, path, clock), NoVersion, None)
  }

  datatype Look = Unchanged | Restamped | Edited

  /** How the tree differs from the row of `path`. */
  function LookAt(s: Replica, path: Path): Look {
    var known := path in s.rows;
    var now := ContentOf(s.tree, path, map[]);
    if path !in s.tree && (!known || s.rows[path].stamp == Remote) then Unchanged
    else if known && s.rows[path].entry.content.kind == now.kind
         && s.rows[path].stamp == StampOf(s.tree, path) then Unchanged
    else if known && ContentEqual(now, s.rows[path].entry.content) then Restamped
    else Edited
  }

  /** An edit may be counted: neither the counter nor the clock is full. */
  predicate Countable(s: Replica, path: Path) {
    var clock := ClockAt(s, path);
    EditCounter(s, path) <= MAX_COUNTER && !(|clock| > MAX_CLOCK - 1 && s.id !in clock)
  }

  /** Brings the row of `path` up to date with the tree. */
  function Observed(s: Replica, path: Path, cause: Proposal): Option<Replica> {
    match LookAt(s, path)
    case Unchanged => Some(s)
    case Restamped => Save(s, EntryOf(s.rows[path]), StampOf(s.tree, path), cause)
    case Edited =>
      if !Countable(s, path) then None
      else Save(s.(counter := EditCounter(s, path)), EditEntry(s, path), StampOf(s.tree, path), cause)
  }

  function Refresh(s: Replica, path: Path, cause: Proposal): Option<Replica> {
    if !Reachable(s.tree, path) then None else Observed(s, path, cause)
  }

  /** What a failed look leaves: an edit that could not be saved was counted. */
  function Unseen(s: Replica, path: Path): Replica {
    if Reachable(s.tree, path) && LookAt(s, path) == Edited
      && Countable(s, path) then s.(counter := EditCounter(s, path)) else s
  }

  // ---------------------------------------------------------------- what a replica keeps

  predicate Describes(c: Content, t: Tree, p: Path) {
    ContentEqual(c, ContentOf(t, p, c.clock))
  }

  /** A row whose stamp still is the tree's describes what the tree holds. */
  predicate HonestRow(s: Replica, p: Path)
    requires p in s.rows
  {
    var row := s.rows[p];
    && (row.stamp.Live? ==> row.stamp.token < s.tick)
    && (row.stamp == StampOf(s.tree, p) && row.entry.content.kind == ContentOf(s.tree, p, map[]).kind
        ==> Describes(row.entry.content, s.tree, p))
  }

  /** Only files have a size and a digest. */
  predicate Shaped(c: Content) {
    c.kind != File ==> c.size == 0 && c.hash == NoDigest
  }

  predicate RowOk(s: Replica, p: Path)
    requires p in s.rows
  {
    var row := s.rows[p];
    && row.entry.content.path == p && row.entry.version == VersionOf(row.entry.content)
    && row.sequence <= s.sequence
    && row.entry.standing.Some? && Shaped(row.entry.content)
    && (if s.Mirror() then true
        else row.stamp != Remote && LatestOf(s.log, p).Some? && row.entry == Project(LatestOf(s.log, p).value))
    && HonestRow(s, p)
  }

  predicate Inv(s: Replica) {
    && WellFormed(s.log, s.ledger)
    && TreeOk(s.tree)
    && (forall p | p in s.tree :: s.tree[p].stamp < s.tick)
    && (forall p | p in s.rows :: RowOk(s, p))
    && (!s.Mirror() ==> forall r | r in s.log :: r.Path() in s.rows)
  }

  /** The row of `path` says what the tree holds there, or that the payload is remote. */
  predicate Fresh(s: Replica, path: Path) {
    if path in s.rows && s.rows[path].stamp != Remote then Describes(s.rows[path].entry.content, s.tree, path)
    else path !in s.tree
  }

  lemma StoredTouchesOneRow(s: Replica, log: Log, e: Entry, stamp: Stamp)
    requires Stored(s, log, e, stamp).Some?
    requires e.content.path in s.rows ==> s.rows[e.content.path].sequence <= s.sequence
    ensures var s', p := Stored(s, log, e, stamp).value, e.content.path;
            && s' == s.(log := log, sequence := s'.sequence, rows := s'.rows)
            && p in s'.rows && s'.rows == s.rows[p := s'.rows[p]]
            && s'.rows[p].entry == e && s'.rows[p].stamp == stamp
            && s.sequence <= s'.sequence <= s.sequence + 1 && s'.rows[p].sequence <= s'.sequence
  {
  }

  /** What a successful save did: one row, holding exactly the saved content. */
  ghost predicate Saved(s: Replica, s': Replica, e: Entry, stamp: Stamp) {
    var p := e.content.path;
    && s' == s.(log := s'.log, sequence := s'.sequence, rows := s'.rows)
    && p in s'.rows && s'.rows == s.rows[p := s'.rows[p]]
    && s'.rows[p].entry.content == e.content && s'.rows[p].entry.version == VersionOf(e.content)
    && s'.rows[p].stamp == stamp
    && s.log <= s'.log && (s.Mirror() ==> s'.log == s.log)
    && s.sequence <= s'.sequence <= s.sequence + 1 && s'.rows[p].sequence <= s'.sequence
    && WellFormed(s'.log, s.ledger)
    && (!s.Mirror() ==> LatestOf(s'.log, p).Some? && s'.rows[p].entry == Project(LatestOf(s'.log, p).value))
    && (forall q | q != p :: LatestOf(s'.log, q) == LatestOf(s.log, q))
    && (s.Mirror() ==> s'.rows[p].entry.standing
                       == if e.IsConfirmed() then e.standing else Some(Pending(BaseFor(s, e))))
  }

  lemma SaveTouchesOneRow(s: Replica, e: Entry, stamp: Stamp, cause: Proposal)
    requires WellFormed(s.log, s.ledger) && Save(s, e, stamp, cause).Some?
    requires e.content.path in s.rows ==> s.rows[e.content.path].sequence <= s.sequence
    ensures Saved(s, Save(s, e, stamp, cause).value, e, stamp)
  {
    var record := Versioned(e.content);
    if !s.Mirror() {
      CommitKeepsWellFormed(s.log, s.ledger, record, cause.version, cause.base);
      var (log, r) := Committed(s.log, s.ledger, record, cause.version, cause.base);
      StoredTouchesOneRow(s, log, Project(r.value), stamp);
    } else if e.IsConfirmed() {
      StoredTouchesOneRow(s, s.log, Entry(record.content, record.version, e.standing), stamp);
    } else {
      StoredTouchesOneRow(s, s.log, Entry(record.content, record.version, Some(Pending(BaseFor(s, e)))), stamp);
    }
  }

  lemma SaveFromInv(s: Replica, e: Entry, stamp: Stamp, cause: Proposal)
    requires Inv(s) && Save(s, e, stamp, cause).Some?
    ensures Saved(s, Save(s, e, stamp, cause).value, e, stamp)
  {
    assert e.content.path in s.rows ==> RowOk(s, e.content.path);
    SaveTouchesOneRow(s, e, stamp, cause);
  }

  lemma LogPathsHaveRows(s: Replica, e: Entry, stamp: Stamp, cause: Proposal)
    requires Inv(s) && Save(s, e, stamp, cause).Some? && !s.Mirror()
    ensures var s' := Save(s, e, stamp, cause).value; forall r | r in s'.log :: r.Path() in s'.rows
  {
    SaveFromInv(s, e, stamp, cause);
    var s' := Save(s, e, stamp, cause).value;
    forall r | r in s'.log && r.Path() != e.content.path ensures r.Path() in s.rows {
      LatestIsMember(s'.log, r.Path());
      LatestIsMember(s.log, r.Path());
    }
  }

  /** Saving under an honest stamp keeps everything a replica promises. */
  lemma SaveKeepsInv(s: Replica, e: Entry, stamp: Stamp, cause: Proposal)
    requires Inv(s) && Save(s, e, stamp, cause).Some? && Shaped(e.content)
    requires !s.Mirror() ==> stamp != Remote
    requires stamp.Live? ==> stamp.token < s.tick
    requires stamp != StampOf(s.tree, e.content.path) || e.content.kind != ContentOf(s.tree, e.content.path, map[]).kind
             || Describes(e.content, s.tree, e.content.path)
    ensures Inv(Save(s, e, stamp, cause).value)
  {
    SaveFromInv(s, e, stamp, cause);
    var s' := Save(s, e, stamp, cause).value;
    forall p | p in s'.rows ensures RowOk(s', p) {
      if p != e.content.path { assert RowOk(s, p); }
    }
    if !s.Mirror() {
      LogPathsHaveRows(s, e, stamp, cause);
    }
  }

  /** What a look at `path` may do: change that row only, and leave it telling what the
      tree holds. */
  ghost predicate Looked(s: Replica, s': Replica, path: Path) {
    && Inv(s') && Fresh(s', path)
    && s' == s.(log := s'.log, sequence := s'.sequence, counter := s'.counter, rows := s'.rows)
    && (forall q | q != path :: (q in s.rows <==> q in s'.rows) && (q in s.rows ==> s'.rows[q] == s.rows[q]))
    && (path in s.rows ==> path in s'.rows)
    && s.log <= s'.log && (s.Mirror() ==> s'.log == s.log)
    && (forall q | q != path :: LatestOf(s'.log, q) == LatestOf(s.log, q))
  }

  lemma SaveOfTreeIsALook(s: Replica, e: Entry, cause: Proposal)
    requires Inv(s) && Describes(e.content, s.tree, e.content.path)
    requires Save(s, e, StampOf(s.tree, e.content.path), cause).Some?
    ensures Looked(s, Save(s, e, StampOf(s.tree, e.content.path), cause).value, e.content.path)
  {
    SaveFromInv(s, e, StampOf(s.tree, e.content.path), cause);
    SaveKeepsInv(s, e, StampOf(s.tree, e.content.path), cause);
  }

  lemma CountedKeepsInv(s: Replica, counter: nat)
    requires Inv(s)
    ensures Inv(s.(counter := counter))
  {
    var s' := s.(counter := counter);
    forall p | p in s'.rows ensures RowOk(s', p) { assert RowOk(s, p); }
  }

  lemma UnchangedIsFresh(s: Replica, path: Path)
    requires Inv(s) && LookAt(s, path) == Unchanged
    ensures Fresh(s, path)
  {
    if path in s.rows { assert RowOk(s, path); }
  }

  lemma RestampedIsALook(s: Replica, path: Path, cause: Proposal)
    requires Inv(s) && LookAt(s, path) == Restamped
    requires Save(s, EntryOf(s.rows[path]), StampOf(s.tree, path), cause).Some?
    ensures Looked(s, Save(s, EntryOf(s.rows[path]), StampOf(s.tree, path), cause).value, path)
  {
    assert RowOk(s, path);
    SaveOfTreeIsALook(s, EntryOf(s.rows[path]), cause);
  }

  lemma EditIsALook(s: Replica, path: Path, cause: Proposal)
    requires Inv(s)
    requires Save(s.(counter := EditCounter(s, path)), EditEntry(s, path), StampOf(s.tree, path), cause).Some?
    requires EditCounter(s, path) >= 0
    ensures Looked(s, Save(s.(counter := EditCounter(s, path)), EditEntry(s, path), StampOf(s.tree, path), cause).value,
                   path)
  {
    CountedKeepsInv(s, EditCounter(s, path));
    SaveOfTreeIsALook(s.(counter := EditCounter(s, path)), EditEntry(s, path), cause);
  }

  /** A successful look at the tree leaves the tree alone, changes at most the row of the
      path, and makes that row say what the tree holds. */
  lemma ObservedMakesFresh(s: Replica, path: Path, cause: Proposal)
    requires Inv(s) && Observed(s, path, cause).Some?
    ensures Looked(s, Observed(s, path, cause).value, path)
  {
    match LookAt(s, path)
    case Unchanged => UnchangedIsFresh(s, path);
    case Restamped => RestampedIsALook(s, path, cause);
    case Edited => EditIsALook(s, path, cause);
  }

  // ---------------------------------------------------------------- offline edits

  /** What a mirror's next proposal for `path` would be based on. */
  function BaseOf(s: Replica, path: Path): RevisionId {
    if path in s.rows && s.rows[path].entry.IsPending() then s.rows[path].entry.standing.value.base
    else if path in s.rows && s.rows[path].entry.IsConfirmed() then s.rows[path].entry.standing.value.revision
    else var r := LatestOf(s.log, path); if r.Some? then r.value.id else NoRevision
  }

  lemma SaveKeepsBase(s: Replica, e: Entry, stamp: Stamp, cause: Proposal, q: Path)
    requires Inv(s) && s.Mirror() && Save(s, e, stamp, cause).Some?
    requires e.standing.None? || (e.content.path in s.rows && e == EntryOf(s.rows[e.content.path]))
    ensures BaseOf(Save(s, e, stamp, cause).value, q) == BaseOf(s, q)
  {
    SaveFromInv(s, e, stamp, cause);
  }

  /** A look at the tree of a mirror never moves the base of a path: an edit turns the
      confirmed revision into the base, and later edits keep it. */
  lemma LookKeepsBase(s: Replica, path: Path, q: Path, cause: Proposal)
    requires Inv(s) && s.Mirror() && Observed(s, path, cause).Some?
    ensures BaseOf(Observed(s, path, cause).value, q) == BaseOf(s, q)
  {
    match LookAt(s, path)
    case Unchanged =>
    case Restamped =>
      assert RowOk(s, path);
      SaveKeepsBase(s, EntryOf(s.rows[path]), StampOf(s.tree, path), cause, q);
    case Edited =>
      CountedKeepsInv(s, EditCounter(s, path));
      SaveKeepsBase(s.(counter := EditCounter(s, path)), EditEntry(s, path), StampOf(s.tree, path), cause, q);
  }

  /** An edit that changes the contents becomes a proposal against that base. */
  lemma EditBecomesProposal(s: Replica, path: Path, cause: Proposal)
    requires Inv(s) && s.Mirror() && LookAt(s, path) == Edited && Observed(s, path, cause).Some?
    ensures var s' := Observed(s, path, cause).value;
            path in s'.rows && s'.rows[path].entry.standing == Some(Pending(BaseOf(s, path)))
  {
    CountedKeepsInv(s, EditCounter(s, path));
    SaveFromInv(s.(counter := EditCounter(s, path)), EditEntry(s, path), StampOf(s.tree, path), cause);
  }

  datatype Edit = Edit(path: Path, tree: Tree, tick: nat)

  /** Any number of rounds in which the user rearranges the tree and one path is scanned. */
  function Offline(s: Replica, edits: seq<Edit>, cause: Proposal): Option<Replica>
    decreases |edits|
  {
    if edits == [] then Some(s)
    else
      var s' := Observed(s.(tree := edits[0].tree, tick := edits[0].tick), edits[0].path, cause);
      if s'.None? then None else Offline(s'.value, edits[1..], cause)
  }

  /** The user's changes leave a well-formed tree and give every changed entry a new stamp. */
  predicate HonestEdit(s: Replica, e: Edit) {
    && TreeOk(e.tree) && s.tick <= e.tick
    && (forall p | p in e.tree :: e.tree[p].stamp < e.tick)
    && (forall p | p in e.tree && e.tree[p].stamp < s.tick :: p in s.tree && s.tree[p] == e.tree[p])
    && (forall p | p in s.rows && s.rows[p].stamp.Live? && p in e.tree && e.tree[p].stamp == s.rows[p].stamp.token ::
          p in s.tree && s.tree[p] == e.tree[p])
  }

  predicate HonestEdits(s: Replica, edits: seq<Edit>, cause: Proposal)
    decreases |edits|
  {
    edits == [] ||
    (&& HonestEdit(s, edits[0])
     && (var s' := Observed(s.(tree := edits[0].tree, tick := edits[0].tick), edits[0].path, cause);
         s'.Some? ==> HonestEdits(s'.value, edits[1..], cause)))
  }

  lemma EditKeepsInv(s: Replica, e: Edit)
    requires Inv(s) && HonestEdit(s, e)
    ensures Inv(s.(tree := e.tree, tick := e.tick))
  {
    var s' := s.(tree := e.tree, tick := e.tick);
    forall p | p in s'.rows ensures RowOk(s', p) {
      assert RowOk(s, p);
    }
  }

  /** However often a mirror edits offline, each path's proposal keeps the base it had
      at the first edit: the revision that was confirmed then. */
  lemma {:induction false} OfflineEditsKeepFirstBase(s: Replica, edits: seq<Edit>, cause: Proposal, q: Path)
    requires Inv(s) && s.Mirror() && HonestEdits(s, edits, cause) && Offline(s, edits, cause).Some?
    ensures var s' := Offline(s, edits, cause).value;
            Inv(s') && s'.Mirror() && s'.log == s.log && BaseOf(s', q) == BaseOf(s, q)
    decreases |edits|
  {
    if edits != [] {
      var e := edits[0];
      var edited := s.(tree := e.tree, tick := e.tick);
      EditKeepsInv(s, e);
      ObservedMakesFresh(edited, e.path, cause);
      LookKeepsBase(edited, e.path, q, cause);
      OfflineEditsKeepFirstBase(Observed(edited, e.path, cause).value, edits[1..], cause, q);
    }
  }
}
