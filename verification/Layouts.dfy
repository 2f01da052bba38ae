/** What a full mirror has at each path, told by contents alone, and exactly what becomes of it
    when one entry of its host is pulled. */
module Layouts {
  import opened Records
  import opened Paths
  import opened NamespaceJournal
  import opened Trees
  import opened Replicas
  import opened Merges
  import opened MergeSafety
  import opened MergeInvariant
  import opened MergeConditions
  import opened HostVersions

  /** A path's content and, if it is a proposal of the mirror's own, the revision that is based on. */
  datatype Spot = Spot(content: Content, base: Option<RevisionId>) {
    predicate Own() { base.Some? }
  }

  type Layout = map<Path, Spot>

  predicate At(l: Layout, p: Path, kind: Kind) {
    p in l && l[p].content.kind == kind
  }

  predicate Lives(l: Layout, p: Path) {
    p in l && l[p].content.kind != Deleted
  }

  function BaseOfEntry(e: Entry): Option<RevisionId> {
    if e.IsPending() then Some(e.standing.value.base) else None
  }

  ghost predicate SpotAt(s: Replica, l: Layout, p: Path) {
    && UpToDate(s, p) && (p in s.rows <==> p in l)
    && (p in l ==> && l[p].content.path == p && l[p].content == s.rows[p].entry.content
                   && l[p].base == BaseOfEntry(s.rows[p].entry))
  }

  /** The mirror has exactly this layout, in its index and in its tree. */
  ghost predicate Holding(s: Replica, l: Layout) {
    Inv(s) && s.Mirror() && forall p :: SpotAt(s, l, p)
  }

  // ---------------------------------------------------------------- one entry

  /** A file lies where the entry needs a folder. */
  predicate Hidden(l: Layout, e: Entry) {
    exists a | a in Ancestors(e.content.path) :: At(l, a, File)
  }

  /** The mirror's own proposal is newer than the entry. */
  predicate Outdone(l: Layout, e: Entry) {
    var p := e.content.path;
    p in l && l[p].Own() && Compare(l[p].content.clock, e.content.clock) == Greater
  }

  /** The entry takes the place of a file that must be kept. */
  predicate Displaced(l: Layout, e: Entry) {
    var p := e.content.path;
    At(l, p, File) && !ContentEqual(e.content, l[p].content) && (e.content.kind == Directory || l[p].Own())
  }

  /** What that file is kept as. */
  function CopyIn(env: Env, l: Layout, e: Entry): Content
    requires e.content.path in l
  {
    var c := l[e.content.path].content;
    c.(path := ConflictPath(e.content.path, env.tag(VersionOf(c))), clock := e.content.clock)
  }

  /** Its name has a place, and is unused or has the same bytes. */
  predicate Usable(physical: Path -> bool, l: Layout, copy: Content) {
    && physical(copy.path)
    && (Lives(l, copy.path) ==> At(l, copy.path, File) && l[copy.path].content.hash == copy.hash)
  }

  /** The copy the entry leaves behind. */
  function CopyLeft(env: Env, l: Layout, e: Entry): Option<Content> {
    if !Outdone(l, e) && Displaced(l, e) then Some(CopyIn(env, l, e)) else None
  }

  predicate Refused(env: Env, physical: Path -> bool, l: Layout, e: Entry) {
    || Hidden(l, e)
    || (CopyLeft(env, l, e).Some? && !Usable(physical, l, CopyLeft(env, l, e).value))
  }

  function WithCopy(l: Layout, copy: Option<Content>): Layout {
    if copy.Some? then l[copy.value.path := Spot(copy.value, Some(NoRevision))] else l
  }

  /** The layout once the entry was pulled. */
  function Met(env: Env, l: Layout, e: Entry): Layout {
    if Outdone(l, e) then l[e.content.path := l[e.content.path].(base := Some(RevisionIn(e)))]
    else WithCopy(l, CopyLeft(env, l, e))[e.content.path := Spot(e.content, None)]
  }

  // ---------------------------------------------------------------- the layout is what decides

  lemma NodeAt(s: Replica, l: Layout, p: Path)
    requires SpotAt(s, l, p)
    ensures p in s.tree <==> Lives(l, p)
    ensures IsDoc(s.tree, p) <==> At(l, p, File)
    ensures p in s.tree && s.tree[p].Folder? <==> At(l, p, Directory)
    ensures IsDoc(s.tree, p) ==> Sha256(s.tree[p].bytes) == l[p].content.hash
  {
  }

  lemma HiddenIff(s: Replica, l: Layout, e: Entry)
    requires Holding(s, l)
    ensures Reachable(s.tree, e.content.path) <==> !Hidden(l, e)
  {
    forall a | a in Ancestors(e.content.path) ensures IsDoc(s.tree, a) <==> At(l, a, File) {
      assert SpotAt(s, l, a);
      NodeAt(s, l, a);
    }
  }

  lemma LocalIsSpot(env: Env, s: Replica, l: Layout, e: Entry)
    requires Holding(s, l)
    ensures UpToDate(s, e.content.path)
    ensures NewerEdit(s, e) <==> Outdone(l, e)
    ensures Displaces(s, e) <==> Displaced(l, e)
    ensures e.content.path in s.rows <==> e.content.path in l
    ensures e.content.path in l ==> CopyContent(env, s, e) == CopyIn(env, l, e)
  {
    var p := e.content.path;
    assert SpotAt(s, l, p);
    if p in s.rows { assert RowOk(s, p); }
  }

  lemma UsableIff(s: Replica, l: Layout, copy: Content)
    requires Holding(s, l)
    ensures Usable(s.ledger.physical, l, copy) <==> NameServes(s, copy.path, copy.hash)
  {
    assert SpotAt(s, l, copy.path);
    NodeAt(s, l, copy.path);
  }

  /** What the structure of a delta grants an entry: the folders above it, unless a file lies in
      the way, and nothing below it, unless it is a folder. */
  ghost predicate Open(l: Layout, e: Entry) {
    var p := e.content.path;
    && (e.content.kind != Deleted && !Hidden(l, e) ==> forall a | a in Ancestors(p) :: At(l, a, Directory))
    && (e.content.kind != Directory ==> forall q | Below(q, p) :: !Lives(l, q))
  }

  lemma OpenTree(s: Replica, l: Layout, e: Entry)
    requires Holding(s, l) && Open(l, e)
    ensures e.content.kind != Deleted && !Hidden(l, e) ==> FoldersThere(s.tree, e.content.path)
    ensures e.content.kind != Directory ==> !HasChildren(s.tree, e.content.path)
  {
    forall a | a in Ancestors(e.content.path) && At(l, a, Directory) ensures a in s.tree && s.tree[a].Folder? {
      assert SpotAt(s, l, a);
      NodeAt(s, l, a);
    }
    forall q | Below(q, e.content.path) && !Lives(l, q) ensures q !in s.tree {
      assert SpotAt(s, l, q);
      NodeAt(s, l, q);
    }
  }

  lemma IsApproachable(env: Env, s: Replica, l: Layout, peer: string, e: Entry)
    requires Holding(s, l) && Open(l, e) && !Hidden(l, e) && !Outdone(l, e)
    requires FromHost(s, peer, e) && s.sequence + 2 <= MAX_COUNTER
    ensures Approachable(s, peer, e)
  {
    HiddenIff(s, l, e);
    LocalIsSpot(env, s, l, e);
    OpenTree(s, l, e);
  }

  // ---------------------------------------------------------------- refusals

  lemma HiddenFails(env: Env, s: Replica, l: Layout, peer: string, e: Entry, payload: Bytes)
    requires Holding(s, l) && Hidden(l, e)
    ensures Pull(env, s, peer, e, payload).reply.Failed?
  {
    HiddenIff(s, l, e);
  }

  /** An entry whose displaced file cannot be kept under its conflict name is not put in place. */
  lemma TakenNameFails(env: Env, s: Replica, peer: string, e: Entry, payload: Bytes)
    requires Approachable(s, peer, e) && Displaces(s, e)
    requires e.content.kind == File ==> Sendable(s, peer, e, payload)
    requires !NameServes(s, CopyPath(env, s, e), s.rows[e.content.path].entry.content.hash)
    ensures Pull(env, s, peer, e, payload).reply.Failed?
  {
    HostDecides(env, s, peer, e);
    if e.content.kind == File {
      TakenFileFails(env, s, peer, e, payload);
    } else {
      TakenCommitFails(env, s, peer, e, false);
    }
  }

  lemma TakenCommitFails(env: Env, s: Replica, peer: string, e: Entry, commit: bool)
    requires Approachable(s, peer, e) && Displaces(s, e) && (e.content.kind == File ==> commit && Whole(s, peer, e))
    requires !NameServes(s, CopyPath(env, s, e), s.rows[e.content.path].entry.content.hash)
    ensures Merge(env, s, peer, e, commit).reply.Failed?
  {
    var d, cause := HostDecision(s, e), CauseOf(e);
    NoNewLook(s, e.content.path, cause);
    DisplacedIsReady(env, s, peer, e);
    HostDecides(env, s, peer, e);
    HostRouteWith(s, peer, e, commit, Ahead, d);
    TakenApplyFails(env, s, peer, e);
  }

  lemma TakenApplyFails(env: Env, s: Replica, peer: string, e: Entry)
    requires Approachable(s, peer, e) && Displaces(s, e) && (e.content.kind == File ==> Whole(s, peer, e))
    requires !NameServes(s, CopyPath(env, s, e), s.rows[e.content.path].entry.content.hash)
    ensures Apply(env, s, peer, e, HostDecision(s, e), CauseOf(e)).reply.Failed?
  {
    DisplacedIsReady(env, s, peer, e);
    ConflictIsKeptIff(env, s, peer, e, Ahead, HostDecision(s, e), CauseOf(e));
  }

  lemma DisplacedIsReady(env: Env, s: Replica, peer: string, e: Entry)
    requires Approachable(s, peer, e) && Displaces(s, e) && (e.content.kind == File ==> Whole(s, peer, e))
    ensures Ready(env, s, peer, e, Ahead, HostDecision(s, e)) && Relate(s, e) == Ahead
  {
    HostDecides(env, s, peer, e);
  }

  lemma TakenFileFails(env: Env, s: Replica, peer: string, e: Entry, payload: Bytes)
    requires Approachable(s, peer, e) && Displaces(s, e) && e.content.kind == File && Sendable(s, peer, e, payload)
    requires !NameServes(s, CopyPath(env, s, e), s.rows[e.content.path].entry.content.hash)
    ensures Pull(env, s, peer, e, payload).reply.Failed?
  {
    DisplacedIsAskedFor(env, s, peer, e);
    var parts := Merge(env, s, peer, e, false).state.parts[PartKey(peer, e) := payload];
    StagedIsApproachable(env, s, peer, e, parts);
    TakenCommitFails(env, s.(parts := parts), peer, e, true);
  }

  lemma DisplacedIsAskedFor(env: Env, s: Replica, peer: string, e: Entry)
    requires Approachable(s, peer, e) && Displaces(s, e) && e.content.kind == File
    requires PartKey(peer, e) in s.parts ==> |s.parts[PartKey(peer, e)]| <= e.content.size
    ensures var end := Merge(env, s, peer, e, false);
            end.reply.Needs? && end.state == s.(parts := end.state.parts)
  {
    NoNewLook(s, e.content.path, CauseOf(e));
    HostDecides(env, s, peer, e);
  }

  lemma StagedIsApproachable(env: Env, s: Replica, peer: string, e: Entry, parts: map<(string, Version), Bytes>)
    requires Approachable(s, peer, e)
    ensures Approachable(s.(parts := parts), peer, e)
    ensures Displaces(s.(parts := parts), e) <==> Displaces(s, e)
  {
    StagedKeepsInv(s, parts);
  }

  // ---------------------------------------------------------------- the whole pull

  lemma PullKeepsInv(env: Env, s: Replica, peer: string, e: Entry, payload: Bytes)
    requires Inv(s) && Shaped(e.content)
    ensures Inv(Pull(env, s, peer, e, payload).state)
  {
    MergeKeepsInv(env, s, peer, e, false);
    var begun := Merge(env, s, peer, e, false);
    if begun.reply.Needs? {
      var parts := begun.state.parts[PartKey(peer, e) := payload];
      StagedKeepsInv(begun.state, parts);
      MergeKeepsInv(env, begun.state.(parts := parts), peer, e, true);
    }
  }

  /** A pull leaves the journal alone and uses at most two sequences. */
  ghost predicate Carries(s: Replica, s': Replica) {
    s'.host == s.host && s'.ledger == s.ledger && s'.log == s.log && s'.sequence <= s.sequence + 2
  }

  lemma TookSpot(env: Env, s: Replica, s': Replica, l: Layout, e: Entry, copy: Option<Content>, q: Path)
    requires SpotAt(s, l, q) && Took(s, s', e, copy) && e.content.path !in Places(copy)
    ensures SpotAt(s', WithCopy(l, copy)[e.content.path := Spot(e.content, None)], q)
  {
    if q != e.content.path && q !in Places(copy) { assert SameAt(s.tree, s'.tree, q); }
  }

  lemma TookHolds(env: Env, s: Replica, s': Replica, l: Layout, e: Entry, copy: Option<Content>)
    requires Holding(s, l) && Inv(s') && Took(s, s', e, copy) && e.content.path !in Places(copy)
    ensures Holding(s', WithCopy(l, copy)[e.content.path := Spot(e.content, None)])
  {
    var l' := WithCopy(l, copy)[e.content.path := Spot(e.content, None)];
    forall q ensures SpotAt(s', l', q) {
      assert SpotAt(s, l, q);
      TookSpot(env, s, s', l, e, copy, q);
    }
  }

  lemma NotItsOwnCopy(env: Env, l: Layout, e: Entry)
    ensures e.content.path !in Places(CopyLeft(env, l, e))
  {
    if e.content.path in l { ConflictPathDiffers(e.content.path, env.tag(VersionOf(l[e.content.path].content))); }
  }

  lemma Placed(env: Env, s: Replica, l: Layout, peer: string, e: Entry, payload: Bytes)
    requires Holding(s, l) && Approachable(s, peer, e) && Sendable(s, peer, e, payload)
    requires !Outdone(l, e) && !Refused(env, s.ledger.physical, l, e)
    ensures var end := Pull(env, s, peer, e, payload);
            end.reply == Complete && Took(s, end.state, e, CopyLeft(env, l, e))
  {
    LocalIsSpot(env, s, l, e);
    if Displaced(l, e) { UsableIff(s, l, CopyIn(env, l, e)); }
    assert CopyPlaced(env, s, e) == CopyLeft(env, l, e);
    MirrorTakesHostVersion(env, s, peer, e, payload);
  }

  lemma RebasedHolds(s: Replica, l: Layout, row: Row, p: Path)
    requires Holding(s, l) && Inv(s.(rows := s.rows[p := row])) && p in s.rows && p in l
    requires row.entry.content == s.rows[p].entry.content && row.stamp == s.rows[p].stamp
    ensures Holding(s.(rows := s.rows[p := row]), l[p := l[p].(base := BaseOfEntry(row.entry))])
  {
    var s', l' := s.(rows := s.rows[p := row]), l[p := l[p].(base := BaseOfEntry(row.entry))];
    assert SpotAt(s, l, p);
    forall q ensures SpotAt(s', l', q) {
      assert SpotAt(s, l, q);
    }
  }

  lemma OutdoneStays(env: Env, s: Replica, l: Layout, peer: string, e: Entry, payload: Bytes)
    requires Holding(s, l) && Outdone(l, e) && !Hidden(l, e) && FromHost(s, peer, e)
    ensures var end := Pull(env, s, peer, e, payload);
            end.reply == Complete && Holding(end.state, Met(env, l, e)) && Carries(s, end.state)
  {
    HiddenIff(s, l, e);
    LocalIsSpot(env, s, l, e);
    PullKeepsInv(env, s, peer, e, payload);
    NewerEditStays(env, s, peer, e, payload);
    var row := s.rows[e.content.path];
    RebasedHolds(s, l, row.(entry := Rebased(row.entry, e, row.entry.content.clock)), e.content.path);
  }

  lemma RefusedFails(env: Env, s: Replica, l: Layout, peer: string, e: Entry, payload: Bytes)
    requires Holding(s, l) && Open(l, e) && Refused(env, s.ledger.physical, l, e)
    requires FromHost(s, peer, e) && Sendable(s, peer, e, payload) && s.sequence + 2 <= MAX_COUNTER
    ensures Pull(env, s, peer, e, payload).reply.Failed?
  {
    if Hidden(l, e) {
      HiddenFails(env, s, l, peer, e, payload);
    } else {
      IsApproachable(env, s, l, peer, e);
      LocalIsSpot(env, s, l, e);
      UsableIff(s, l, CopyIn(env, l, e));
      TakenNameFails(env, s, peer, e, payload);
    }
  }

  /** Pulling an entry of the host is refused exactly when the layout says so; otherwise it
      completes, and the mirror has the layout that follows. */
  lemma PullMeets(env: Env, s: Replica, l: Layout, peer: string, e: Entry, payload: Bytes)
    requires Holding(s, l) && Open(l, e)
    requires FromHost(s, peer, e) && Sendable(s, peer, e, payload) && s.sequence + 2 <= MAX_COUNTER
    ensures var end := Pull(env, s, peer, e, payload);
            && (Refused(env, s.ledger.physical, l, e) ==> end.reply.Failed?)
            && (!Refused(env, s.ledger.physical, l, e) ==>
                  end.reply == Complete && Holding(end.state, Met(env, l, e)) && Carries(s, end.state))
  {
    if Refused(env, s.ledger.physical, l, e) {
      RefusedFails(env, s, l, peer, e, payload);
    } else if Outdone(l, e) {
      OutdoneStays(env, s, l, peer, e, payload);
    } else {
      IsApproachable(env, s, l, peer, e);
      Placed(env, s, l, peer, e, payload);
      PullKeepsInv(env, s, peer, e, payload);
      NotItsOwnCopy(env, l, e);
      TookHolds(env, s, Pull(env, s, peer, e, payload).state, l, e, CopyLeft(env, l, e));
    }
  }
}
