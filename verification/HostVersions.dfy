/** How a mirror takes the host's version of a path, unless its own edit there is newer. */
module HostVersions {
  import opened Records
  import opened Paths
  import opened NamespaceJournal
  import opened Trees
  import opened Replicas
  import opened Merges
  import opened MergeSafety
  import opened MergeInvariant

  /** An entry of the host's journal, valid and imported. */
  ghost predicate FromHost(s: Replica, peer: string, e: Entry) {
    && s.host == Some(peer) && Contains(s, e) && e.IsConfirmed()
    && e.version == VersionOf(e.content) && ValidContent(e.content)
  }

  /** The row of `p`, if any, says what the tree holds, under the tree's own stamp. */
  predicate UpToDate(s: Replica, p: Path) {
    if p in s.rows then s.rows[p].stamp == StampOf(s.tree, p) && Describes(s.rows[p].entry.content, s.tree, p)
    else p !in s.tree
  }

  predicate Settled(s: Replica, p: Path) {
    UpToDate(s, p) && (p in s.rows ==> s.rows[p].entry.IsConfirmed())
  }

  predicate FoldersThere(t: Tree, p: Path) {
    forall a | a in Ancestors(p) :: a in t && t[a].Folder?
  }

  /** The host's version displaces a local file: with a folder, or one that was not confirmed. */
  predicate Displaces(s: Replica, e: Entry) {
    var local := LocalRow(s, e.content.path);
    && LocalIs(local, File) && !ContentEqual(e.content, local.value.entry.content)
    && (e.content.kind == Directory || !local.value.entry.IsConfirmed())
  }

  function CopyPath(env: Env, s: Replica, e: Entry): Path {
    if e.content.path in s.rows then ConflictPath(e.content.path, env.tag(s.rows[e.content.path].entry.version))
    else e.content.path
  }

  /** What the displaced file is kept as. */
  function CopyContent(env: Env, s: Replica, e: Entry): Content
    requires e.content.path in s.rows
  {
    s.rows[e.content.path].entry.content.(path := CopyPath(env, s, e), clock := e.content.clock)
  }

  function CopyPlaced(env: Env, s: Replica, e: Entry): Option<Content> {
    if Displaces(s, e) then Some(CopyContent(env, s, e)) else None
  }

  function Places(copy: Option<Content>): set<Path> {
    if copy.Some? then {copy.value.path} else {}
  }

  /** A conflict copy lies under its name, as a proposal of this mirror. */
  predicate CopyStands(s: Replica, c: Content) {
    c.path in s.rows && s.rows[c.path].entry.content == c
      && s.rows[c.path].entry.standing == Some(Pending(NoRevision)) && UpToDate(s, c.path)
  }

  /** The circumstances under which the host's version can be put in place, if need be beside
      a conflict copy. */
  ghost predicate Placeable(env: Env, s: Replica, peer: string, e: Entry) {
    && Approachable(s, peer, e)
    && (Displaces(s, e) ==> NameServes(s, CopyPath(env, s, e), s.rows[e.content.path].entry.content.hash))
  }

  ghost predicate Approachable(s: Replica, peer: string, e: Entry) {
    var p := e.content.path;
    && Inv(s) && FromHost(s, peer, e) && UpToDate(s, p) && !NewerEdit(s, e) && s.sequence + 2 <= MAX_COUNTER
    && Reachable(s.tree, p)
    && (e.content.kind != Deleted ==> FoldersThere(s.tree, p))
    && (e.content.kind != Directory ==> !HasChildren(s.tree, p))
  }

  /** The mirror after it took the host's version: that path says exactly what the host
      said, the tree holds it, and nothing else changed but perhaps a conflict copy. */
  ghost predicate Took(s: Replica, s': Replica, e: Entry, copy: Option<Content>) {
    var p, copies := e.content.path, Places(copy);
    && s'.host == s.host && s'.ledger == s.ledger && s'.log == s.log && s'.sequence <= s.sequence + 2
    && (forall q :: q in s'.rows <==> q in s.rows || q == p || q in copies)
    && (forall q | q in s.rows && q != p && q !in copies :: s'.rows[q] == s.rows[q])
    && s'.rows[p].entry.content == e.content && Settled(s', p)
    && (forall q | q != p && q !in copies :: SameAt(s.tree, s'.tree, q))
    && (copy.Some? ==> CopyStands(s', copy.value))
  }

  // ---------------------------------------------------------------- the decision

  function HostDecision(s: Replica, e: Entry): Decision {
    var local := LocalRow(s, e.content.path);
    var same := local.Some? && ContentEqual(e.content, local.value.entry.content);
    Decision(same, false, true, Displaces(s, e), e.content.kind == File && !same)
  }

  lemma HostDecides(env: Env, s: Replica, peer: string, e: Entry)
    requires Approachable(s, peer, e)
    ensures Relate(s, e) in {Same, Ahead} && Decide(env, s, e, Ahead) == HostDecision(s, e)
    ensures Relate(s, e) == Same ==> e.content.path in s.rows && s.rows[e.content.path].entry.content == e.content
  {
    assert e.content.path in s.rows ==> RowOk(s, e.content.path);
  }

  lemma HostRouteWith(s: Replica, peer: string, e: Entry, commit: bool, relation: Relation, d: Decision)
    requires Approachable(s, peer, e) && relation in {Same, Ahead}
    requires relation == Same ==> e.content.path in s.rows && s.rows[e.content.path].entry.content == e.content
    requires !d.retain && (d.bytesNeeded ==> commit && Whole(s, peer, e))
    ensures RouteWith(s, peer, e, commit, relation, d)
            == if relation == Same then Settle(LocalRow(s, e.content.path)) else Carry(d)
  {
  }

  /** Bytes are asked for when the host's file is not there already. */
  lemma HostAsks(env: Env, s: Replica, peer: string, e: Entry, d: Decision)
    requires Placeable(env, s, peer, e) && d.bytesNeeded && !d.retain
    ensures RouteWith(s, peer, e, false, Ahead, d) == Ask
  {
  }

  // ---------------------------------------------------------------- the three stages

  lemma FolderOfCopy(p: Path, tag: Tag)
    ensures Ancestors(ConflictPath(p, tag)) == Ancestors(p)
  {
    var q := ConflictPath(p, tag);
    ConflictPathShape(p, tag);
    var cut := LastSlash(p) + 1;
    assert q[..cut] == p[..cut];
    forall i | 0 <= i <= LastSlash(p) ensures q[..i] == p[..i] && q[i] == p[i] {
      assert q[..i] == q[..cut][..i];
      assert q[i] == q[..cut][i];
    }
  }

  lemma InstallBeside(t: Tree, q: Path, bytes: Bytes, stamp: nat)
    requires FoldersThere(t, q) && !(q in t && t[q].Folder?)
    ensures Install(t, q, bytes, stamp) == Some(t[q := Doc(bytes, stamp)])
  {
    assert AddFolders(t, Ancestors(q), stamp) == t;
  }

  lemma MakeFolderHere(t: Tree, q: Path, stamp: nat)
    requires FoldersThere(t, q) && !IsDoc(t, q)
    ensures MakeFolder(t, q, stamp) == Some(if q in t then t else t[q := Folder(stamp)])
  {
    assert AddFolders(t, Ancestors(q) + {q}, stamp) == if q in t then t else t[q := Folder(stamp)];
  }

  /** Saving on a mirror with room in its sequence. */
  lemma MirrorSaves(s: Replica, e: Entry, stamp: Stamp, cause: Proposal)
    requires s.Mirror() && s.sequence < MAX_COUNTER
    requires e.content.path in s.rows ==> s.rows[e.content.path].sequence <= s.sequence
    ensures Save(s, e, stamp, cause).Some?
    ensures var s' := Save(s, e, stamp, cause).value;
            && s' == s.(sequence := s'.sequence, rows := s'.rows) && s.sequence <= s'.sequence <= s.sequence + 1
            && e.content.path in s'.rows && s'.rows == s.rows[e.content.path := s'.rows[e.content.path]]
            && s'.rows[e.content.path].stamp == stamp && s'.rows[e.content.path].entry.content == e.content
            && s'.rows[e.content.path].sequence <= s'.sequence
            && (e.IsConfirmed() ==> s'.rows[e.content.path].entry.IsConfirmed())
            && (e.IsPending() ==> s'.rows[e.content.path].entry.standing == e.standing)
  {
  }

  ghost predicate CopyKept(s: Replica, kept: Replica, copies: set<Path>) {
    && kept == s.(sequence := kept.sequence, rows := kept.rows, tree := kept.tree, tick := kept.tick)
    && s.sequence <= kept.sequence <= s.sequence + 1
    && (forall q :: q in kept.rows <==> q in s.rows || q in copies)
    && (forall q | q in s.rows && q !in copies :: kept.rows[q] == s.rows[q])
    && (forall q | q !in copies :: SameAt(s.tree, kept.tree, q))
    && (forall q | q in copies :: IsDoc(kept.tree, q))
  }

  /** The replica once the replaced file's bytes lie under the conflict name. */
  function Beside(s: Replica, p: Path, target: Path): Replica
    requires IsDoc(s.tree, p)
  {
    if target in s.tree then s else Grown(s, s.tree[target := Doc(s.tree[p].bytes, s.tick)])
  }

  lemma FoldersOfCopy(t: Tree, p: Path, tag: Tag)
    requires TreeOk(t) && p in t
    ensures FoldersThere(t, ConflictPath(p, tag)) && Reachable(t, ConflictPath(p, tag))
  {
    FolderOfCopy(p, tag);
  }

  lemma CopyHasRoom(env: Env, s: Replica, peer: string, e: Entry)
    requires Placeable(env, s, peer, e) && Displaces(s, e)
    ensures var p, target := e.content.path, CopyPath(env, s, e);
            && IsDoc(s.tree, p) && target != p && (target in s.tree ==> IsDoc(s.tree, target))
            && FoldersThere(s.tree, target) && Reachable(s.tree, target)
  {
    var p := e.content.path;
    FreshFile(s, p);
    FoldersOfCopy(s.tree, p, env.tag(s.rows[p].entry.version));
    ConflictPathDiffers(p, env.tag(s.rows[p].entry.version));
  }

  lemma CopyIsPlaced(s: Replica, peer: string, e: Entry, loser: Entry, target: Path)
    requires IsDoc(s.tree, e.content.path) && NameServes(s, target, loser.content.hash)
    requires FoldersThere(s.tree, target) && Reachable(s.tree, target)
    ensures PlaceCopy(s, peer, e, loser, true, target) == Some(Beside(s, e.content.path, target))
  {
    if target !in s.tree { InstallBeside(s.tree, target, s.tree[e.content.path].bytes, s.tick); }
  }

  /** Keeping the displaced file is having its bytes beside it and saving that. */
  lemma LoserCopied(env: Env, s: Replica, peer: string, e: Entry, cause: Proposal)
    requires Placeable(env, s, peer, e) && Displaces(s, e)
    ensures var p, target, loser := e.content.path, CopyPath(env, s, e), EntryOf(s.rows[e.content.path]);
            && IsDoc(s.tree, p) && target != p && (target in s.tree ==> IsDoc(s.tree, target))
            && KeepLoser(env, s, peer, e, loser, true, e.content.clock, cause)
               == Save(Beside(s, p, target), CopyOf(env, p, loser, e.content.clock),
                       StampOf(Beside(s, p, target).tree, target), cause)
  {
    CopyHasRoom(env, s, peer, e);
    CopyIsPlaced(s, peer, e, EntryOf(s.rows[e.content.path]), CopyPath(env, s, e));
  }

  lemma CopySaved(s: Replica, p: Path, copy: Entry, cause: Proposal)
    requires s.Mirror() && s.sequence < MAX_COUNTER && IsDoc(s.tree, p)
    requires copy.standing == Some(Pending(NoRevision))
    requires copy.content.path in s.tree ==> IsDoc(s.tree, copy.content.path)
    requires copy.content.path in s.rows ==> s.rows[copy.content.path].sequence <= s.sequence
    requires Describes(copy.content, Beside(s, p, copy.content.path).tree, copy.content.path)
    ensures var beside := Beside(s, p, copy.content.path);
            var kept := Save(beside, copy, StampOf(beside.tree, copy.content.path), cause);
            kept.Some? && CopyKept(s, kept.value, {copy.content.path}) && CopyStands(kept.value, copy.content)
  {
    var beside := Beside(s, p, copy.content.path);
    MirrorSaves(beside, copy, StampOf(beside.tree, copy.content.path), cause);
  }

  lemma CopyDescribes(env: Env, s: Replica, peer: string, e: Entry)
    requires Placeable(env, s, peer, e) && Displaces(s, e) && IsDoc(s.tree, e.content.path)
    ensures Describes(CopyContent(env, s, e), Beside(s, e.content.path, CopyPath(env, s, e)).tree, CopyPath(env, s, e))
  {
  }

  lemma LoserInstalled(env: Env, s: Replica, peer: string, e: Entry, cause: Proposal)
    requires Placeable(env, s, peer, e) && Displaces(s, e)
    ensures var loser := EntryOf(s.rows[e.content.path]);
            var kept := KeepLoser(env, s, peer, e, loser, true, e.content.clock, cause);
            kept.Some? && CopyKept(s, kept.value, {CopyPath(env, s, e)})
              && CopyStands(kept.value, CopyContent(env, s, e))
  {
    var p, target, loser := e.content.path, CopyPath(env, s, e), EntryOf(s.rows[e.content.path]);
    LoserCopied(env, s, peer, e, cause);
    CopyDescribes(env, s, peer, e);
    if target in s.rows { assert RowOk(s, target); }
    CopySaved(s, p, CopyOf(env, p, loser, e.content.clock), cause);
  }

  lemma HostKept(env: Env, s: Replica, peer: string, e: Entry, cause: Proposal)
    requires Placeable(env, s, peer, e)
    ensures var kept := Kept(env, s, peer, e, HostDecision(s, e), cause);
            && kept.Some? && CopyKept(s, kept.value, Places(CopyPlaced(env, s, e)))
            && (Displaces(s, e) ==> CopyStands(kept.value, CopyContent(env, s, e)))
  {
    if Displaces(s, e) {
      LoserInstalled(env, s, peer, e, cause);
    }
  }

  ghost predicate OnlyChanges(s: Replica, made: Replica, p: Path) {
    && made == s.(tree := made.tree, tick := made.tick, parts := made.parts, recovery := made.recovery)
    && (forall q | q != p :: SameAt(s.tree, made.tree, q))
  }

  /** What a replica needs for the second stage to succeed. */
  ghost predicate Makeable(s: Replica, peer: string, e: Entry, local: Option<Row>) {
    var p := e.content.path;
    && Reachable(s.tree, p)
    && (e.content.kind != Deleted ==> FoldersThere(s.tree, p))
    && (e.content.kind != Directory ==> !HasChildren(s.tree, p))
    && (p in s.tree && s.tree[p].Folder? ==> LocalIs(local, Directory))
    && (IsDoc(s.tree, p) ==> LocalIs(local, File))
    && (p !in s.tree ==> !LocalIs(local, File) && !LocalIs(local, Directory))
    && (e.content.kind == File ==> PartKey(peer, e) in s.parts)
  }

  lemma FileMade(s: Replica, peer: string, e: Entry, local: Option<Row>)
    requires Makeable(s, peer, e, local) && e.content.kind == File
    ensures var made := Materialize(s, peer, e, local); made.Some? && OnlyChanges(s, made.value, e.content.path)
  {
    var p := e.content.path;
    NotItsOwnAncestor(p);
    InstallBeside(if LocalIs(local, Directory) then s.tree - {p} else s.tree, p, s.parts[PartKey(peer, e)], s.tick);
  }

  lemma FolderMade(s: Replica, peer: string, e: Entry, local: Option<Row>)
    requires Makeable(s, peer, e, local) && e.content.kind == Directory
    ensures var made := Materialize(s, peer, e, local); made.Some? && OnlyChanges(s, made.value, e.content.path)
  {
    var p := e.content.path;
    NotItsOwnAncestor(p);
    MakeFolderHere(if LocalIs(local, File) then s.tree - {p} else s.tree, p, s.tick);
  }

  lemma HostMade(s: Replica, peer: string, e: Entry, d: Decision, local: Option<Row>)
    requires d.incomingWins && (!d.same ==> Makeable(s, peer, e, local))
    ensures var made := Made(s, peer, e, d, local); made.Some? && OnlyChanges(s, made.value, e.content.path)
  {
    if !d.same {
      match e.content.kind
      case File => FileMade(s, peer, e, local);
      case Directory => FolderMade(s, peer, e, local);
      case Deleted =>
    }
  }

  lemma PlaceableIsMakeable(env: Env, s: Replica, peer: string, e: Entry)
    requires Placeable(env, s, peer, e) && (e.content.kind == File ==> PartKey(peer, e) in s.parts)
    ensures Makeable(s, peer, e, LocalRow(s, e.content.path))
  {
  }

  lemma SameEverywhere(t: Tree, t': Tree)
    requires forall q :: SameAt(t, t', q)
    ensures t == t'
  {
    forall q ensures (q in t <==> q in t') && (q in t ==> t'[q] == t[q]) { assert SameAt(t, t', q); }
  }

  lemma CopyLeavesRoom(env: Env, s: Replica, kept: Replica, peer: string, e: Entry)
    requires Placeable(env, s, peer, e) && CopyKept(s, kept, Places(CopyPlaced(env, s, e)))
    requires e.content.kind == File ==> PartKey(peer, e) in s.parts
    ensures Makeable(kept, peer, e, LocalRow(s, e.content.path))
  {
    PlaceableIsMakeable(env, s, peer, e);
    RoomAfterCopy(env, s, kept, peer, e);
  }

  lemma RoomAfterCopy(env: Env, s: Replica, kept: Replica, peer: string, e: Entry)
    requires Makeable(s, peer, e, LocalRow(s, e.content.path)) && CopyKept(s, kept, Places(CopyPlaced(env, s, e)))
    ensures Makeable(kept, peer, e, LocalRow(s, e.content.path))
  {
    if Displaces(s, e) {
      RoomBeside(env, s, kept, peer, e);
    } else {
      SameEverywhere(s.tree, kept.tree);
    }
  }

  lemma RoomBeside(env: Env, s: Replica, kept: Replica, peer: string, e: Entry)
    requires Makeable(s, peer, e, LocalRow(s, e.content.path)) && Displaces(s, e)
    requires kept.parts == s.parts && forall q | q != CopyPath(env, s, e) :: SameAt(s.tree, kept.tree, q)
    ensures Makeable(kept, peer, e, LocalRow(s, e.content.path))
  {
    var p := e.content.path;
    FolderOfCopy(p, env.tag(s.rows[p].entry.version));
    ConflictPathDiffers(p, env.tag(s.rows[p].entry.version));
    NotItsOwnAncestor(CopyPath(env, s, e));
    CopyIsNotBelow(p, env.tag(s.rows[p].entry.version));
    assert SameAt(s.tree, kept.tree, p);
    forall a | a in Ancestors(p) ensures SameAt(s.tree, kept.tree, a) { }
    forall q | q in kept.tree && Below(q, p) ensures q in s.tree { assert SameAt(s.tree, kept.tree, q); }
  }

  /** A copy lies inside a folder only with the entry it copies. */
  lemma CopyBelow(p: Path, tag: Tag, f: Path)
    requires Below(ConflictPath(p, tag), f)
    ensures Below(p, f)
  {
    var q := ConflictPath(p, tag);
    ConflictPathShape(p, tag);
    var cut := LastSlash(p) + 1;
    assert q[..cut] == p[..cut];
    assert |f| < cut;
    assert q[..cut][|f|] == q[|f|] && q[..cut][..|f|] == q[..|f|];
    assert p[..cut][|f|] == p[|f|] && p[..cut][..|f|] == p[..|f|];
  }

  lemma CopyIsNotBelow(p: Path, tag: Tag)
    ensures !Below(ConflictPath(p, tag), p)
  {
    if Below(ConflictPath(p, tag), p) { CopyBelow(p, tag, p); }
  }

  // ---------------------------------------------------------------- the whole step

  lemma SavedTook(env: Env, s: Replica, kept: Replica, made: Replica, e: Entry, cause: Proposal)
    requires s.Mirror() && s.sequence + 2 <= MAX_COUNTER && e.IsConfirmed()
    requires CopyKept(s, kept, Places(CopyPlaced(env, s, e))) && OnlyChanges(kept, made, e.content.path)
    requires e.content.path !in Places(CopyPlaced(env, s, e))
    requires Displaces(s, e) ==> CopyStands(kept, CopyContent(env, s, e))
    requires e.content.path in s.rows ==> s.rows[e.content.path].sequence <= s.sequence
    requires Describes(e.content, made.tree, e.content.path)
    ensures var end := SaveOrFail(made, e, StampOf(made.tree, e.content.path), cause);
            end.reply == Complete && Took(s, end.state, e, CopyPlaced(env, s, e))
  {
    MirrorSaves(made, e, StampOf(made.tree, e.content.path), cause);
    forall q | q != e.content.path && q !in Places(CopyPlaced(env, s, e)) ensures SameAt(s.tree, made.tree, q) {
      assert SameAt(kept.tree, made.tree, q) && SameAt(s.tree, kept.tree, q);
    }
    if Displaces(s, e) { assert SameAt(kept.tree, made.tree, CopyPath(env, s, e)); }
  }

  lemma ClockIsHosts(s: Replica, e: Entry)
    requires s.Mirror()
    ensures e.(content := e.content.(clock := ClockFor(s, e))) == e
  {
  }

  lemma PlacedIsReady(env: Env, s: Replica, peer: string, e: Entry)
    requires Placeable(env, s, peer, e) && (HostDecision(s, e).bytesNeeded ==> Whole(s, peer, e))
    ensures Ready(env, s, peer, e, Ahead, HostDecision(s, e)) && Shaped(e.content)
    ensures e.content.path in s.rows ==> RowOk(s, e.content.path)
    ensures e.content.path !in Places(CopyPlaced(env, s, e))
    ensures HostDecision(s, e).same ==> Describes(e.content, s.tree, e.content.path)
  {
    HostDecides(env, s, peer, e);
    if Displaces(s, e) {
      ConflictPathDiffers(e.content.path, env.tag(s.rows[e.content.path].entry.version));
    }
  }

  lemma ApplyUnfolded(env: Env, s: Replica, peer: string, e: Entry, d: Decision, cause: Proposal, kept: Replica,
                      made: Replica)
    requires s.Mirror() && d.incomingWins
    requires Kept(env, s, peer, e, d, cause) == Some(kept)
    requires Made(kept, peer, e, d, LocalRow(s, e.content.path)) == Some(made)
    ensures Apply(env, s, peer, e, d, cause) == SaveOrFail(made, e, StampOf(made.tree, e.content.path), cause)
  {
    ClockIsHosts(s, e);
  }

  lemma ApplyTakes(env: Env, s: Replica, peer: string, e: Entry, cause: Proposal)
    requires Placeable(env, s, peer, e) && (HostDecision(s, e).bytesNeeded ==> Whole(s, peer, e))
    ensures var end := Apply(env, s, peer, e, HostDecision(s, e), cause);
            end.reply == Complete && Took(s, end.state, e, CopyPlaced(env, s, e))
  {
    var d, local := HostDecision(s, e), LocalRow(s, e.content.path);
    PlacedIsReady(env, s, peer, e);
    HostKept(env, s, peer, e, cause);
    var kept := Kept(env, s, peer, e, d, cause).value;
    KeptKeepsInv(env, s, peer, e, Ahead, d, cause);
    if !d.same { CopyLeavesRoom(env, s, kept, peer, e); }
    HostMade(kept, peer, e, d, local);
    var made := Made(kept, peer, e, d, local).value;
    if d.same { SameDescribes(e.content, s.tree, kept.tree, e.content.path); }
    MadeHoldsIncoming(kept, peer, e, d, local);
    ApplyUnfolded(env, s, peer, e, d, cause, kept, made);
    SavedTook(env, s, kept, made, e, cause);
  }

  // ---------------------------------------------------------------- pulling one entry

  /** The staged parts of all other transfers are as they were. */
  ghost predicate OtherParts(s: Replica, s': Replica, key: (string, Version)) {
    forall k | k != key :: (k in s.parts <==> k in s'.parts) && (k in s.parts ==> s'.parts[k] == s.parts[k])
  }

  lemma KeepLoserParts(env: Env, s: Replica, peer: string, incoming: Entry, loser: Entry, wins: bool, clock: Clock,
                       cause: Proposal)
    requires KeepLoser(env, s, peer, incoming, loser, wins, clock, cause).Some?
    ensures OtherParts(s, KeepLoser(env, s, peer, incoming, loser, wins, clock, cause).value, PartKey(peer, incoming))
  {
    var copy := CopyOf(env, incoming.content.path, loser, clock);
    var placed := PlaceCopy(s, peer, incoming, loser, wins, copy.content.path).value;
    SaveFields(placed, copy, StampOf(placed.tree, copy.content.path), cause);
  }

  lemma MaterializeParts(s: Replica, peer: string, incoming: Entry, local: Option<Row>)
    requires Materialize(s, peer, incoming, local).Some?
    ensures OtherParts(s, Materialize(s, peer, incoming, local).value, PartKey(peer, incoming))
  {
  }

  lemma ApplyParts(env: Env, s: Replica, peer: string, incoming: Entry, d: Decision, cause: Proposal)
    ensures OtherParts(s, Apply(env, s, peer, incoming, d, cause).state, PartKey(peer, incoming))
  {
    var kept, made, end := ApplyStages(env, s, peer, incoming, d, cause);
    if kept.Some? {
      if d.conflict {
        KeepLoserParts(env, s, peer, incoming, LoserOf(s, incoming, d), d.incomingWins, ClockFor(s, incoming), cause);
      }
      if made.Some? && d.incomingWins && !d.same {
        MaterializeParts(kept.value, peer, incoming, LocalRow(s, incoming.content.path));
      }
    }
  }

  lemma FollowParts(env: Env, s: Replica, peer: string, incoming: Entry, route: Route, cause: Proposal)
    ensures OtherParts(s, Follow(env, s, peer, incoming, route, cause).state, PartKey(peer, incoming))
  {
    if route.Carry? { ApplyParts(env, s, peer, incoming, route.decision, cause); }
  }

  /** No merge touches another transfer's staged part. */
  lemma MergeTouchesOnePart(env: Env, s: Replica, peer: string, incoming: Entry, commit: bool)
    requires Inv(s)
    ensures OtherParts(s, Merge(env, s, peer, incoming, commit).state, PartKey(peer, incoming))
  {
    var seen, end := MergeFromSeen(env, s, peer, incoming, commit);
    if Refresh(s, incoming.content.path, CauseOf(incoming)).Some? {
      FollowParts(env, seen, peer, incoming, RouteOf(env, seen, peer, incoming, commit), CauseOf(incoming));
    }
  }

  /** Begin; when bytes are asked for, stage them and commit. */
  function Pull(env: Env, s: Replica, peer: string, e: Entry, payload: Bytes): Outcome {
    var begun := Merge(env, s, peer, e, false);
    if begun.reply.Needs?
    then Merge(env, begun.state.(parts := begun.state.parts[PartKey(peer, e) := payload]), peer, e, true)
    else begun
  }

  /** The payload is the entry's file, and what was staged of it before is no longer. */
  predicate Sendable(s: Replica, peer: string, e: Entry, payload: Bytes) {
    && (e.content.kind == File ==> Sha256(payload) == e.content.hash && |payload| == e.content.size)
    && (PartKey(peer, e) in s.parts ==> |s.parts[PartKey(peer, e)]| <= e.content.size)
  }

  /** What is seen needs no new look. */
  lemma NoNewLook(s: Replica, p: Path, cause: Proposal)
    requires Inv(s) && UpToDate(s, p) && Reachable(s.tree, p)
    ensures Refresh(s, p, cause) == Some(s)
  {
  }

  lemma SameIsTaken(env: Env, s: Replica, peer: string, e: Entry, cause: Proposal)
    requires Placeable(env, s, peer, e) && e.content.path in s.rows && s.rows[e.content.path].entry.content == e.content
    ensures var end := Follow(env, s, peer, e, Settle(LocalRow(s, e.content.path)), cause);
            end.reply == Complete && Took(s, end.state, e, None)
  {
    assert RowOk(s, e.content.path);
    SameIsSaved(s, e, cause);
  }

  lemma SameIsSaved(s: Replica, e: Entry, cause: Proposal)
    requires s.Mirror() && s.sequence + 2 <= MAX_COUNTER && e.IsConfirmed() && UpToDate(s, e.content.path)
    requires e.content.path in s.rows && s.rows[e.content.path].sequence <= s.sequence
    requires s.rows[e.content.path].entry.content == e.content
    ensures var end := SaveOrFail(s, e, s.rows[e.content.path].stamp, cause);
            end.reply == Complete && Took(s, end.state, e, None)
  {
    MirrorSaves(s, e, s.rows[e.content.path].stamp, cause);
  }

  /** A committed merge of a placeable entry whose bytes, if needed, are staged. */
  lemma CommitTakes(env: Env, s: Replica, peer: string, e: Entry, commit: bool)
    requires Placeable(env, s, peer, e)
    requires Relate(s, e) == Ahead && HostDecision(s, e).bytesNeeded ==> commit && Whole(s, peer, e)
    ensures var end := Merge(env, s, peer, e, commit);
            end.reply == Complete && Took(s, end.state, e, CopyPlaced(env, s, e))
  {
    var cause := CauseOf(e);
    NoNewLook(s, e.content.path, cause);
    HostDecides(env, s, peer, e);
    if Relate(s, e) == Same {
      SameRoute(env, s, peer, e, commit);
      SameIsTaken(env, s, peer, e, cause);
    } else {
      HostRouteWith(s, peer, e, commit, Ahead, HostDecision(s, e));
      ApplyTakes(env, s, peer, e, cause);
    }
  }

  lemma SameRoute(env: Env, s: Replica, peer: string, e: Entry, commit: bool)
    requires Placeable(env, s, peer, e) && Relate(s, e) == Same
    ensures RouteOf(env, s, peer, e, commit) == Settle(LocalRow(s, e.content.path)) && CopyPlaced(env, s, e) == None
  {
    HostDecides(env, s, peer, e);
  }

  lemma AskedFor(env: Env, s: Replica, peer: string, e: Entry)
    requires Placeable(env, s, peer, e) && Relate(s, e) == Ahead && HostDecision(s, e).bytesNeeded
    requires PartKey(peer, e) in s.parts ==> |s.parts[PartKey(peer, e)]| <= e.content.size
    ensures var end := Merge(env, s, peer, e, false);
            end.reply.Needs? && end.state == s.(parts := end.state.parts)
  {
    NoNewLook(s, e.content.path, CauseOf(e));
    HostDecides(env, s, peer, e);
    HostAsks(env, s, peer, e, HostDecision(s, e));
  }

  lemma StagedIsPlaceable(env: Env, s: Replica, peer: string, e: Entry, parts: map<(string, Version), Bytes>)
    requires Placeable(env, s, peer, e)
    ensures var s' := s.(parts := parts);
            Placeable(env, s', peer, e) && Relate(s', e) == Relate(s, e)
              && CopyPlaced(env, s', e) == CopyPlaced(env, s, e)
            && HostDecision(s', e) == HostDecision(s, e)
  {
    StagedKeepsInv(s, parts);
  }

  lemma StagedKeepsInv(s: Replica, parts: map<(string, Version), Bytes>)
    requires Inv(s)
    ensures Inv(s.(parts := parts))
  {
    PartsKeepInv(s, parts, s.recovery);
    assert s.(parts := parts, recovery := s.recovery) == s.(parts := parts);
  }

  /** A mirror whose edit at the path, if any, is not newer takes the host's version: afterwards
      its row and its tree say exactly what the host said, and nothing else changed but a
      conflict copy of a file that became a folder or was not confirmed. */
  lemma MirrorTakesHostVersion(env: Env, s: Replica, peer: string, e: Entry, payload: Bytes)
    requires Placeable(env, s, peer, e) && Sendable(s, peer, e, payload)
    ensures var end := Pull(env, s, peer, e, payload);
            end.reply == Complete && Took(s, end.state, e, CopyPlaced(env, s, e))
  {
    HostDecides(env, s, peer, e);
    if Relate(s, e) == Ahead && HostDecision(s, e).bytesNeeded {
      AskedFor(env, s, peer, e);
      var begun := Merge(env, s, peer, e, false).state;
      var parts := begun.parts[PartKey(peer, e) := payload];
      StagedIsPlaceable(env, s, peer, e, parts);
      CommitTakes(env, s.(parts := parts), peer, e, true);
      TookFromStaged(s, s.(parts := parts), Merge(env, s.(parts := parts), peer, e, true).state, e,
                     CopyPlaced(env, s, e));
    } else {
      CommitTakes(env, s, peer, e, false);
    }
  }

  lemma TookFromStaged(s: Replica, staged: Replica, s': Replica, e: Entry, copy: Option<Content>)
    requires staged == s.(parts := staged.parts) && Took(staged, s', e, copy)
    ensures Took(s, s', e, copy)
  {
  }

  /** A newer edit of the mirror's own stays as it is; only its base moves. */
  lemma NewerEditStays(env: Env, s: Replica, peer: string, e: Entry, payload: Bytes)
    requires Inv(s) && FromHost(s, peer, e) && UpToDate(s, e.content.path) && Reachable(s.tree, e.content.path)
    requires NewerEdit(s, e)
    ensures var p := e.content.path; var row := s.rows[p];
            Pull(env, s, peer, e, payload)
            == Outcome(s.(rows := s.rows[p := row.(entry := Rebased(row.entry, e, row.entry.content.clock))]), Complete)
  {
    assert RowOk(s, e.content.path);
    NoNewLook(s, e.content.path, CauseOf(e));
    assert RouteOf(env, s, peer, e, false) == KeepEdit(s.rows[e.content.path]);
  }
}
