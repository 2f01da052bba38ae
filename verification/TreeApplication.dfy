/** Applying a whole delta to a mirror's tree, in an order that keeps the structure: exactly when
    that succeeds, what the mirror then has, and exactly where it agrees with its host. */
module TreeApplication {
  import opened Records
  import opened Paths
  import opened NamespaceJournal
  import opened Trees
  import opened Replicas
  import opened Merges
  import opened HostVersions
  import MergeInvariant
  import opened Deltas
  import opened Layouts

  // ---------------------------------------------------------------- what the delta makes of a layout

  /** The namespace, with nothing of the mirror's own. */
  function Unedited(m: Namespace): Layout {
    map p | p in m :: Spot(m[p].content, None)
  }

  /** What the mirror has once the first `k` entries were pulled. */
  function After(env: Env, m: Namespace, delta: seq<Entry>, k: nat): Layout
    requires k <= |delta|
  {
    if k == 0 then Unedited(m) else Met(env, After(env, m, delta, k - 1), delta[k - 1])
  }

  /** The entries a pull cannot get past. */
  predicate Stopped(env: Env, physical: Path -> bool, m: Namespace, delta: seq<Entry>, k: nat)
    requires k < |delta|
  {
    Refused(env, physical, After(env, m, delta, k), delta[k])
  }

  ghost predicate NoneStopped(env: Env, physical: Path -> bool, m: Namespace, delta: seq<Entry>, k: nat)
    requires k <= |delta|
  {
    forall j | 0 <= j < k :: !Stopped(env, physical, m, delta, j)
  }

  /** The copy the `i`-th entry leaves behind. */
  function CopyOfEntry(env: Env, m: Namespace, delta: seq<Entry>, i: nat): Option<Content>
    requires i < |delta|
  {
    CopyLeft(env, After(env, m, delta, i), delta[i])
  }

  predicate CopiesTo(env: Env, m: Namespace, delta: seq<Entry>, i: nat, p: Path)
    requires i < |delta|
  {
    CopyOfEntry(env, m, delta, i).Some? && CopyOfEntry(env, m, delta, i).value.path == p
  }

  // ---------------------------------------------------------------- how it relates to the namespace

  /** Every folder around `p` is one around `q`. */
  ghost predicate Within(p: Path, q: Path) {
    forall f | Below(p, f) :: Below(q, f)
  }

  /** A path beside a folder the delta has put in place. */
  ghost predicate Sheltered(delta: seq<Entry>, k: nat, p: Path)
    requires k <= |delta|
  {
    exists i | 0 <= i < k :: delta[i].content.kind == Directory && Within(p, delta[i].content.path)
  }

  /** Halfway, a path has what the namespace has there, or a file of the mirror's own. */
  ghost predicate TracksAt(l: Layout, now: Namespace, delta: seq<Entry>, k: nat, p: Path)
    requires k <= |delta|
  {
    && (p in now ==> p in l)
    && (p in l && !l[p].Own() ==> p in now && l[p].content == now[p].content)
    && (p in l && l[p].Own() ==> l[p].content.kind == File && Sheltered(delta, k, p))
  }

  ghost predicate Tracks(l: Layout, now: Namespace, delta: seq<Entry>, k: nat)
    requires k <= |delta|
  {
    forall p :: TracksAt(l, now, delta, k, p)
  }

  lemma CopyIsWithin(p: Path, tag: Tag)
    ensures Within(ConflictPath(p, tag), p)
  {
    forall f | Below(ConflictPath(p, tag), f) ensures Below(p, f) { CopyBelow(p, tag, f); }
  }

  lemma WithinChain(p: Path, q: Path, r: Path)
    requires Within(p, q) && Within(q, r)
    ensures Within(p, r)
  {
  }

  lemma StillSheltered(delta: seq<Entry>, k: nat, p: Path)
    requires k < |delta| && Sheltered(delta, k, p)
    ensures Sheltered(delta, k + 1, p)
  {
  }

  lemma CopyIsSheltered(env: Env, l: Layout, now: Namespace, delta: seq<Entry>, k: nat)
    requires k < |delta| && Tracks(l, now, delta, k) && CopyLeft(env, l, delta[k]).Some?
    ensures var copy := CopyLeft(env, l, delta[k]).value;
            copy.kind == File && copy.clock == delta[k].content.clock && Sheltered(delta, k + 1, copy.path)
  {
    var p := delta[k].content.path;
    var copy := CopyLeft(env, l, delta[k]).value;
    CopyIsWithin(p, env.tag(VersionOf(l[p].content)));
    assert TracksAt(l, now, delta, k, p);
    if delta[k].content.kind == Directory {
      assert Within(copy.path, delta[k].content.path);
    } else {
      var i :| 0 <= i < k && delta[i].content.kind == Directory && Within(p, delta[i].content.path);
      WithinChain(copy.path, p, delta[i].content.path);
    }
  }

  lemma MetTracksAt(env: Env, l: Layout, now: Namespace, delta: seq<Entry>, k: nat, q: Path)
    requires k < |delta| && Tracks(l, now, delta, k)
    ensures TracksAt(Met(env, l, delta[k]), now[delta[k].content.path := delta[k]], delta, k + 1, q)
  {
    assert TracksAt(l, now, delta, k, q) && TracksAt(l, now, delta, k, delta[k].content.path);
    if Sheltered(delta, k, q) { StillSheltered(delta, k, q); }
    if CopyLeft(env, l, delta[k]).Some? { CopyIsSheltered(env, l, now, delta, k); }
  }

  lemma {:induction false} AfterTracks(env: Env, m: Namespace, delta: seq<Entry>, k: nat)
    requires k <= |delta|
    ensures Tracks(After(env, m, delta, k), Mixed(m, delta, k), delta, k)
  {
    if k > 0 {
      AfterTracks(env, m, delta, k - 1);
      forall q ensures TracksAt(After(env, m, delta, k), Mixed(m, delta, k), delta, k, q) {
        MetTracksAt(env, After(env, m, delta, k - 1), Mixed(m, delta, k - 1), delta, k - 1, q);
      }
    }
  }

  lemma FoldersAreOpen(env: Env, m: Namespace, delta: seq<Entry>, k: nat, a: Path)
    requires Leads(m, delta) && k < |delta| && delta[k].content.kind != Deleted
    requires a in Ancestors(delta[k].content.path) && !Hidden(After(env, m, delta, k), delta[k])
    ensures At(After(env, m, delta, k), a, Directory)
  {
    AfterTracks(env, m, delta, k);
    FoldersComeFirst(m, delta, k, a);
    assert TracksAt(After(env, m, delta, k), Mixed(m, delta, k), delta, k, a);
  }

  lemma NothingIsBelow(env: Env, m: Namespace, delta: seq<Entry>, k: nat, q: Path)
    requires Leads(m, delta) && k < |delta| && delta[k].content.kind != Directory && Below(q, delta[k].content.path)
    ensures !Lives(After(env, m, delta, k), q)
  {
    var l, now := After(env, m, delta, k), Mixed(m, delta, k);
    AfterTracks(env, m, delta, k);
    assert TracksAt(l, now, delta, k, q);
    NothingLivesBelow(m, delta, k, q);
    if q in l && l[q].Own() { ShelterLives(m, delta, k, q); }
  }

  lemma ShelterLives(m: Namespace, delta: seq<Entry>, k: nat, q: Path)
    requires Leads(m, delta) && k < |delta| && Sheltered(delta, k, q) && delta[k].content.kind != Directory
    ensures !Below(q, delta[k].content.path)
  {
    var i :| 0 <= i < k && delta[i].content.kind == Directory && Within(q, delta[i].content.path);
    if Below(q, delta[k].content.path) {
      MixedNamed(m, delta, |delta|, i);
      NothingLivesBelow(m, delta, k, delta[i].content.path);
    }
  }

  /** The structure of a delta that leads to a tree grants every entry what it needs. */
  lemma OpenInTurn(env: Env, m: Namespace, delta: seq<Entry>, k: nat)
    requires Leads(m, delta) && k < |delta|
    ensures Open(After(env, m, delta, k), delta[k])
  {
    var l, p := After(env, m, delta, k), delta[k].content.path;
    if delta[k].content.kind != Deleted && !Hidden(l, delta[k]) {
      forall a | a in Ancestors(p) ensures At(l, a, Directory) { FoldersAreOpen(env, m, delta, k, a); }
    }
    forall q | Below(q, p) && delta[k].content.kind != Directory ensures !Lives(l, q) {
      NothingIsBelow(env, m, delta, k, q);
    }
  }

  // ---------------------------------------------------------------- pulling the delta

  function PullAll(env: Env, s: Replica, peer: string, delta: seq<Entry>, payload: Entry -> Bytes, k: nat): Outcome
    requires k <= |delta|
  {
    if k == 0 then Outcome(s, Complete)
    else
      var before := PullAll(env, s, peer, delta, payload, k - 1);
      if before.reply != Complete then before
      else Pull(env, before.state, peer, delta[k - 1], payload(delta[k - 1]))
  }

  /** A mirror that holds `m`, without edits of its own, and is about to pull a delta of its
      host's journal. */
  ghost predicate AboutToPull(env: Env, s: Replica, m: Namespace, peer: string, delta: seq<Entry>,
                              payload: Entry -> Bytes) {
    && Holding(s, Unedited(m)) && Leads(m, delta)
    && s.sequence + 2 * |delta| <= MAX_COUNTER
    && (forall i | 0 <= i < |delta| :: FromHost(s, peer, delta[i]) && Sendable(s, peer, delta[i], payload(delta[i])))
  }

  /** Halfway: the mirror has what the first `k` entries make, and everything the remaining
      entries need is as it was. */
  ghost predicate Halfway(env: Env, s: Replica, now: Replica, m: Namespace, peer: string, delta: seq<Entry>, k: nat)
    requires k <= |delta|
  {
    && Holding(now, After(env, m, delta, k))
    && now.host == s.host && now.ledger == s.ledger && now.log == s.log && now.sequence <= s.sequence + 2 * k
    && (forall j | k <= j < |delta| :: SamePart(s, now, PartKey(peer, delta[j])))
  }

  predicate SamePart(s: Replica, now: Replica, key: (string, Version)) {
    (key in s.parts <==> key in now.parts) && (key in s.parts ==> now.parts[key] == s.parts[key])
  }

  lemma PullTouchesOnePart(env: Env, s: Replica, peer: string, e: Entry, payload: Bytes, key: (string, Version))
    requires Inv(s) && Shaped(e.content) && key != PartKey(peer, e)
    ensures SamePart(s, Pull(env, s, peer, e, payload).state, key)
  {
    MergeTouchesOnePart(env, s, peer, e, false);
    var begun := Merge(env, s, peer, e, false);
    if begun.reply.Needs? {
      var parts := begun.state.parts[PartKey(peer, e) := payload];
      MergeInvariant.MergeKeepsInv(env, s, peer, e, false);
      StagedKeepsInv(begun.state, parts);
      MergeTouchesOnePart(env, begun.state.(parts := parts), peer, e, true);
    }
  }

  lemma StillReady(s: Replica, now: Replica, peer: string, e: Entry, payload: Bytes)
    requires FromHost(s, peer, e) && Sendable(s, peer, e, payload)
    requires now.host == s.host && now.ledger == s.ledger && now.log == s.log && SamePart(s, now, PartKey(peer, e))
    ensures FromHost(now, peer, e) && Sendable(now, peer, e, payload)
  {
  }

  lemma DifferentParts(s: Replica, peer: string, delta: seq<Entry>, k: nat, j: nat)
    requires Once(delta) && k < j < |delta| && FromHost(s, peer, delta[k]) && FromHost(s, peer, delta[j])
    ensures PartKey(peer, delta[j]) != PartKey(peer, delta[k]) && Shaped(delta[k].content)
  {
  }

  lemma NextEntry(env: Env, s: Replica, now: Replica, m: Namespace, peer: string, delta: seq<Entry>,
                  payload: Entry -> Bytes, k: nat)
    requires AboutToPull(env, s, m, peer, delta, payload) && k < |delta| && Halfway(env, s, now, m, peer, delta, k)
    ensures var end := Pull(env, now, peer, delta[k], payload(delta[k]));
            if Stopped(env, s.ledger.physical, m, delta, k) then end.reply.Failed?
            else end.reply == Complete && Halfway(env, s, end.state, m, peer, delta, k + 1)
  {
    var e := delta[k];
    var end := Pull(env, now, peer, e, payload(e));
    StillReady(s, now, peer, e, payload(e));
    OpenInTurn(env, m, delta, k);
    PullMeets(env, now, After(env, m, delta, k), peer, e, payload(e));
    forall j | k + 1 <= j < |delta| ensures SamePart(s, end.state, PartKey(peer, delta[j])) {
      DifferentParts(s, peer, delta, k, j);
      PullTouchesOnePart(env, now, peer, e, payload(e), PartKey(peer, delta[j]));
    }
  }

  /** A pull that got through `k` entries exactly when none of them stops it. */
  ghost predicate Progressed(env: Env, s: Replica, end: Outcome, m: Namespace, peer: string, delta: seq<Entry>, k: nat)
    requires k <= |delta|
  {
    && (end.reply == Complete <==> NoneStopped(env, s.ledger.physical, m, delta, k))
    && (NoneStopped(env, s.ledger.physical, m, delta, k) ==> Halfway(env, s, end.state, m, peer, delta, k))
  }

  lemma OneMoreStopped(env: Env, physical: Path -> bool, m: Namespace, delta: seq<Entry>, k: nat)
    requires k < |delta|
    ensures NoneStopped(env, physical, m, delta, k + 1)
            <==> NoneStopped(env, physical, m, delta, k) && !Stopped(env, physical, m, delta, k)
  {
  }

  lemma PullStep(env: Env, s: Replica, before: Outcome, m: Namespace, peer: string, delta: seq<Entry>,
                 payload: Entry -> Bytes, k: nat)
    returns (end: Outcome)
    requires AboutToPull(env, s, m, peer, delta, payload) && k < |delta|
    requires Progressed(env, s, before, m, peer, delta, k)
    ensures end == if before.reply != Complete then before
            else Pull(env, before.state, peer, delta[k], payload(delta[k]))
    ensures Progressed(env, s, end, m, peer, delta, k + 1)
  {
    OneMoreStopped(env, s.ledger.physical, m, delta, k);
    end := before;
    if before.reply == Complete {
      end := Pull(env, before.state, peer, delta[k], payload(delta[k]));
      NextEntry(env, s, before.state, m, peer, delta, payload, k);
    }
  }

  lemma PullStart(env: Env, s: Replica, m: Namespace, peer: string, delta: seq<Entry>, payload: Entry -> Bytes)
    requires AboutToPull(env, s, m, peer, delta, payload)
    ensures Progressed(env, s, Outcome(s, Complete), m, peer, delta, 0)
  {
  }

  lemma PullUnfolds(env: Env, s: Replica, peer: string, delta: seq<Entry>, payload: Entry -> Bytes, k: nat,
                    before: Outcome)
    requires k < |delta| && before == PullAll(env, s, peer, delta, payload, k)
    ensures PullAll(env, s, peer, delta, payload, k + 1)
            == if before.reply != Complete then before
               else Pull(env, before.state, peer, delta[k], payload(delta[k]))
  {
  }

  lemma PullOneMore(env: Env, s: Replica, before: Outcome, m: Namespace, peer: string, delta: seq<Entry>,
                    payload: Entry -> Bytes, k: nat)
    returns (end: Outcome)
    requires AboutToPull(env, s, m, peer, delta, payload) && k < |delta|
    requires before == PullAll(env, s, peer, delta, payload, k) && Progressed(env, s, before, m, peer, delta, k)
    ensures end == PullAll(env, s, peer, delta, payload, k + 1) && Progressed(env, s, end, m, peer, delta, k + 1)
  {
    end := PullStep(env, s, before, m, peer, delta, payload, k);
    PullUnfolds(env, s, peer, delta, payload, k, before);
  }

  lemma {:induction false} PullProgress(env: Env, s: Replica, m: Namespace, peer: string, delta: seq<Entry>,
                                        payload: Entry -> Bytes, k: nat)
    returns (end: Outcome)
    requires AboutToPull(env, s, m, peer, delta, payload) && k <= |delta|
    ensures end == PullAll(env, s, peer, delta, payload, k) && Progressed(env, s, end, m, peer, delta, k)
  {
    if k == 0 {
      end := Outcome(s, Complete);
      PullStart(env, s, m, peer, delta, payload);
    } else {
      var before := PullProgress(env, s, m, peer, delta, payload, k - 1);
      end := PullOneMore(env, s, before, m, peer, delta, payload, k - 1);
    }
  }

  /** A full mirror without edits of its own that holds the namespace `m` pulls any arranged delta
      leading to a tree exactly when no entry of it is refused by what the mirror has at that
      moment, and the mirror then has exactly what the delta makes of `m`. */
  lemma DeltaIsAppliedIff(env: Env, s: Replica, m: Namespace, peer: string, delta: seq<Entry>, payload: Entry -> Bytes)
    requires AboutToPull(env, s, m, peer, delta, payload)
    ensures var end := PullAll(env, s, peer, delta, payload, |delta|);
            && (end.reply == Complete <==> NoneStopped(env, s.ledger.physical, m, delta, |delta|))
            && (end.reply == Complete ==> Holding(end.state, After(env, m, delta, |delta|)))
  {
    var end := PullProgress(env, s, m, peer, delta, payload, |delta|);
  }

  // ---------------------------------------------------------------- where the mirror agrees

  /** The mirror has what the namespace has, as confirmed by the host. */
  predicate Agrees(l: Layout, n: Namespace, p: Path) {
    (p in l <==> p in n) && (p in n ==> !l[p].Own() && l[p].content == n[p].content)
  }

  predicate Owned(l: Layout, p: Path) {
    p in l && l[p].Own()
  }

  /** A mirror disagrees where it has a file of its own, and nowhere else. */
  lemma AgreesUnlessOwned(env: Env, m: Namespace, delta: seq<Entry>, p: Path)
    ensures Agrees(After(env, m, delta, |delta|), Through(m, delta), p) <==> !Owned(After(env, m, delta, |delta|), p)
  {
    AfterTracks(env, m, delta, |delta|);
    assert TracksAt(After(env, m, delta, |delta|), Through(m, delta), delta, |delta|, p);
  }

  lemma OwnedNext(env: Env, m: Namespace, delta: seq<Entry>, i: nat, p: Path)
    requires i < |delta| && delta[i].content.path != p
    ensures Owned(After(env, m, delta, i + 1), p) <==>
              Owned(After(env, m, delta, i), p) || CopiesTo(env, m, delta, i, p)
    ensures CopiesTo(env, m, delta, i, p) ==>
              && Owned(After(env, m, delta, i + 1), p)
              && After(env, m, delta, i + 1)[p].content == CopyOfEntry(env, m, delta, i).value
              && After(env, m, delta, i + 1)[p].content.clock == delta[i].content.clock
    ensures !CopiesTo(env, m, delta, i, p) && p in After(env, m, delta, i) ==>
              p in After(env, m, delta, i + 1) && After(env, m, delta, i + 1)[p] == After(env, m, delta, i)[p]
  {
  }

  ghost predicate CopiedBetween(env: Env, m: Namespace, delta: seq<Entry>, from: nat, till: nat, p: Path)
    requires till <= |delta|
  {
    exists i | from <= i < till :: CopiesTo(env, m, delta, i, p)
  }

  lemma CopiedNext(env: Env, m: Namespace, delta: seq<Entry>, from: nat, till: nat, p: Path)
    requires from <= till < |delta|
    ensures CopiedBetween(env, m, delta, from, till + 1, p)
            <==> CopiedBetween(env, m, delta, from, till, p) || CopiesTo(env, m, delta, till, p)
  {
  }

  /** As long as no entry names `p`, it becomes the mirror's own with the first copy under it. */
  lemma {:induction false} OwnedLater(env: Env, m: Namespace, delta: seq<Entry>, from: nat, till: nat, p: Path)
    requires from <= till <= |delta| && forall i | from <= i < till :: delta[i].content.path != p
    ensures Owned(After(env, m, delta, till), p)
            <==> Owned(After(env, m, delta, from), p) || CopiedBetween(env, m, delta, from, till, p)
    decreases till
  {
    if from < till {
      OwnedLater(env, m, delta, from, till - 1, p);
      OwnedNext(env, m, delta, till - 1, p);
      CopiedNext(env, m, delta, from, till - 1, p);
    }
  }

  /** The last entry before `k` that left a copy at `p`. */
  ghost predicate LastCopy(env: Env, m: Namespace, delta: seq<Entry>, i: nat, k: nat, p: Path)
    requires i < k <= |delta|
  {
    CopiesTo(env, m, delta, i, p) && forall j | i < j < k :: !CopiesTo(env, m, delta, j, p)
  }

  lemma LastCopyStays(env: Env, m: Namespace, delta: seq<Entry>, i: nat, k: nat, p: Path)
    requires i < k < |delta| && LastCopy(env, m, delta, i, k, p) && !CopiesTo(env, m, delta, k, p)
    ensures LastCopy(env, m, delta, i, k + 1, p)
  {
  }

  lemma {:induction false} OwnedIsACopy(env: Env, m: Namespace, delta: seq<Entry>, k: nat, p: Path) returns (i: nat)
    requires k <= |delta| && Owned(After(env, m, delta, k), p) && forall j | 0 <= j < k :: delta[j].content.path != p
    ensures i < k && LastCopy(env, m, delta, i, k, p)
    ensures CopyOfEntry(env, m, delta, i) == Some(After(env, m, delta, k)[p].content)
    ensures After(env, m, delta, k)[p].content.clock == delta[i].content.clock
  {
    OwnedNext(env, m, delta, k - 1, p);
    if CopiesTo(env, m, delta, k - 1, p) {
      i := k - 1;
    } else {
      i := OwnedIsACopy(env, m, delta, k - 1, p);
      LastCopyStays(env, m, delta, i, k - 1, p);
    }
  }

  /** The `k`-th entry meets a copy the `i`-th one left under its path, and that one's clock is
      ahead of its own: the copy stays. */
  ghost predicate Overruled(env: Env, m: Namespace, delta: seq<Entry>, i: nat, k: nat)
    requires i < k < |delta|
  {
    && LastCopy(env, m, delta, i, k, delta[k].content.path)
    && Compare(delta[i].content.clock, delta[k].content.clock) == Greater
  }

  lemma OneLastCopy(env: Env, m: Namespace, delta: seq<Entry>, i: nat, j: nat, k: nat, p: Path)
    requires i < k <= |delta| && j < k && LastCopy(env, m, delta, i, k, p) && LastCopy(env, m, delta, j, k, p)
    ensures i == j
  {
  }

  lemma OutdoneIff(env: Env, m: Namespace, delta: seq<Entry>, k: nat)
    requires Once(delta) && k < |delta|
    ensures Outdone(After(env, m, delta, k), delta[k]) <==> exists i | 0 <= i < k :: Overruled(env, m, delta, i, k)
  {
    var l, p := After(env, m, delta, k), delta[k].content.path;
    OwnedLater(env, m, delta, 0, k, p);
    if Owned(l, p) {
      var i := OwnedIsACopy(env, m, delta, k, p);
      assert Outdone(l, delta[k]) <==> Overruled(env, m, delta, i, k);
      forall j | 0 <= j < k && Overruled(env, m, delta, j, k) ensures j == i {
        OneLastCopy(env, m, delta, i, j, k, p);
      }
    }
  }

  /** No copy newer than it met the `k`-th entry, and none took its place afterwards. */
  ghost predicate TakenOver(env: Env, m: Namespace, delta: seq<Entry>, k: nat)
    requires k < |delta|
  {
    && (forall i | 0 <= i < k :: !Overruled(env, m, delta, i, k))
    && (forall i | k < i < |delta| :: !CopiesTo(env, m, delta, i, delta[k].content.path))
  }

  lemma MetIsNotOwned(env: Env, l: Layout, e: Entry)
    ensures Owned(Met(env, l, e), e.content.path) <==> Outdone(l, e)
  {
  }

  /** At the path of an entry the mirror ends in agreement with its host exactly when no copy of
      the mirror's overruled the entry and none was put under its path later. */
  lemma NamedAgreesIff(env: Env, m: Namespace, delta: seq<Entry>, k: nat)
    requires Once(delta) && k < |delta|
    ensures Agrees(After(env, m, delta, |delta|), Through(m, delta), delta[k].content.path)
            <==> TakenOver(env, m, delta, k)
  {
    var p := delta[k].content.path;
    AgreesUnlessOwned(env, m, delta, p);
    OwnedLater(env, m, delta, k + 1, |delta|, p);
    MetIsNotOwned(env, After(env, m, delta, k), delta[k]);
    OutdoneIff(env, m, delta, k);
  }

  /** At any other path it does exactly when no copy was put there. */
  lemma UnnamedAgreesIff(env: Env, m: Namespace, delta: seq<Entry>, p: Path)
    requires forall i | 0 <= i < |delta| :: delta[i].content.path != p
    ensures Agrees(After(env, m, delta, |delta|), Through(m, delta), p)
            <==> forall i | 0 <= i < |delta| :: !CopiesTo(env, m, delta, i, p)
  {
    AgreesUnlessOwned(env, m, delta, p);
    OwnedLater(env, m, delta, 0, |delta|, p);
  }

  /** What the mirror has of its own somebody left as a copy. */
  lemma {:induction false} OwnedWasLeft(env: Env, m: Namespace, delta: seq<Entry>, k: nat, p: Path) returns (i: nat)
    requires k <= |delta| && Owned(After(env, m, delta, k), p)
    ensures i < k && CopiesTo(env, m, delta, i, p)
  {
    if CopiesTo(env, m, delta, k - 1, p) {
      i := k - 1;
    } else {
      i := OwnedWasLeft(env, m, delta, k - 1, p);
    }
  }

  lemma {:induction false} StaysAsItWas(env: Env, m: Namespace, delta: seq<Entry>, from: nat, till: nat, p: Path)
    requires from <= till <= |delta| && p in After(env, m, delta, from)
    requires forall i | from <= i < till :: delta[i].content.path != p && !CopiesTo(env, m, delta, i, p)
    ensures p in After(env, m, delta, till) && After(env, m, delta, till)[p] == After(env, m, delta, from)[p]
    decreases till
  {
    if from < till {
      StaysAsItWas(env, m, delta, from, till - 1, p);
      OwnedNext(env, m, delta, till - 1, p);
    }
  }

  lemma OutdoneMeets(env: Env, l: Layout, e: Entry)
    requires Outdone(l, e)
    ensures var p, after := e.content.path, Met(env, l, e);
            p in after && after[p] == Spot(l[p].content, Some(RevisionIn(e)))
  {
  }

  lemma OverruledCopy(env: Env, m: Namespace, delta: seq<Entry>, i: nat, k: nat)
    requires Once(delta) && i < k < |delta| && Overruled(env, m, delta, i, k)
    ensures var l, p := After(env, m, delta, k), delta[k].content.path;
            Outdone(l, delta[k]) && CopyOfEntry(env, m, delta, i) == Some(l[p].content)
  {
    OutdoneIff(env, m, delta, k);
    var j := OwnedIsACopy(env, m, delta, k, delta[k].content.path);
    OneLastCopy(env, m, delta, i, j, k, delta[k].content.path);
  }

  lemma OverruledNext(env: Env, m: Namespace, delta: seq<Entry>, k: nat)
    requires k < |delta| && Outdone(After(env, m, delta, k), delta[k])
    ensures var l, p, after := After(env, m, delta, k), delta[k].content.path, After(env, m, delta, k + 1);
            p in after && after[p] == Spot(l[p].content, Some(RevisionIn(delta[k])))
  {
    OutdoneMeets(env, After(env, m, delta, k), delta[k]);
  }

  /** An overruled entry leaves the mirror with its copy, the contents of a file the host replaced,
      proposed as an edit of the very revision it overruled. */
  lemma OverruledIsProposed(env: Env, m: Namespace, delta: seq<Entry>, i: nat, k: nat)
    requires Once(delta) && i < k < |delta| && Overruled(env, m, delta, i, k)
    requires forall j | k < j < |delta| :: !CopiesTo(env, m, delta, j, delta[k].content.path)
    ensures var l, p := After(env, m, delta, |delta|), delta[k].content.path;
            && p in l && CopyOfEntry(env, m, delta, i).Some?
            && l[p] == Spot(CopyOfEntry(env, m, delta, i).value, Some(RevisionIn(delta[k])))
  {
    OverruledCopy(env, m, delta, i, k);
    OverruledNext(env, m, delta, k);
    StaysAsItWas(env, m, delta, k + 1, |delta|, delta[k].content.path);
  }
}
