/** What becomes of a host's entry that a mirror's conflict copy overruled: the mirror keeps the
    copy as an edit of that very entry, and the host, offered the edit, takes it as one. */
module OverruledEntries {
  import opened Records
  import opened Paths
  import opened NamespaceJournal
  import opened Trees
  import opened Replicas
  import opened Merges
  import opened MergeSafety
  import opened MergeConditions
  import HostVersions
  import opened Deltas
  import opened Layouts
  import opened TreeApplication
  import opened DeltaApplication

  // ---------------------------------------------------------------- at the mirror

  lemma OwnSpot(s: Replica, l: Layout, p: Path, base: RevisionId)
    requires Holding(s, l) && p in l && l[p].base == Some(base) && l[p].content.kind == File
    ensures p in s.rows && s.rows[p].entry == Entry(l[p].content, VersionOf(l[p].content), Some(Pending(base)))
    ensures MergeSafety.Holds(s.tree, p, l[p].content.hash)
  {
    assert SpotAt(s, l, p);
    assert RowOk(s, p);
    NodeAt(s, l, p);
  }

  lemma CopiesAreFiles(env: Env, m: Namespace, delta: seq<Entry>, i: nat)
    requires i < |delta| && CopyOfEntry(env, m, delta, i).Some?
    ensures CopyOfEntry(env, m, delta, i).value.kind == File
  {
  }

  /** A pull that completes, and an entry of it that was overruled and whose path got no later
      copy. */
  ghost predicate EndsOverruled(env: Env, s: Replica, peer: string, after: nat, through: nat, delta: seq<Entry>,
                                payload: Entry -> Bytes, i: nat, k: nat)
  {
    && Synchronizes(env, s, peer, after, through, delta, payload)
    && PullAll(env, s, peer, delta, payload, |delta|).reply == Complete
    && i < k < |delta| && Overruled(env, NamespaceOf(s.log[..after]), delta, i, k)
    && (forall j | k < j < |delta| ::
          !CopiesTo(env, NamespaceOf(s.log[..after]), delta, j, delta[k].content.path))
  }

  /** The copy as a proposal against the entry it overruled. */
  function ProposalOf(copy: Content, e: Entry): Entry {
    Entry(copy, VersionOf(copy), Some(Pending(RevisionIn(e))))
  }

  /** What the mirror then has is not the entry but the copy, as a proposal against that entry. */
  lemma OverruledStays(env: Env, s: Replica, peer: string, after: nat, through: nat, delta: seq<Entry>,
                       payload: Entry -> Bytes, i: nat, k: nat)
    requires EndsOverruled(env, s, peer, after, through, delta, payload, i, k)
    ensures var end, copy := PullAll(env, s, peer, delta, payload, |delta|).state,
                             CopyOfEntry(env, NamespaceOf(s.log[..after]), delta, i);
            && copy.Some? && copy.value.path == delta[k].content.path && copy.value.kind == File
            && copy.value.path in end.rows && end.rows[copy.value.path].entry == ProposalOf(copy.value, delta[k])
            && MergeSafety.Holds(end.tree, copy.value.path, copy.value.hash)
  {
    var m, p := NamespaceOf(s.log[..after]), delta[k].content.path;
    TreeToTree(env, s, peer, after, through, delta, payload);
    SynchronizesPulls(env, s, peer, after, through, delta, payload);
    OverruledIsProposed(env, m, delta, i, k);
    CopiesAreFiles(env, m, delta, i);
    OwnSpot(PullAll(env, s, peer, delta, payload, |delta|).state, After(env, m, delta, |delta|), p,
            RevisionIn(delta[k]));
  }

  // ---------------------------------------------------------------- at the host

  /** An entry staged at an authority with room for it, and no folder or equal version there. */
  ghost predicate Offered(h: Replica, peer: string, e: Entry) {
    var p := e.content.path;
    && Inv(h) && !h.Mirror() && Whole(h, peer, e) && |h.log| < MAX_COUNTER && h.sequence < MAX_COUNTER
    && HostVersions.UpToDate(h, p) && Reachable(h.tree, p) && !LocalIs(LocalRow(h, p), Directory)
    && (p in h.rows ==> h.rows[p].entry.version != e.version)
    && ValidRecord(Versioned(e.content.(clock := ClockFor(h, e))), h.ledger.physical)
  }

  /** A file proposed against the path's confirmed revision. */
  ghost predicate Based(h: Replica, peer: string, e: Entry) {
    && Offered(h, peer, e) && e.IsPending() && e.content.kind == File
    && BaseIn(e) == ConfirmedId(h, e.content.path)
  }

  function BasedDecision(h: Replica, e: Entry): Decision {
    var local := LocalRow(h, e.content.path);
    var same := local.Some? && ContentEqual(e.content, local.value.entry.content);
    Decision(same, false, true, false, !same)
  }

  lemma BasedIsDecided(env: Env, h: Replica, peer: string, e: Entry)
    requires Based(h, peer, e)
    ensures Relate(h, e) == Ahead && Decide(env, h, e, Ahead) == BasedDecision(h, e)
    ensures Refresh(h, e.content.path, CauseOf(e)) == Some(h)
  {
    assert e.content.path in h.rows ==> RowOk(h, e.content.path);
    HostVersions.NoNewLook(h, e.content.path, CauseOf(e));
  }

  lemma AheadIsCarried(h: Replica, peer: string, e: Entry, d: Decision)
    requires !h.Mirror() && |ClockFor(h, e)| <= MAX_CLOCK && (d.bytesNeeded ==> Whole(h, peer, e))
    ensures RouteWith(h, peer, e, true, Ahead, d) == Carry(d)
  {
  }

  lemma BasedIsCarried(env: Env, h: Replica, peer: string, e: Entry)
    requires Based(h, peer, e)
    ensures Merge(env, h, peer, e, true) == Apply(env, h, peer, e, BasedDecision(h, e), CauseOf(e))
  {
    BasedIsDecided(env, h, peer, e);
    AheadIsCarried(h, peer, e, BasedDecision(h, e));
    MergeCarries(env, h, peer, e, BasedDecision(h, e));
  }

  lemma BasedIsMade(h: Replica, peer: string, e: Entry)
    requires Based(h, peer, e)
    ensures var made := Made(h, peer, e, BasedDecision(h, e), LocalRow(h, e.content.path));
            && made.Some? && OnlyTouches(h.tree, made.value.tree, {e.content.path})
            && MergeSafety.Holds(made.value.tree, e.content.path, e.content.hash)
            && made.value == h.(tree := made.value.tree, tick := made.value.tick, parts := made.value.parts,
                                recovery := made.value.recovery)
            && (made.value.tree == h.tree || made.value.recovery == Archived(h, e.content.path))
  {
    var local := LocalRow(h, e.content.path);
    FreshFile(h, e.content.path);
    if !BasedDecision(h, e).same { MaterializeKeeps(h, peer, e, local); }
  }

  lemma BasedIsSaved(h: Replica, made: Replica, peer: string, e: Entry, stamp: Stamp, cause: Proposal)
    requires Based(h, peer, e) && made.log == h.log && made.rows == h.rows && made.host == h.host
    requires made.sequence == h.sequence && made.ledger == h.ledger
    ensures Save(made, e.(content := e.content.(clock := ClockFor(h, e))), stamp, cause).Some?
  {
    SequencesCount(h.log, h.ledger);
    InvIsIndexed(h);
    SavedIff(made, e.(content := e.content.(clock := ClockFor(h, e))), stamp, cause);
  }

  /** The host takes such a proposal without a conflict copy: its own file, if it has one, goes to
      the archive, and nothing but that path changes. */
  lemma BasedIsTaken(env: Env, h: Replica, peer: string, e: Entry)
    requires Based(h, peer, e)
    ensures var end, p := Merge(env, h, peer, e, true), e.content.path;
            && end.reply == Complete && OnlyTouches(h.tree, end.state.tree, {p})
            && MergeSafety.Holds(end.state.tree, p, e.content.hash)
            && (end.state.tree == h.tree || end.state.recovery == Archived(h, p))
  {
    var cause := CauseOf(e);
    BasedIsCarried(env, h, peer, e);
    BasedIsMade(h, peer, e);
    var made := Made(h, peer, e, BasedDecision(h, e), LocalRow(h, e.content.path)).value;
    var winner := e.(content := e.content.(clock := ClockFor(h, e)));
    BasedIsSaved(h, made, peer, e, StampOf(made.tree, e.content.path), cause);
    SaveFields(made, winner, StampOf(made.tree, e.content.path), cause);
  }

  /** So the host's own change is undone: a mirror that only pulled proposes the overruled path's
      old contents, and a host where the path still is what the mirror was sent has them back. */
  lemma ChangeIsUndone(env: Env, s: Replica, peer: string, after: nat, through: nat, delta: seq<Entry>,
                       payload: Entry -> Bytes, i: nat, k: nat, h: Replica, sender: string) returns (copy: Content)
    requires EndsOverruled(env, s, peer, after, through, delta, payload, i, k)
    requires ConfirmedId(h, delta[k].content.path) == RevisionIn(delta[k])
    ensures CopyOfEntry(env, NamespaceOf(s.log[..after]), delta, i) == Some(copy)
    ensures copy.path in PullAll(env, s, peer, delta, payload, |delta|).state.rows
    ensures var e := PullAll(env, s, peer, delta, payload, |delta|).state.rows[copy.path].entry;
            e == ProposalOf(copy, delta[k]) && (Offered(h, sender, e) ==> TakesBack(env, h, sender, e, copy))
  {
    OverruledStays(env, s, peer, after, through, delta, payload, i, k);
    copy := CopyOfEntry(env, NamespaceOf(s.log[..after]), delta, i).value;
    if Offered(h, sender, ProposalOf(copy, delta[k])) {
      OfferedIsTaken(env, h, sender, copy, delta[k]);
    }
  }

  lemma ProposalIsBased(h: Replica, sender: string, copy: Content, e: Entry)
    requires Offered(h, sender, ProposalOf(copy, e)) && copy.kind == File && ConfirmedId(h, copy.path) == RevisionIn(e)
    ensures Based(h, sender, ProposalOf(copy, e))
  {
    assert ProposalOf(copy, e).content == copy && BaseIn(ProposalOf(copy, e)) == RevisionIn(e);
  }

  lemma OfferedIsTaken(env: Env, h: Replica, sender: string, copy: Content, e: Entry)
    requires Offered(h, sender, ProposalOf(copy, e)) && copy.kind == File && ConfirmedId(h, copy.path) == RevisionIn(e)
    ensures TakesBack(env, h, sender, ProposalOf(copy, e), copy)
  {
    ProposalIsBased(h, sender, copy, e);
    BasedIsTaken(env, h, sender, ProposalOf(copy, e));
  }

  ghost predicate TakesBack(env: Env, h: Replica, sender: string, e: Entry, copy: Content) {
    var end := Merge(env, h, sender, e, true);
    && end.reply == Complete && OnlyTouches(h.tree, end.state.tree, {copy.path})
    && MergeSafety.Holds(end.state.tree, copy.path, copy.hash)
  }
}
