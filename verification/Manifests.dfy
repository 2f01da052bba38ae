/** Announced manifests on the host: paged plans, what of them has been applied, and the
    receipts a peer gets for a snapshot. */
module Manifests {
  import opened Records
  import opened NamespaceJournal

  const PAGE_LIMIT: nat := 128
  const TOTAL_LIMIT: nat := 250000
  const PEER_LIMIT: nat := 32

  /** An entry as announced; `plain` says that it has no keys beyond the allowed ones. */
  datatype Announced = Announced(record: Record, base: Option<RevisionId>, sequence: int, plain: bool)

  /** The digest of a list of entries. */
  datatype ManifestId = DigestOf(entries: seq<Announced>) | OtherId(text: string)

  datatype Snapshot = Snapshot(id: string, capturedAt: int, baseSequence: int, baseRevision: RevisionId)

  datatype Diff = Diff(added: nat, updated: nat, deleted: nat, equal: nat, conflicts: nat) {
    function Sum(): nat { added + updated + deleted + equal + conflicts }
  }

  const NO_DIFF: Diff := Diff(0, 0, 0, 0, 0)

  /** `hashed` is what went into the running digest; `session` tells one announcement from
      the next and exists in the model only. */
  datatype Manifest = Manifest(
    id: ManifestId, replica: string, snapshot: Option<Snapshot>, members: map<Path, Announced>, applied: set<Path>,
    diff: Diff, next: nat, total: nat, after: int, through: int, sequence: int, complete: bool,
    hashed: seq<Announced>, session: nat)

  datatype Receipt = Receipt(snapshot: Snapshot, manifest: ManifestId, replica: string, diff: Diff, after: int,
                             through: int, session: nat)

  /** `merged` records every merge of a peer's entry to completion, by session. */
  datatype Host = Host(mirror: bool, id: string, log: Log, physical: Path -> bool,
                       manifests: map<string, Manifest>, receipts: map<string, Receipt>,
                       sessions: nat, merged: set<(string, nat, Announced)>)

  datatype PageRequest = PageRequest(id: ManifestId, replica: string, offset: int, total: int, after: int, through: int,
                                     entries: seq<Announced>, snapshot: Option<Snapshot>, wellFormed: bool)

  datatype Reply =
    | Refused(error: string)
    | PageTaken(next: nat, complete: bool, diff: Option<Diff>)
    | Done(receipt: Receipt)
    | Merged(complete: bool)

  // ---------------------------------------------------------------- one page

  function Classified(d: Diff, log: Log, e: Announced): Diff {
    var current := LatestOf(log, e.record.content.path);
    var revision := if current.Some? then current.value.id else NoRevision;
    var base := if e.base.Some? then e.base.value else NoRevision;
    if current.Some? && ContentEqual(e.record.content, current.value.body.entry.content) then d.(equal := d.equal + 1)
    else if base != revision then d.(conflicts := d.conflicts + 1)
    else if e.record.content.kind == Deleted then d.(deleted := d.deleted + 1)
    else if current.None? || current.value.body.entry.content.kind == Deleted then d.(added := d.added + 1)
    else d.(updated := d.updated + 1)
  }

  predicate Acceptable(h: Host, m: Manifest, e: Announced) {
    && h.physical(e.record.content.path) && e.record.version == VersionOf(e.record.content)
    && ValidContent(e.record.content)
    && m.sequence < e.sequence <= m.through && e.sequence >= 0 && e.plain
    && (m.snapshot.Some? ==> e.base.Some? && e.record.content.path !in m.members)
  }

  function WithEntry(h: Host, m: Manifest, e: Announced): Manifest {
    var counted := m.snapshot.Some?;
    m.(hashed := m.hashed + [e], sequence := e.sequence,
       members := if counted then m.members[e.record.content.path := e] else m.members,
       diff := if counted then Classified(m.diff, h.log, e) else m.diff)
  }

  function TakeEntries(h: Host, m: Manifest, entries: seq<Announced>): Option<Manifest>
    decreases |entries|
  {
    if entries == [] then Some(m)
    else if !Acceptable(h, m, entries[0]) then None
    else TakeEntries(h, WithEntry(h, m, entries[0]), entries[1..])
  }

  predicate PageShape(h: Host, r: PageRequest) {
    && r.wellFormed && r.replica != h.id
    && 0 <= r.offset <= r.total <= TOTAL_LIMIT && 0 <= r.after <= r.through
    && |r.entries| <= PAGE_LIMIT && |r.entries| <= r.total - r.offset && (r.entries == [] ==> r.total == 0)
  }

  predicate BaseKnown(log: Log, snapshot: Option<Snapshot>) {
    snapshot.None? || snapshot.value.baseSequence == 0
    || exists r | r in log :: r.id == snapshot.value.baseRevision && r.body.sequence == snapshot.value.baseSequence
  }

  function Started(h: Host, r: PageRequest): Manifest
    requires r.total >= 0
  {
    Manifest(r.id, r.replica, r.snapshot, map[], {}, NO_DIFF, 0, r.total, r.after, r.through, r.after, false, [],
             h.sessions)
  }

  predicate Continues(m: Manifest, r: PageRequest) {
    && !m.complete && m.id == r.id && m.replica == r.replica && m.next == r.offset
    && m.total == r.total && m.after == r.after && m.through == r.through && m.snapshot == r.snapshot
  }

  /** The host after a page's first checks, which may open a new manifest. */
  function Opened(h: Host, peer: string, r: PageRequest): Host
    requires r.total >= 0
  {
    if r.offset == 0 then h.(manifests := h.manifests[peer := Started(h, r)], sessions := h.sessions + 1) else h
  }

  /** Counts the page; a full manifest must be what its identifier is the digest of. */
  function Counted(m: Manifest, n: nat): Option<Manifest> {
    var next := m.next + n;
    if next == m.total && m.id != DigestOf(m.hashed) then None else Some(m.(next := next, complete := next == m.total))
  }

  /** The page's entries, once it is known to continue a manifest. */
  function AddPage(h: Host, peer: string, r: PageRequest): (Host, Reply)
    requires peer in h.manifests
  {
    var dropped := h.(manifests := h.manifests - {peer});
    var taken := TakeEntries(h, h.manifests[peer], r.entries);
    if taken.None? then (dropped, Refused("invalid_manifest_entry"))
    else
      var end := Counted(taken.value, |r.entries|);
      if end.None? then (dropped, Refused("manifest_hash_mismatch"))
      else (h.(manifests := h.manifests[peer := end.value]),
            PageTaken(end.value.next, end.value.complete,
                      if end.value.complete && end.value.snapshot.Some? then Some(end.value.diff) else None))
  }

  function OnPage(h: Host, peer: string, r: PageRequest): (Host, Reply) {
    if r.snapshot.Some? && h.mirror then (h, Refused("invalid_snapshot"))
    else if !PageShape(h, r) then (h, Refused("invalid_manifest_page"))
    else if r.offset == 0 && !BaseKnown(h.log, r.snapshot) then (h, Refused("snapshot_base_unknown"))
    else if r.offset == 0 && peer !in h.manifests && |h.manifests| >= PEER_LIMIT then (h, Refused("manifest_capacity"))
    else
      var begun := Opened(h, peer, r);
      if peer !in begun.manifests || !Continues(begun.manifests[peer], r)
        then (begun, Refused("manifest_page_out_of_order"))
      else AddPage(begun, peer, r)
  }

  // ---------------------------------------------------------------- transfers and receipts

  /** A transfer request that names a manifest and a snapshot; `outcome` is how its merge
      ended when it was let through. */
  datatype Transfer = Transfer(manifest: Option<ManifestId>, snapshot: Option<string>, entry: Announced, ok: bool,
                               complete: bool)

  predicate Admitted(h: Host, peer: string, t: Transfer) {
    && (peer in h.manifests && h.manifests[peer].snapshot.Some? ==> t.manifest.Some?)
    && (t.manifest.Some? ==> peer in h.manifests && h.manifests[peer].complete
                             && h.manifests[peer].id == t.manifest.value)
    && (t.snapshot.Some? ==> t.manifest.Some? && h.manifests[peer].snapshot.Some?)
    && (t.manifest.Some? && h.manifests[peer].snapshot.Some? ==>
          t.snapshot == Some(h.manifests[peer].snapshot.value.id)
          && t.entry.record.content.path in h.manifests[peer].members
          && h.manifests[peer].members[t.entry.record.content.path] == t.entry)
  }

  function OnTransfer(h: Host, peer: string, t: Transfer): (Host, Reply) {
    if !Admitted(h, peer, t) then (h, Refused("snapshot_entry_mismatch"))
    else if !t.ok then (h, Refused("merge"))
    else if !t.complete || t.manifest.None? || h.manifests[peer].snapshot.None? then (h, Merged(t.complete))
    else
      var m := h.manifests[peer];
      (h.(manifests := h.manifests[peer := m.(applied := m.applied + {t.entry.record.content.path})],
          merged := h.merged + {(peer, m.session, t.entry)}), Merged(true))
  }

  function ReceiptFor(m: Manifest): Receipt
    requires m.snapshot.Some?
  {
    Receipt(m.snapshot.value, m.id, m.replica, m.diff, m.after, m.through, m.session)
  }

  predicate Ready(h: Host, peer: string, manifest: ManifestId, snapshot: string) {
    && peer in h.manifests && h.manifests[peer].complete && h.manifests[peer].snapshot.Some?
    && h.manifests[peer].id == manifest && h.manifests[peer].snapshot.value.id == snapshot
  }

  function OnComplete(h: Host, peer: string, manifest: ManifestId, snapshot: string): (Host, Reply) {
    var previous := if peer in h.receipts then Some(h.receipts[peer]) else None;
    if !Ready(h, peer, manifest, snapshot) then
      if previous.Some? && previous.value.manifest == manifest && previous.value.snapshot.id == snapshot
      then (h, Done(previous.value)) else (h, Refused("manifest_required_before_transfer"))
    else
      var m := h.manifests[peer];
      if |m.applied| != |m.members| then (h, Refused("snapshot_transfers_incomplete"))
      else if previous.Some? && previous.value.snapshot == m.snapshot.value && previous.value.manifest == m.id
      then (h, Done(previous.value))
      else (h.(receipts := h.receipts[peer := ReceiptFor(m)]), Done(ReceiptFor(m)))
  }

  // ---------------------------------------------------------------- what a manifest promises

  ghost predicate PathsOnce(entries: seq<Announced>) {
    forall i, j | 0 <= i < j < |entries| :: entries[i].record.content.path != entries[j].record.content.path
  }

  /** The members are the hashed entries, by path. */
  ghost predicate MembersAre(members: map<Path, Announced>, entries: seq<Announced>) {
    && PathsOnce(entries) && |members| == |entries|
    && (forall e | e in entries :: e.record.content.path in members && members[e.record.content.path] == e)
    && (forall p | p in members :: members[p] in entries && members[p].record.content.path == p)
  }

  ghost predicate ManifestOk(h: Host, peer: string, m: Manifest) {
    && m.session < h.sessions && m.next <= m.total
    && (m.complete ==> m.next == m.total && m.id == DigestOf(m.hashed))
    && |m.hashed| == m.next
    && (m.snapshot.Some? ==> MembersAre(m.members, m.hashed) && m.diff.Sum() == m.next)
    && (m.applied != {} ==> m.complete)
    && (forall p | p in m.applied :: p in m.members && (peer, m.session, m.members[p]) in h.merged)
  }

  /** A receipt names a list of entries, counts each once, and every one of them was
      merged to completion for this peer under this announcement. */
  ghost predicate Truthful(h: Host, peer: string, r: Receipt) {
    && r.manifest.DigestOf? && r.diff.Sum() == |r.manifest.entries| && PathsOnce(r.manifest.entries)
    && (forall e | e in r.manifest.entries :: (peer, r.session, e) in h.merged)
  }

  ghost predicate Inv(h: Host) {
    && (forall peer | peer in h.manifests :: ManifestOk(h, peer, h.manifests[peer]))
    && (forall peer | peer in h.receipts :: Truthful(h, peer, h.receipts[peer]))
  }

  /** Before the page's count is added: the entries taken so far. */
  ghost predicate Taking(m: Manifest, count: nat) {
    && |m.hashed| == count
    && (m.snapshot.Some? ==> MembersAre(m.members, m.hashed) && m.diff.Sum() == count)
  }

  lemma EntryTaken(h: Host, m: Manifest, e: Announced, count: nat)
    requires Taking(m, count) && Acceptable(h, m, e)
    ensures Taking(WithEntry(h, m, e), count + 1)
  {
    var m' := WithEntry(h, m, e);
    if m.snapshot.Some? {
      forall x | x in m'.hashed ensures x.record.content.path in m'.members && m'.members[x.record.content.path] == x {
        if x != e { assert x in m.hashed; }
      }
    }
  }

  /** The fields a page leaves alone. */
  predicate SameFrame(m: Manifest, m': Manifest) {
    && m'.id == m.id && m'.replica == m.replica && m'.snapshot == m.snapshot && m'.applied == m.applied
    && m'.next == m.next
    && m'.total == m.total && m'.after == m.after && m'.through == m.through && m'.complete == m.complete
    && m'.session == m.session
  }

  lemma {:induction false} EntriesTaken(h: Host, m: Manifest, entries: seq<Announced>, count: nat)
    requires Taking(m, count) && TakeEntries(h, m, entries).Some?
    ensures Taking(TakeEntries(h, m, entries).value, count + |entries|)
    decreases |entries|
  {
    if entries != [] {
      EntryTaken(h, m, entries[0], count);
      EntriesTaken(h, WithEntry(h, m, entries[0]), entries[1..], count + 1);
    }
  }

  lemma {:induction false} EntriesFrame(h: Host, m: Manifest, entries: seq<Announced>)
    requires TakeEntries(h, m, entries).Some?
    ensures SameFrame(m, TakeEntries(h, m, entries).value)
    decreases |entries|
  {
    if entries != [] {
      EntriesFrame(h, WithEntry(h, m, entries[0]), entries[1..]);
    }
  }

  lemma ReplacedOk(h: Host, peer: string, m: Manifest)
    requires Inv(h) && ManifestOk(h, peer, m)
    ensures Inv(h.(manifests := h.manifests[peer := m]))
  {
    var h' := h.(manifests := h.manifests[peer := m]);
    assert forall p | p in h'.manifests && p != peer :: p in h.manifests;
  }

  lemma DroppedOk(h: Host, peer: string)
    requires Inv(h)
    ensures Inv(h.(manifests := h.manifests - {peer}))
  {
  }

  lemma SessionOk(h: Host)
    requires Inv(h)
    ensures Inv(h.(sessions := h.sessions + 1))
  {
    var more := h.(sessions := h.sessions + 1);
    forall peer | peer in more.manifests
      ensures ManifestOk(more, peer, more.manifests[peer])
    {
      assert ManifestOk(h, peer, h.manifests[peer]);
    }
    forall peer | peer in more.receipts
      ensures Truthful(more, peer, more.receipts[peer])
    {
      assert Truthful(h, peer, h.receipts[peer]);
    }
  }

  lemma OpenedOk(h: Host, peer: string, r: PageRequest)
    requires Inv(h) && r.total >= 0
    ensures Inv(Opened(h, peer, r))
  {
    if r.offset == 0 {
      SessionOk(h);
      ReplacedOk(h.(sessions := h.sessions + 1), peer, Started(h, r));
    }
  }

  /** What a page promises about the manifest it left: as many entries accepted as the
      pages so far held, and the five counters add up to them. */
  ghost predicate CountsAddUp(m: Manifest, next: int) {
    m.next == next && (m.snapshot.Some? ==> m.diff.Sum() == |m.members| == m.next)
  }

  lemma CountedOk(h: Host, peer: string, m: Manifest, taken: Manifest, n: nat)
    requires ManifestOk(h, peer, m) && !m.complete && SameFrame(m, taken) && Taking(taken, m.next + n)
    requires m.next + n <= m.total
    requires Counted(taken, n).Some?
    ensures ManifestOk(h, peer, Counted(taken, n).value) && CountsAddUp(Counted(taken, n).value, m.next + n)
  {
  }

  lemma AddedPageOk(h: Host, peer: string, r: PageRequest)
    requires Inv(h) && peer in h.manifests && PageShape(h, r) && Continues(h.manifests[peer], r)
    ensures Inv(AddPage(h, peer, r).0)
    ensures AddPage(h, peer, r).1.PageTaken? ==>
              peer in AddPage(h, peer, r).0.manifests
                && CountsAddUp(AddPage(h, peer, r).0.manifests[peer], r.offset + |r.entries|)
  {
    var m := h.manifests[peer];
    DroppedOk(h, peer);
    var taken := TakeEntries(h, m, r.entries);
    if taken.Some? {
      EntriesTaken(h, m, r.entries, m.next);
      EntriesFrame(h, m, r.entries);
      if Counted(taken.value, |r.entries|).Some? {
        CountedOk(h, peer, m, taken.value, |r.entries|);
        ReplacedOk(h, peer, Counted(taken.value, |r.entries|).value);
      }
    }
  }

  ghost predicate PageKept(end: (Host, Reply), peer: string, r: PageRequest) {
    && Inv(end.0)
    && (end.1.PageTaken? ==> peer in end.0.manifests && CountsAddUp(end.0.manifests[peer], r.offset + |r.entries|))
  }

  lemma PageCases(h: Host, peer: string, r: PageRequest) returns (end: (Host, Reply))
    ensures end == OnPage(h, peer, r)
    ensures || (end.0 == h && end.1.Refused?)
            || (PageShape(h, r) && end.0 == Opened(h, peer, r) && end.1.Refused?)
            || (PageShape(h, r) && peer in Opened(h, peer, r).manifests
                && Continues(Opened(h, peer, r).manifests[peer], r)
                && end == AddPage(Opened(h, peer, r), peer, r))
  {
    end := OnPage(h, peer, r);
  }

  lemma SameShape(h: Host, peer: string, r: PageRequest)
    requires PageShape(h, r)
    ensures PageShape(Opened(h, peer, r), r)
  {
  }

  /** A page keeps every promise: at every moment the five counters add up to the entries
      accepted so far, and a complete manifest is the list its identifier is the digest of. */
  lemma PageKeepsInv(h: Host, peer: string, r: PageRequest)
    requires Inv(h)
    ensures PageKept(OnPage(h, peer, r), peer, r)
  {
    var end := PageCases(h, peer, r);
    if PageShape(h, r) {
      OpenedOk(h, peer, r);
      SameShape(h, peer, r);
      if peer in Opened(h, peer, r).manifests && Continues(Opened(h, peer, r).manifests[peer], r) {
        AddedPageOk(Opened(h, peer, r), peer, r);
      }
    }
  }

  lemma TransferKeepsInv(h: Host, peer: string, t: Transfer)
    requires Inv(h)
    ensures Inv(OnTransfer(h, peer, t).0)
  {
  }

  lemma {:induction false} SubsetOfEqualSize<T>(a: set<T>, b: set<T>)
    requires a <= b && |a| == |b|
    ensures a == b
  {
    if x :| x in b && x !in a {
      SubsetSize(a, b - {x});
    }
  }

  lemma {:induction false} SubsetSize<T>(a: set<T>, b: set<T>)
    requires a <= b
    ensures |a| <= |b|
    decreases |a|
  {
    if x :| x in a { SubsetSize(a - {x}, b - {x}); }
  }

  /** A new receipt is written only when every entry of the announced manifest was merged
      to completion under this very announcement. */
  lemma CompleteKeepsInv(h: Host, peer: string, manifest: ManifestId, snapshot: string)
    requires Inv(h)
    ensures var (h', reply) := OnComplete(h, peer, manifest, snapshot);
            && Inv(h')
            && (reply.Done? ==> reply.receipt.manifest == manifest && reply.receipt.snapshot.id == snapshot
                                && Truthful(h', peer, reply.receipt) && peer in h'.receipts
                                && h'.receipts[peer] == reply.receipt)
            && (h' != h ==> peer in h.manifests && var m := h.manifests[peer];
                            m.applied == m.members.Keys && |m.members| == m.total == |m.hashed|)
  {
    if Ready(h, peer, manifest, snapshot) && |h.manifests[peer].applied| == |h.manifests[peer].members| {
      var m := h.manifests[peer];
      assert |m.members| == |m.members.Keys|;
      SubsetOfEqualSize(m.applied, m.members.Keys);
    }
  }

  // ---------------------------------------------------------------- runs

  datatype Step =
    | Page(peer: string, request: PageRequest)
    | Send(peer: string, transfer: Transfer)
    | Finish(peer: string, manifest: ManifestId, snapshot: string)
    | JournalGrows(revision: Revision)
    | Closed    // the process ends: manifests are in memory, receipts are not

  function Next(h: Host, step: Step): Host {
    match step
    case Page(peer, request) => OnPage(h, peer, request).0
    case Send(peer, transfer) => OnTransfer(h, peer, transfer).0
    case Finish(peer, manifest, snapshot) => OnComplete(h, peer, manifest, snapshot).0
    case JournalGrows(revision) => h.(log := h.log + [revision])
    case Closed => h.(manifests := map[])
  }

  lemma StepKeepsInv(h: Host, step: Step)
    requires Inv(h)
    ensures Inv(Next(h, step))
  {
    match step
    case Page(peer, request) => PageKeepsInv(h, peer, request);
    case Send(peer, transfer) => TransferKeepsInv(h, peer, transfer);
    case Finish(peer, manifest, snapshot) => CompleteKeepsInv(h, peer, manifest, snapshot);
    case JournalGrows(_) =>
    case Closed =>
  }

  function After(h: Host, steps: seq<Step>): Host {
    if steps == [] then h else Next(After(h, steps[..|steps| - 1]), steps[|steps| - 1])
  }

  /** In every run every receipt on record is truthful. */
  lemma {:induction false} ReceiptsAreTruthful(h: Host, steps: seq<Step>, peer: string)
    requires h.manifests == map[] && h.receipts == map[]
    ensures Inv(After(h, steps))
    ensures peer in After(h, steps).receipts ==> Truthful(After(h, steps), peer, After(h, steps).receipts[peer])
  {
    if steps != [] {
      ReceiptsAreTruthful(h, steps[..|steps| - 1], peer);
      StepKeepsInv(After(h, steps[..|steps| - 1]), steps[|steps| - 1]);
    }
  }
}
