/** The host's manifest table as an object: a page is taken entry by entry, transfers are
    checked against it, and receipts are written. */
module ManifestStore {
  import opened Records
  import opened NamespaceJournal
  import opened Manifests

  class Store {
    const mirror: bool
    const id: string
    const physical: Path -> bool
    var log: Log
    var manifests: map<string, Manifest>
    var receipts: map<string, Receipt>
    var sessions: nat
    ghost var merged: set<(string, nat, Announced)>

    ghost function View(): Host
      reads this
    {
      Host(mirror, id, log, physical, manifests, receipts, sessions, merged)
    }

    constructor (mirror: bool, id: string, physical: Path -> bool, log: Log)
      ensures Inv(View()) && this.log == log && manifests == map[] && receipts == map[]
    {
      this.mirror, this.id, this.physical, this.log := mirror, id, physical, log;
      manifests, receipts, sessions, merged := map[], map[], 0, {};
    }

    /** Checks one announced entry and adds it to the manifest. */
    method AddEntry(m: Manifest, e: Announced) returns (r: Option<Manifest>)
      ensures r == if Acceptable(View(), m, e) then Some(WithEntry(View(), m, e)) else None
    {
      if !physical(e.record.content.path) || e.record.version != VersionOf(e.record.content)
        || !ValidContent(e.record.content)
         || e.sequence < 0 || e.sequence <= m.sequence || e.sequence > m.through || !e.plain {
        return None;
      }
      var m' := m.(hashed := m.hashed + [e], sequence := e.sequence);
      if m.snapshot.Some? {
        var path := e.record.content.path;
        if e.base.None? || path in m.members {
          return None;
        }
        var current := LatestOf(log, path);
        var confirmed := if current.Some? then current.value.id else NoRevision;
        m' := m'.(members := m.members[path := e]);
        if current.Some? && ContentEqual(e.record.content, current.value.body.entry.content) {
          m' := m'.(diff := m.diff.(equal := m.diff.equal + 1));
        } else if e.base.value != confirmed {
          m' := m'.(diff := m.diff.(conflicts := m.diff.conflicts + 1));
        } else if e.record.content.kind == Deleted {
          m' := m'.(diff := m.diff.(deleted := m.diff.deleted + 1));
        } else if current.None? || current.value.body.entry.content.kind == Deleted {
          m' := m'.(diff := m.diff.(added := m.diff.added + 1));
        } else {
          m' := m'.(diff := m.diff.(updated := m.diff.updated + 1));
        }
      }
      r := Some(m');
    }

    method AddEntries(m: Manifest, entries: seq<Announced>) returns (r: Option<Manifest>)
      ensures r == TakeEntries(View(), m, entries)
    {
      var k, current := 0, m;
      while k < |entries|
        invariant 0 <= k <= |entries|
        invariant TakeEntries(View(), m, entries) == TakeEntries(View(), current, entries[k..])
      {
        assert entries[k..][1..] == entries[k + 1..];
        var next := AddEntry(current, entries[k]);
        if next.None? {
          return None;
        }
        current, k := next.value, k + 1;
      }
      r := Some(current);
    }

    /** The second half of a page, once it is known to continue a manifest. */
    method Continue(peer: string, r: PageRequest) returns (reply: Reply)
      requires peer in manifests
      modifies this`manifests
      ensures (View(), reply) == AddPage(old(View()), peer, r)
    {
      var taken := AddEntries(manifests[peer], r.entries);
      if taken.None? {
        manifests := manifests - {peer};
        return Refused("invalid_manifest_entry");
      }
      var counted := CountPage(taken.value, |r.entries|);
      if counted.None? {
        manifests := manifests - {peer};
        return Refused("manifest_hash_mismatch");
      }
      var m := counted.value;
      manifests := manifests[peer := m];
      reply := PageTaken(m.next, m.complete, if m.complete && m.snapshot.Some? then Some(m.diff) else None);
    }

    method CountPage(m: Manifest, n: nat) returns (r: Option<Manifest>)
      ensures r == Manifests.Counted(m, n)
    {
      var m' := m.(next := m.next + n, complete := false);
      if m'.next == m'.total {
        if m'.id != DigestOf(m'.hashed) {
          return None;
        }
        m' := m'.(complete := true);
      }
      r := Some(m');
    }

    method HandlePage(peer: string, r: PageRequest) returns (reply: Reply)
      modifies this
      ensures (View(), reply) == OnPage(old(View()), peer, r)
    {
      if r.snapshot.Some? && mirror {
        return Refused("invalid_snapshot");
      }
      if !r.wellFormed || r.replica == id || r.offset < 0 || r.after < 0 || r.after > r.through || r.total > TOTAL_LIMIT
         || r.offset > r.total || |r.entries| > PAGE_LIMIT || |r.entries| > r.total - r.offset
            || (r.entries == [] && r.total != 0) {
        return Refused("invalid_manifest_page");
      }
      if r.offset == 0 {
        if !BaseKnown(log, r.snapshot) {
          return Refused("snapshot_base_unknown");
        }
        if peer !in manifests && |manifests| >= PEER_LIMIT {
          return Refused("manifest_capacity");
        }
        manifests := manifests[peer := Manifest(r.id, r.replica, r.snapshot, map[], {}, NO_DIFF, 0, r.total, r.after,
                                                r.through, r.after, false, [], sessions)];
        sessions := sessions + 1;
      }
      if peer !in manifests || !Continues(manifests[peer], r) {
        return Refused("manifest_page_out_of_order");
      }
      reply := Continue(peer, r);
    }

    /** A transfer must name the announced manifest, its snapshot and exactly its entry. */
    method Admit(peer: string, t: Transfer) returns (ok: bool)
      ensures ok <==> Admitted(View(), peer, t)
    {
      if peer in manifests && manifests[peer].snapshot.Some? && t.manifest.None? {
        return false;
      }
      if t.manifest.None? {
        return t.snapshot.None?;
      }
      if peer !in manifests || !manifests[peer].complete || manifests[peer].id != t.manifest.value {
        return false;
      }
      var m := manifests[peer];
      if m.snapshot.None? {
        return t.snapshot.None?;
      }
      var path := t.entry.record.content.path;
      ok := t.snapshot == Some(m.snapshot.value.id) && path in m.members && m.members[path] == t.entry;
    }

    /** A merge of an announced entry came to its end. */
    method MergeEnded(peer: string, t: Transfer) returns (reply: Reply)
      modifies this
      ensures (View(), reply) == OnTransfer(old(View()), peer, t)
    {
      var admitted := Admit(peer, t);
      if !admitted {
        return Refused("snapshot_entry_mismatch");
      }
      if !t.ok {
        return Refused("merge");
      }
      if t.complete && t.manifest.Some? && manifests[peer].snapshot.Some? {
        var m := manifests[peer];
        manifests := manifests[peer := m.(applied := m.applied + {t.entry.record.content.path})];
        merged := merged + {(peer, m.session, t.entry)};
      }
      reply := Merged(t.complete);
    }

    method CompleteSnapshot(peer: string, manifest: ManifestId, snapshot: string) returns (reply: Reply)
      modifies this`receipts
      ensures (View(), reply) == OnComplete(old(View()), peer, manifest, snapshot)
    {
      if !(peer in manifests && manifests[peer].complete && manifests[peer].snapshot.Some?
           && manifests[peer].id == manifest && manifests[peer].snapshot.value.id == snapshot) {
        if peer in receipts && receipts[peer].manifest == manifest && receipts[peer].snapshot.id == snapshot {
          return Done(receipts[peer]);
        }
        return Refused("manifest_required_before_transfer");
      }
      var m := manifests[peer];
      if |m.applied| != |m.members| {
        return Refused("snapshot_transfers_incomplete");
      }
      if peer in receipts && receipts[peer].snapshot == m.snapshot.value && receipts[peer].manifest == m.id {
        return Done(receipts[peer]);
      }
      var receipt := Receipt(m.snapshot.value, m.id, m.replica, m.diff, m.after, m.through, m.session);
      receipts := receipts[peer := receipt];
      reply := Done(receipt);
    }
  }
}
