/** The journal as an object whose methods insert revisions row by row, proved against
    the functions of `NamespaceJournal`. */
module JournalStore {
  import opened Records
  import opened Paths
  import opened NamespaceJournal

  lemma AcceptStep(log: Log, entries: seq<Revision>, k: nat, ledger: Ledger)
    requires k < |entries|
    ensures AcceptEntries(log, entries[k..], ledger)
            == if Linked(log, entries[k], ledger) then AcceptEntries(log + [entries[k]], entries[k + 1..], ledger)
              else None
  {
    assert entries[k..][1..] == entries[k + 1..];
  }

  lemma CommitIsValid(log: Log, ledger: Ledger, record: Record, proposal: Version, base: RevisionId)
    requires WellFormed(log, ledger) && record.version == VersionOf(record.content)
    ensures WellFormed(Committed(log, ledger, record, proposal, base).0, ledger)
  {
    CommitKeepsWellFormed(log, ledger, record, proposal, base);
  }

  class Journal {
    const ledger: Ledger
    const sizes: Sizes
    var revisions: Log
    var error: string

    constructor (ledger: Ledger, sizes: Sizes)
      ensures this.ledger == ledger && this.sizes == sizes && revisions == []
    {
      this.ledger := ledger;
      this.sizes := sizes;
      revisions := [];
      error := "";
    }

    ghost predicate Valid()
      reads this
    {
      WellFormed(revisions, ledger)
    }

    method Clear()
      modifies this`revisions
      ensures revisions == [] && Valid()
    {
      revisions := [];
    }

    /** Newest first, so the search stops at the first row of the path. */
    method Object(path: Path) returns (r: Option<Revision>)
      ensures r == LatestOf(revisions, path)
    {
      var i := |revisions|;
      assert revisions[..i] == revisions;
      while i > 0
        invariant 0 <= i <= |revisions|
        invariant LatestOf(revisions, path) == LatestOf(revisions[..i], path)
      {
        assert revisions[..i][..i - 1] == revisions[..i - 1];
        i := i - 1;
        if revisions[i].Path() == path {
          return Some(revisions[i]);
        }
      }
      r := None;
    }

    method ParentsOf(path: Path, prior: Option<Revision>, base: RevisionId) returns (parents: seq<RevisionId>)
      requires prior == LatestOf(revisions, path)
      ensures parents == Parents(revisions, path, base)
    {
      parents := if prior.Some? then [prior.value.id] else [];
      if base != NoRevision && (prior.None? || prior.value.id != base) && Named(revisions, base) {
        parents := parents + [base];
      }
    }

    method Commit(record: Record, proposal: Version, base: RevisionId) returns (r: Option<Revision>)
      requires Valid() && record.version == VersionOf(record.content)
      modifies this
      ensures Valid()
      ensures revisions == Committed(old(revisions), ledger, record, proposal, base).0
      ensures r == Committed(old(revisions), ledger, record, proposal, base).1
    {
      ghost var (log, answer) := Committed(revisions, ledger, record, proposal, base);
      CommitIsValid(revisions, ledger, record, proposal, base);
      var prior := Object(record.content.path);
      if prior.Some? && prior.value.body.entry.version == record.version {
        return prior;
      }
      if SequenceOf(revisions) + 1 > MAX_COUNTER || !ValidRecord(record, ledger.physical) {
        error := "invalid_namespace_commit";
        return None;
      }
      var parents := ParentsOf(record.content.path, prior, base);
      var body := RevisionBody(ledger.space, ledger.authority, SequenceOf(revisions) + 1, HeadOf(revisions),
                               parents, record, proposal);
      var row := Revision(RevisionDigest(body), body);
      assert (log, answer) == (revisions + [row], Some(row));
      revisions := revisions + [row];
      r := Some(row);
    }

    method Changes(after: int, through: int, history: bool) returns (page: Option<Page>)
      ensures page == ChangesPage(revisions, ledger, sizes, after, through, history)
    {
      var limit := if through == 0 then |revisions| else through;
      if after < 0 || after > limit || limit > |revisions| {
        return None;
      }
      var rows := Select(revisions, history, after, limit);
      var k, limited := Fill(rows, sizes.Of(history));
      var entries := rows[..k];
      var next := if k == 0 then after else rows[k - 1].body.sequence;
      var more := limited || (|entries| == PAGE_ENTRIES && next < limit);
      page := Some(Page(ledger.space, ledger.authority, entries, limit, if more then next
                        else limit, more, sizes.page(entries)));
    }

    /** Takes rows while they fit the page's slots and bytes; `limited` when a row did not. */
    method Fill(rows: seq<Revision>, weigh: Revision -> nat) returns (k: nat, limited: bool)
      ensures k == Fit(rows, weigh, PAGE_ENTRIES, PAGE_BYTES)
      ensures limited <==> k < |rows| && k < PAGE_ENTRIES
    {
      var total := 0;
      k, limited := 0, false;
      while k < |rows| && k < PAGE_ENTRIES
        invariant 0 <= k <= |rows| && k <= PAGE_ENTRIES && total <= PAGE_BYTES && !limited
        invariant Fit(rows, weigh, PAGE_ENTRIES, PAGE_BYTES)
                  == k + Fit(rows[k..], weigh, PAGE_ENTRIES - k, PAGE_BYTES - total)
      {
        assert rows[k..][1..] == rows[k + 1..];
        var length := weigh(rows[k]);
        if total + length > PAGE_BYTES {
          limited := true;
          break;
        }
        total := total + length;
        k := k + 1;
      }
    }

    /** Checks and inserts a page's revisions one by one.  A refused page may leave the
        rows inserted before the bad one: the caller's transaction removes them. */
    method Accept(page: Page) returns (ok: bool)
      requires Valid()
      modifies this
      ensures Valid() && old(revisions) <= revisions
      ensures ok <==> Accepted(old(revisions), page, ledger).Some?
      ensures ok ==> Some(revisions) == Accepted(old(revisions), page, ledger)
    {
      ghost var before := revisions;
      SequencesCount(revisions, ledger);
      if !PageShape(revisions, page, ledger) {
        error := "invalid_namespace_page";
        return false;
      }
      var k := 0;
      while k < |page.entries|
        invariant 0 <= k <= |page.entries|
        invariant before <= revisions && WellFormed(revisions, ledger)
        invariant AcceptEntries(before, page.entries, ledger) == AcceptEntries(revisions, page.entries[k..], ledger)
      {
        var r := page.entries[k];
        AcceptStep(revisions, page.entries, k, ledger);
        if !Linked(revisions, r, ledger) {
          error := "invalid_namespace_revision";
          return false;
        }
        WellFormedExtend(revisions, r, ledger);
        revisions := revisions + [r];
        k := k + 1;
      }
      if SequenceOf(revisions) != Counter(page.next) {
        error := "namespace_sequence_gap";
        return false;
      }
      ok := true;
    }

    /** The same for a page from a peer, which must be the bound host, inside a transaction:
        a refused page changes nothing. */
    method AcceptJournal(host: string, peer: string, page: Page) returns (ok: bool)
      requires Valid()
      modifies this
      ensures Valid()
      ensures ok <==> peer == host && peer != "" && Accepted(old(revisions), page, ledger).Some?
      ensures revisions == if ok then Accepted(old(revisions), page, ledger).value else old(revisions)
      ensures peer != host || peer == "" ==> error == "host_revision_required"
    {
      if peer != host || peer == "" {
        error := "host_revision_required";
        return false;
      }
      var saved := revisions;
      ok := Accept(page);
      if !ok {
        revisions := saved;
      }
    }
  }
}
