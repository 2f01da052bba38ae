/** Paging a journal: stitched pages equal the whole selection although the journal
    grows between them, and replaying a compacted delta equals replaying the history. */
module JournalPages {
  import opened Records
  import opened Paths
  import opened NamespaceJournal

  /** The newest revision of every path, as a map. */
  function Snapshot(log: Log): map<Path, Revision> {
    if log == [] then map[] else Snapshot(log[..|log| - 1])[log[|log| - 1].Path() := log[|log| - 1]]
  }

  function Overlay(m: map<Path, Revision>, entries: seq<Revision>): map<Path, Revision>
    decreases |entries|
  {
    if entries == [] then m else Overlay(m[entries[0].Path() := entries[0]], entries[1..])
  }

  lemma {:induction false} SnapshotIsLatest(log: Log, path: Path)
    ensures LatestOf(log, path) == if path in Snapshot(log) then Some(Snapshot(log)[path]) else None
  {
    if log != [] {
      SnapshotIsLatest(log[..|log| - 1], path);
    }
  }

  // ---------------------------------------------------------------- compacted delta = replay

  predicate NamedOnce(entries: seq<Revision>) {
    forall i, j | 0 <= i < j < |entries| :: entries[i].Path() != entries[j].Path()
  }

  /** Every selected row comes from the asked range. */
  lemma {:induction false} SelectedRows(log: Log, history: bool, after: nat, through: nat, k: nat) returns (i: nat)
    requires after <= through <= |log| && k < |Select(log, history, after, through)|
    ensures after <= i < through && Select(log, history, after, through)[k] == log[i]
    ensures history || Newest(log, i, through)
    decreases through - after
  {
    if history || Newest(log, after, through) {
      if k == 0 {
        i := after;
      } else {
        i := SelectedRows(log, history, after + 1, through, k - 1);
      }
    } else {
      i := SelectedRows(log, history, after + 1, through, k);
    }
  }

  lemma {:induction false} SelectNamesOnce(log: Log, after: nat, through: nat)
    requires after <= through <= |log|
    ensures NamedOnce(Select(log, false, after, through))
    decreases through - after
  {
    if after < through {
      SelectNamesOnce(log, after + 1, through);
      var rest := Select(log, false, after + 1, through);
      forall k | 0 <= k < |rest| && Newest(log, after, through) ensures rest[k].Path() != log[after].Path() {
        var i := SelectedRows(log, false, after + 1, through, k);
      }
    }
  }

  lemma {:induction false} SelectHistory(log: Log, after: nat, through: nat)
    requires after <= through <= |log|
    ensures Select(log, true, after, through) == log[after..through]
    decreases through - after
  {
    if after < through {
      SelectHistory(log, after + 1, through);
      assert log[after..through] == [log[after]] + log[after + 1..through];
    }
  }

  lemma {:induction false} OverlaySplit(m: map<Path, Revision>, a: seq<Revision>, b: seq<Revision>)
    ensures Overlay(m, a + b) == Overlay(Overlay(m, a), b)
    decreases |a|
  {
    if a == [] {
      assert a + b == b;
    } else {
      assert (a + b)[0] == a[0] && (a + b)[1..] == a[1..] + b;
      OverlaySplit(m[a[0].Path() := a[0]], a[1..], b);
    }
  }

  /** Overlaying history is replaying it. */
  lemma {:induction false} OverlayHistory(log: Log, after: nat, through: nat)
    requires after <= through <= |log|
    ensures Overlay(Snapshot(log[..after]), log[after..through]) == Snapshot(log[..through])
    decreases through - after
  {
    if after < through {
      assert log[..after + 1][..after] == log[..after];
      assert log[after..through][1..] == log[after + 1..through];
      OverlayHistory(log, after + 1, through);
    }
  }

  lemma {:induction false} OverlayLookup(m: map<Path, Revision>, entries: seq<Revision>, p: Path)
    ensures p in Overlay(m, entries) <==> p in m || exists e | e in entries :: e.Path() == p
    ensures (forall e | e in entries :: e.Path() != p) && p in m ==> Overlay(m, entries)[p] == m[p]
    decreases |entries|
  {
    if entries != [] {
      OverlayLookup(m[entries[0].Path() := entries[0]], entries[1..], p);
      assert forall e :: e in entries <==> e == entries[0] || e in entries[1..];
    }
  }

  lemma {:induction false} OverlayIgnoresShadowed(m: map<Path, Revision>, r: Revision, entries: seq<Revision>)
    requires exists e | e in entries :: e.Path() == r.Path()
    ensures Overlay(m[r.Path() := r], entries) == Overlay(m, entries)
    decreases |entries|
  {
    var e0 := entries[0];
    if e0.Path() == r.Path() {
      assert m[r.Path() := r][e0.Path() := e0] == m[e0.Path() := e0];
    } else {
      assert m[r.Path() := r][e0.Path() := e0] == m[e0.Path() := e0][r.Path() := r];
      var e :| e in entries && e.Path() == r.Path();
      assert e in entries[1..];
      OverlayIgnoresShadowed(m[e0.Path() := e0], r, entries[1..]);
    }
  }

  lemma {:induction false} SelectKeepsLast(log: Log, after: nat, i: nat, through: nat)
    requires after <= i < through <= |log|
    ensures exists e | e in Select(log, false, after, through) :: e.Path() == log[i].Path()
    decreases through - after, through - i
  {
    if Newest(log, i, through) {
      if after == i {
        assert Select(log, false, after, through)[0] == log[i];
      } else {
        SelectKeepsLast(log, after + 1, i, through);
        var e :| e in Select(log, false, after + 1, through) && e.Path() == log[i].Path();
        assert e in Select(log, false, after, through);
      }
    } else {
      var j :| i < j < through && log[j].Path() == log[i].Path();
      SelectKeepsLast(log, after, j, through);
    }
  }

  /** Overlaying the compacted delta of `(after, through]` on the state at `after`
      gives exactly the state at `through`: skipping superseded revisions loses nothing. */
  lemma {:induction false} DeltaEqualsReplay(log: Log, after: nat, through: nat)
    requires after <= through <= |log|
    ensures Overlay(Snapshot(log[..after]), Select(log, false, after, through)) == Snapshot(log[..through])
    decreases through - after
  {
    if after < through {
      var r := log[after];
      var rest := Select(log, false, after + 1, through);
      var m := Snapshot(log[..after]);
      assert log[..after + 1][..after] == log[..after];
      assert Snapshot(log[..after + 1]) == m[r.Path() := r];
      DeltaEqualsReplay(log, after + 1, through);
      if !Newest(log, after, through) {
        var j :| after < j < through && log[j].Path() == r.Path();
        SelectKeepsLast(log, after + 1, j, through);
        OverlayIgnoresShadowed(m, r, rest);
        assert Select(log, false, after, through) == [] + rest == rest;
      } else {
        assert ([r] + rest)[1..] == rest;
      }
    }
  }

  // ---------------------------------------------------------------- stitching pages

  lemma {:induction false} SelectFromLarger(log: Log, larger: Log, history: bool, after: nat, through: nat)
    requires log <= larger && after <= through <= |log|
    ensures Select(log, history, after, through) == Select(larger, history, after, through)
    decreases through - after
  {
    if after < through {
      SelectFromLarger(log, larger, history, after + 1, through);
      assert forall j | after <= j < through :: log[j] == larger[j];
    }
  }

  /** Dropping the first `k` rows leaves the selection after the `k`-th row. */
  lemma {:induction false} SelectAfterRow(log: Log, history: bool, after: nat, through: nat, k: nat)
    requires Counted(log)
    requires after <= through <= |log| && 0 < k <= |Select(log, history, after, through)|
    ensures var next := Select(log, history, after, through)[k - 1].body.sequence;
            after < next <= through
            && Select(log, history, next, through) == Select(log, history, after, through)[k..]
    decreases through - after
  {
    var rest := Select(log, history, after + 1, through);
    if history || Newest(log, after, through) {
      assert Select(log, history, after, through) == [log[after]] + rest;
      if k > 1 {
        SelectAfterRow(log, history, after + 1, through, k - 1);
      }
    } else {
      assert Select(log, history, after, through) == [] + rest == rest;
      SelectAfterRow(log, history, after + 1, through, k);
    }
  }

  /** A page's rows followed by the selection after its `next` are the whole selection;
      a page that says there is more leaves its `next` below `through`. */
  lemma PageCut(log: Log, ledger: Ledger, sizes: Sizes, history: bool, after: nat, through: nat)
    requires Counted(log) && after <= through <= |log| && through > 0
    ensures var p := ChangesPage(log, ledger, sizes, after, through, history).value;
            && after <= p.next <= through == p.through
            && p.entries + Select(log, history, p.next, through) == Select(log, history, after, through)
            && (p.more ==> p.next < through) && (!p.more ==> p.next == through)
            && |p.entries| <= PAGE_ENTRIES
  {
    var rows := Select(log, history, after, through);
    var k := Fit(rows, sizes.Of(history), PAGE_ENTRIES, PAGE_BYTES);
    if k > 0 {
      SelectAfterRow(log, history, after, through, k);
    }
    assert rows[..k] + rows[k..] == rows;
    assert Select(log, history, through, through) == [];
  }

  /** A run of page requests that keep one `through`: before each request the journal
      may have grown, and each request starts at the previous page's `next`. */
  ghost predicate PageRun(logs: seq<Log>, ledger: Ledger, sizes: Sizes, history: bool, after: nat, through: nat,
                          pages: seq<Page>)
    decreases |logs|
  {
    && |logs| == |pages| > 0
    && WellFormed(logs[0], ledger) && after <= through <= |logs[0]|
    && (through == 0 ==> logs[0] == [])
    && ChangesPage(logs[0], ledger, sizes, after, through, history) == Some(pages[0])
    && (if pages[0].more
        then |logs| > 1 && logs[0] <= logs[1] && pages[0].next >= 0
             && PageRun(logs[1..], ledger, sizes, history, pages[0].next, through, pages[1..])
        else |logs| == 1)
  }

  function AllEntries(pages: seq<Page>): seq<Revision>
    decreases |pages|
  {
    if pages == [] then [] else pages[0].entries + AllEntries(pages[1..])
  }

  /** However the journal grows between the pages, together they are exactly the
      selection of the journal the first page was cut from. */
  lemma {:induction false} StitchedPages(logs: seq<Log>, ledger: Ledger, sizes: Sizes, history: bool, after: nat,
                                         through: nat, pages: seq<Page>)
    requires PageRun(logs, ledger, sizes, history, after, through, pages)
    ensures AllEntries(pages) == Select(logs[0], history, after, through)
    decreases |logs|
  {
    if through > 0 {
      SequencesCount(logs[0], ledger);
      PageCut(logs[0], ledger, sizes, history, after, through);
    }
    if pages[0].more {
      StitchedPages(logs[1..], ledger, sizes, history, pages[0].next, through, pages[1..]);
      SelectFromLarger(logs[0], logs[1], history, pages[0].next, through);
    } else {
      assert AllEntries(pages[1..]) == [];
    }
  }

  /** The compacted pages of one pinned `through` name each path at most once and carry
      a receiver from the state at `after` to the state at `through`. */
  lemma CompactedPagesCarryForward(logs: seq<Log>, ledger: Ledger, sizes: Sizes, after: nat, through: nat,
                                   pages: seq<Page>)
    requires PageRun(logs, ledger, sizes, false, after, through, pages)
    ensures NamedOnce(AllEntries(pages))
    ensures Overlay(Snapshot(logs[0][..after]), AllEntries(pages)) == Snapshot(logs[0][..through])
  {
    StitchedPages(logs, ledger, sizes, false, after, through, pages);
    SelectNamesOnce(logs[0], after, through);
    DeltaEqualsReplay(logs[0], after, through);
  }

  /** No single row is larger than a page, and a full page with its envelope stays
      within what a mirror accepts. */
  ghost predicate Modest(sizes: Sizes) {
    && (forall r :: sizes.whole(r) <= PAGE_BYTES && sizes.projected(r) <= PAGE_BYTES)
    && (forall rows: seq<Revision> :: |rows| <= PAGE_ENTRIES && Weight(rows, sizes.whole) <= PAGE_BYTES ==>
          sizes.page(rows) <= ACCEPTED_BYTES)
  }

  lemma {:induction false} FitWeight(rows: seq<Revision>, weigh: Revision -> nat, slots: nat, room: nat, k: nat)
    requires k <= Fit(rows, weigh, slots, room)
    ensures Weight(rows[..k], weigh) <= room
    decreases |rows|
  {
    if k > 0 {
      FitWeight(rows[1..], weigh, slots - 1, room - weigh(rows[0]), k - 1);
      assert rows[..k] == [rows[0]] + rows[1..][..k - 1];
      WeightFront(rows[0], rows[1..][..k - 1], weigh);
    }
  }

  lemma {:induction false} WeightFront(r: Revision, rows: seq<Revision>, weigh: Revision -> nat)
    ensures Weight([r] + rows, weigh) == weigh(r) + Weight(rows, weigh)
  {
    if rows == [] {
      assert [r] + rows == [r] && [r][..0] == [];
    } else {
      assert ([r] + rows)[..|rows|] == [r] + rows[..|rows| - 1];
      WeightFront(r, rows[..|rows| - 1], weigh);
    }
  }

  /** A page that promises more always moves the cursor. */
  lemma PageMakesProgress(log: Log, ledger: Ledger, sizes: Sizes, history: bool, after: nat, through: nat)
    requires WellFormed(log, ledger) && after <= through <= |log| && through > 0 && Modest(sizes)
    ensures var p := ChangesPage(log, ledger, sizes, after, through, history).value;
            p.more ==> after < p.next < through && p.entries != []
  {
    SequencesCount(log, ledger);
    PageCut(log, ledger, sizes, history, after, through);
    var rows := Select(log, history, after, through);
    if rows != [] {
      assert sizes.Of(history)(rows[0]) <= PAGE_BYTES;
    }
    var k := Fit(rows, sizes.Of(history), PAGE_ENTRIES, PAGE_BYTES);
    if k > 0 {
      SelectAfterRow(log, history, after, through, k);
    }
  }

  lemma HistoryPage(log: Log, ledger: Ledger, sizes: Sizes, n: nat, limit: nat)
    requires Counted(log) && Modest(sizes) && n <= limit <= |log| && limit > 0
    ensures var p := ChangesPage(log, ledger, sizes, n, limit, true).value;
            && n <= p.next <= limit && p.entries == log[n..p.next]
            && p.bytes <= ACCEPTED_BYTES && (p.more ==> n < p.next < limit)
  {
    var rows := Select(log, true, n, limit);
    SelectHistory(log, n, limit);
    var k := Fit(rows, sizes.whole, PAGE_ENTRIES, PAGE_BYTES);
    FitWeight(rows, sizes.whole, PAGE_ENTRIES, PAGE_BYTES, k);
    HistoryRows(log, ledger, sizes, n, limit);
    if rows != [] {
      assert sizes.whole(rows[0]) <= PAGE_BYTES;
    }
  }

  lemma HistoryRows(log: Log, ledger: Ledger, sizes: Sizes, n: nat, limit: nat)
    requires Counted(log) && n <= limit <= |log| && limit > 0
    ensures var p := ChangesPage(log, ledger, sizes, n, limit, true).value;
            n <= p.next <= limit && p.entries == log[n..p.next] && (p.more ==> p.next < limit)
  {
    SelectHistory(log, n, limit);
    PageCut(log, ledger, sizes, true, n, limit);
    var p := ChangesPage(log, ledger, sizes, n, limit, true).value;
    SelectHistory(log, p.next, limit);
    FrontOf(log, n, p.next, limit, p.entries);
  }

  lemma FrontOf(log: Log, n: nat, next: nat, limit: nat, entries: Log)
    requires n <= next <= limit <= |log| && entries + log[next..limit] == log[n..limit]
    ensures entries == log[n..next]
  {
    var k := |entries|;
    assert k == next - n;
    assert entries == (entries + log[next..limit])[..k] && log[n..limit][..k] == log[n..next];
  }

  lemma TakesPage(log: Log, ledger: Ledger, n: nat, p: Page)
    requires Counted(log) && |log| <= MAX_COUNTER && n <= p.next <= p.through <= |log|
    requires p.space == ledger.space && p.authority == ledger.authority
    requires p.entries == log[n..p.next] && |p.entries| <= PAGE_ENTRIES && p.bytes <= ACCEPTED_BYTES
    requires if p.more then n < p.next < p.through else p.next == p.through
    requires AcceptEntries(log[..n], p.entries, ledger) == Some(log[..p.next])
    ensures Accepted(log[..n], p, ledger) == Some(log[..p.next])
  {
    assert SequenceOf(log[..n]) == n && SequenceOf(log[..p.next]) == p.next;
  }

  lemma MirrorTakesBoundedPage(log: Log, ledger: Ledger, sizes: Sizes, n: nat, limit: nat)
    requires Counted(log) && |log| <= MAX_COUNTER && Modest(sizes) && n <= limit <= |log| && limit > 0
    requires forall m | n <= m <= limit :: AcceptEntries(log[..n], log[n..m], ledger) == Some(log[..m])
    ensures var p := ChangesPage(log, ledger, sizes, n, limit, true).value;
            && n <= p.next <= limit
            && Accepted(log[..n], p, ledger) == Some(log[..p.next])
            && (p.more ==> n < p.next)
  {
    HistoryPage(log, ledger, sizes, n, limit);
    PageCut(log, ledger, sizes, true, n, limit);
    TakesPage(log, ledger, n, ChangesPage(log, ledger, sizes, n, limit, true).value);
  }

  lemma ZeroAsksForHead(log: Log, ledger: Ledger, sizes: Sizes, after: int, history: bool)
    ensures ChangesPage(log, ledger, sizes, after, 0, history) == ChangesPage(log, ledger, sizes, after, |log|, history)
  {
  }

  lemma EmptyLogPage(ledger: Ledger, sizes: Sizes)
    requires Modest(sizes)
    ensures var p := ChangesPage([], ledger, sizes, 0, 0, true);
            p.Some? && p.value.next == 0 && !p.value.more && Accepted([], p.value, ledger) == Some([])
  {
    assert sizes.page([]) <= ACCEPTED_BYTES;
  }

  /** A mirror that holds the authority's first revisions takes every history page cut
      from its own head, and then holds the authority's revisions up to the page's `next`. */
  lemma MirrorTakesPage(log: Log, ledger: Ledger, sizes: Sizes, n: nat, through: nat)
    requires WellFormed(log, ledger) && n <= |log| && Modest(sizes)
    requires through == 0 || n <= through <= |log|
    ensures var p := ChangesPage(log, ledger, sizes, n, through, true);
            && p.Some? && n <= p.value.next <= |log|
            && Accepted(log[..n], p.value, ledger) == Some(log[..p.value.next])
            && (p.value.more ==> n < p.value.next)
  {
    var limit := if through == 0 then |log| else through;
    SequencesCount(log, ledger);
    LimitWithin(log, ledger);
    if limit > 0 {
      forall m | n <= m <= limit ensures AcceptEntries(log[..n], log[n..m], ledger) == Some(log[..m]) {
        AcceptEntriesTakesHistory(log, n, m, ledger);
      }
      ZeroAsksForHead(log, ledger, sizes, n, true);
      MirrorTakesBoundedPage(log, ledger, sizes, n, limit);
    } else {
      EmptyLogPage(ledger, sizes);
    }
  }

  lemma LimitWithin(log: Log, ledger: Ledger)
    requires WellFormed(log, ledger)
    ensures |log| <= MAX_COUNTER
  {
    if log != [] {
      WellFormedAt(log, |log| - 1, ledger);
    }
  }
}
