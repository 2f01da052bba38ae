/** The authority's append-only, hash-linked journal, its pages, and the verifier a
    mirror runs on the pages it imports. */
module NamespaceJournal {
  import opened Records
  import opened Paths

  const PAGE_ENTRIES: nat := 128
  const PAGE_BYTES: nat := 256 * 1024
  const ACCEPTED_BYTES: nat := 400000

  type Log = seq<Revision>

  /** A namespace and the authority epoch whose revisions a log may hold. */
  datatype Ledger = Ledger(space: string, authority: string, physical: Path -> bool)

  /** The encoded sizes the page limits are measured with. */
  datatype Sizes = Sizes(whole: Revision -> nat, projected: Revision -> nat, page: seq<Revision> -> nat) {
    function Of(history: bool): Revision -> nat {
      if history then whole else projected
    }
  }

  datatype Page = Page(space: string, authority: string, entries: seq<Revision>,
                       through: int, next: int, more: bool, bytes: nat)

  // ---------------------------------------------------------------- queries on a log

  function SequenceOf(log: Log): int {
    if log == [] then 0 else log[|log| - 1].body.sequence
  }

  function HeadOf(log: Log): RevisionId {
    if log == [] then NoRevision else log[|log| - 1].id
  }

  function LatestOf(log: Log, path: Path): Option<Revision> {
    if log == [] then None
    else if log[|log| - 1].Path() == path then Some(log[|log| - 1])
    else LatestOf(log[..|log| - 1], path)
  }

  predicate Named(log: Log, id: RevisionId) {
    exists r | r in log :: r.id == id
  }

  // ---------------------------------------------------------------- well-formed logs

  /** `r` may follow `before`: it is the digest of its own body, continues the sequence
      and the chain, has only earlier revisions as parents and, when its path has a
      prior revision, has that one among them. */
  predicate Linked(before: Log, r: Revision, ledger: Ledger) {
    && r.id == RevisionDigest(r.body)
    && r.body.space == ledger.space && r.body.authority == ledger.authority
    && |before| < MAX_COUNTER && r.body.sequence == |before| + 1
    && r.body.previous == HeadOf(before)
    && |r.body.parents| <= 2
    && (forall i | 0 <= i < |r.body.parents| :: Named(before, r.body.parents[i]))
    && (var prior := LatestOf(before, r.Path()); prior.Some? ==> prior.value.id in r.body.parents)
    && ValidRecord(r.body.entry, ledger.physical)
  }

  predicate WellFormed(log: Log, ledger: Ledger) {
    log == [] || (WellFormed(log[..|log| - 1], ledger) && Linked(log[..|log| - 1], log[|log| - 1], ledger))
  }

  lemma WellFormedExtend(log: Log, r: Revision, ledger: Ledger)
    requires WellFormed(log, ledger) && Linked(log, r, ledger)
    ensures WellFormed(log + [r], ledger)
  {
    assert (log + [r])[..|log|] == log;
  }

  lemma {:induction false} WellFormedPrefix(log: Log, n: nat, ledger: Ledger)
    requires WellFormed(log, ledger) && n <= |log|
    ensures WellFormed(log[..n], ledger)
  {
    if n < |log| {
      WellFormedPrefix(log[..|log| - 1], n, ledger);
      assert log[..|log| - 1][..n] == log[..n];
    } else {
      assert log[..n] == log;
    }
  }

  lemma {:induction false} WellFormedAt(log: Log, i: nat, ledger: Ledger)
    requires WellFormed(log, ledger) && i < |log|
    ensures Linked(log[..i], log[i], ledger)
  {
    if i < |log| - 1 {
      WellFormedAt(log[..|log| - 1], i, ledger);
      assert log[..|log| - 1][..i] == log[..i];
    }
  }

  predicate Counted(log: Log) {
    forall i | 0 <= i < |log| :: log[i].body.sequence == i + 1
  }

  lemma SequencesCount(log: Log, ledger: Ledger)
    requires WellFormed(log, ledger)
    ensures Counted(log) && SequenceOf(log) == |log|
  {
    forall i | 0 <= i < |log| ensures log[i].body.sequence == i + 1 {
      WellFormedAt(log, i, ledger);
    }
  }

  /** A digest names its whole history: two well-formed logs that share the revision at
      positions `i` and `j` agree on everything up to there.  So a mirror whose head is
      any revision of the authority holds exactly the authority's first revisions. */
  lemma {:induction false} HeadFixesHistory(a: Log, b: Log, i: nat, j: nat, ledger: Ledger)
    requires WellFormed(a, ledger) && WellFormed(b, ledger)
    requires i < |a| && j < |b| && a[i].id == b[j].id
    ensures i == j && a[..i + 1] == b[..j + 1]
  {
    WellFormedAt(a, i, ledger);
    WellFormedAt(b, j, ledger);
    assert a[i].body == b[j].body && i == j;
    if i > 0 {
      assert HeadOf(a[..i]) == a[i - 1].id && HeadOf(b[..j]) == b[j - 1].id;
      HeadFixesHistory(a, b, i - 1, j - 1, ledger);
    }
    assert a[..i + 1] == a[..i] + [a[i]] && b[..j + 1] == b[..j] + [b[j]];
  }

  // ---------------------------------------------------------------- committing

  function Parents(log: Log, path: Path, base: RevisionId): seq<RevisionId> {
    var prior := LatestOf(log, path);
    (if prior.Some? then [prior.value.id] else [])
    + (if base != NoRevision && (prior.None? || prior.value.id != base) && Named(log, base) then [base] else [])
  }

  /** The log after a commit, and the revision it answers with. */
  function Committed(log: Log, ledger: Ledger, record: Record, proposal: Version, base: RevisionId)
    : (Log, Option<Revision>)
  {
    var prior := LatestOf(log, record.content.path);
    if prior.Some? && prior.value.body.entry.version == record.version then (log, prior)
    else if SequenceOf(log) + 1 > MAX_COUNTER || !ValidRecord(record, ledger.physical) then (log, None)
    else
      var body := RevisionBody(ledger.space, ledger.authority, SequenceOf(log) + 1, HeadOf(log),
                               Parents(log, record.content.path, base), record, proposal);
      var r := Revision(RevisionDigest(body), body);
      (log + [r], Some(r))
  }

  lemma {:induction false} LatestIsMember(log: Log, path: Path)
    ensures LatestOf(log, path).Some? ==>
              LatestOf(log, path).value in log && LatestOf(log, path).value.Path() == path
              && Named(log, LatestOf(log, path).value.id)
    ensures LatestOf(log, path).None? ==> forall r | r in log :: r.Path() != path
  {
    if log != [] && log[|log| - 1].Path() != path {
      LatestIsMember(log[..|log| - 1], path);
      assert log == log[..|log| - 1] + [log[|log| - 1]];
    }
  }

  lemma LatestEntry(log: Log, ledger: Ledger, path: Path)
    requires WellFormed(log, ledger) && LatestOf(log, path).Some?
    ensures var e := LatestOf(log, path).value.body.entry;
            e.content.path == path && ValidRecord(e, ledger.physical)
  {
    LatestIsMember(log, path);
    var i :| 0 <= i < |log| && log[i] == LatestOf(log, path).value;
    WellFormedAt(log, i, ledger);
  }

  lemma CommitLinks(log: Log, ledger: Ledger, record: Record, proposal: Version, base: RevisionId)
    requires SequenceOf(log) == |log|
    ensures var (log', r) := Committed(log, ledger, record, proposal, base);
            log' != log ==> r.Some? && log' == log + [r.value] && Linked(log, r.value, ledger)
                            && r.value.body.entry == record
  {
    LatestIsMember(log, record.content.path);
  }

  lemma LatestAfterAppend(log: Log, r: Revision, path: Path)
    ensures LatestOf(log + [r], path) == if r.Path() == path then Some(r) else LatestOf(log, path)
  {
    assert (log + [r])[..|log|] == log;
  }

  /** A commit of any record keeps the log well-formed, appends at most one revision,
      and answers with the newest revision of the record's path, holding exactly that
      version; no other path's newest revision changes. */
  lemma CommitKeepsWellFormed(log: Log, ledger: Ledger, record: Record, proposal: Version, base: RevisionId)
    requires WellFormed(log, ledger)
    requires record.version == VersionOf(record.content)
    ensures var (log', r) := Committed(log, ledger, record, proposal, base);
            && WellFormed(log', ledger)
            && log <= log' && |log'| <= |log| + 1
            && (r.None? ==> log' == log)
            && (r.Some? ==> LatestOf(log', record.content.path) == r && r.value.body.entry == record)
            && (forall p | p != record.content.path :: LatestOf(log', p) == LatestOf(log, p))
  {
    var (log', r) := Committed(log, ledger, record, proposal, base);
    if log' == log {
      if r.Some? { LatestEntry(log, ledger, record.content.path); }
    } else {
      SequencesCount(log, ledger);
      CommitLinks(log, ledger, record, proposal, base);
      WellFormedExtend(log, r.value, ledger);
      forall p { LatestAfterAppend(log, r.value, p); }
    }
  }

  /** A valid record whose version is new to its path is appended. */
  lemma NewRecordIsAppended(log: Log, ledger: Ledger, record: Record, proposal: Version, base: RevisionId)
    requires WellFormed(log, ledger) && |log| < MAX_COUNTER && ValidRecord(record, ledger.physical)
    requires var prior := LatestOf(log, record.content.path);
             prior.Some? ==> prior.value.body.entry.version != record.version
    ensures var log' := Committed(log, ledger, record, proposal, base).0;
            && WellFormed(log', ledger) && log <= log' && |log'| == |log| + 1 && log'[|log|].body.entry == record
  {
    SequencesCount(log, ledger);
    CommitKeepsWellFormed(log, ledger, record, proposal, base);
  }

  // ---------------------------------------------------------------- selecting pages

  /** No revision in `log[i + 1..through]` has the path of `log[i]`. */
  predicate Newest(log: Log, i: nat, through: nat)
    requires i < through <= |log|
  {
    forall j | i < j < through :: log[j].Path() != log[i].Path()
  }

  /** The rows of a page query: everything in `(after, through]`, or with `history`
      off only the newest revision of each path as of `through`. */
  function Select(log: Log, history: bool, after: nat, through: nat): seq<Revision>
    requires after <= through <= |log|
    decreases through - after
  {
    if after == through then []
    else (if history || Newest(log, after, through) then [log[after]] else [])
         + Select(log, history, after + 1, through)
  }

  /** How many leading rows fit the remaining slots and bytes. */
  function Fit(rows: seq<Revision>, weigh: Revision -> nat, slots: nat, room: nat): (k: nat)
    ensures k <= |rows| && k <= slots
  {
    if rows == [] || slots == 0 || weigh(rows[0]) > room then 0
    else 1 + Fit(rows[1..], weigh, slots - 1, room - weigh(rows[0]))
  }

  function Weight(rows: seq<Revision>, weigh: Revision -> nat): nat {
    if rows == [] then 0 else Weight(rows[..|rows| - 1], weigh) + weigh(rows[|rows| - 1])
  }

  /** One page of `changes`; a `through` of 0 asks for the current head. */
  function ChangesPage(log: Log, ledger: Ledger, sizes: Sizes,
                       after: int, through: int, history: bool): Option<Page>
  {
    var limit := if through == 0 then |log| else through;
    if after < 0 || after > limit || limit > |log| then None
    else
      var rows := Select(log, history, after, limit);
      var k := Fit(rows, sizes.Of(history), PAGE_ENTRIES, PAGE_BYTES);
      var last := if k == 0 then after else rows[k - 1].body.sequence;
      var limited := k < |rows| && k < PAGE_ENTRIES;
      var more := limited || (k == PAGE_ENTRIES && last < limit);
      Some(Page(ledger.space, ledger.authority, rows[..k], limit, if more then last
                else limit, more, sizes.page(rows[..k])))
  }

  // ---------------------------------------------------------------- accepting pages

  function AcceptEntries(log: Log, entries: seq<Revision>, ledger: Ledger): Option<Log>
    decreases |entries|
  {
    if entries == [] then Some(log)
    else if Linked(log, entries[0], ledger)
    then AcceptEntries(log + [entries[0]], entries[1..], ledger)
    else None
  }

  function Counter(n: int): int {
    if 0 <= n <= MAX_COUNTER then n else -1
  }

  predicate PageShape(log: Log, page: Page, ledger: Ledger) {
    var sequence, next, through := SequenceOf(log), Counter(page.next), Counter(page.through);
    && page.space == ledger.space && page.authority == ledger.authority
    && sequence <= next <= through
    && (if page.more then sequence < next < through else next == through)
    && |page.entries| <= PAGE_ENTRIES && page.bytes <= ACCEPTED_BYTES
  }

  /** The log after importing a page, or None when the page is refused as a whole. */
  function Accepted(log: Log, page: Page, ledger: Ledger): Option<Log> {
    if !PageShape(log, page, ledger) then None
    else
      var after := AcceptEntries(log, page.entries, ledger);
      if after.None? || SequenceOf(after.value) != Counter(page.next) then None else after
  }

  lemma {:induction false} AcceptEntriesKeepsWellFormed(log: Log, entries: seq<Revision>, ledger: Ledger)
    requires WellFormed(log, ledger)
    ensures var r := AcceptEntries(log, entries, ledger);
            r.Some? ==> r.value == log + entries && WellFormed(r.value, ledger)
    decreases |entries|
  {
    if entries == [] {
      assert log + entries == log;
    } else if Linked(log, entries[0], ledger) {
      WellFormedExtend(log, entries[0], ledger);
      AcceptEntriesKeepsWellFormed(log + [entries[0]], entries[1..], ledger);
      assert log + [entries[0]] + entries[1..] == log + entries;
    }
  }

  lemma {:induction false} AcceptEntriesTakesHistory(log: Log, n: nat, m: nat, ledger: Ledger)
    requires WellFormed(log, ledger) && n <= m <= |log|
    ensures AcceptEntries(log[..n], log[n..m], ledger) == Some(log[..m])
    decreases m - n
  {
    if n < m {
      WellFormedAt(log, n, ledger);
      assert log[..n] + [log[n]] == log[..n + 1];
      assert log[n..m][0] == log[n] && log[n..m][1..] == log[n + 1..m];
      AcceptEntriesTakesHistory(log, n + 1, m, ledger);
    }
  }

  /** Whatever page arrives, forged ones included: an accepted page extends the log by
      exactly its entries, ends at the page's `next`, and keeps the log well-formed. */
  lemma AcceptKeepsWellFormed(log: Log, page: Page, ledger: Ledger)
    requires WellFormed(log, ledger)
    ensures var r := Accepted(log, page, ledger);
            r.Some? ==> r.value == log + page.entries && |r.value| == page.next && WellFormed(r.value, ledger)
  {
    AcceptEntriesKeepsWellFormed(log, page.entries, ledger);
    var r := Accepted(log, page, ledger);
    if r.Some? {
      SequencesCount(r.value, ledger);
    }
  }
}
