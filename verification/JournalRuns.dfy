/** Runs of an authority and a mirror over a network that may delay, repeat, reorder
    or drop journal pages. */
module JournalRuns {
  import opened Records
  import opened Paths
  import opened NamespaceJournal
  import opened JournalPages

  datatype State = State(
    epoch: string, log: Log,              // the authority
    followed: string, mirror: Log,        // the mirror
    pages: set<Page>,                     // every page ever served
    epochs: set<string>)                  // every epoch ever used

  datatype Step =
    | Commit(record: Record, proposal: Version, base: RevisionId)
    | Serve(after: int, through: int)
    | Deliver(page: Page)
    | Restore(epoch: string, log: Log)    // the same host comes back as a new replica
    | Rebind                              // the mirror notices and starts over

  datatype World = World(space: string, physical: Path -> bool, sizes: Sizes) {
    function Ledger(epoch: string): Ledger {
      NamespaceJournal.Ledger.Ledger(space, epoch, physical)
    }
  }

  predicate Enabled(w: World, s: State, step: Step) {
    match step
    case Commit(record, _, _) => record.version == VersionOf(record.content)
    case Serve(_, _) => true
    case Deliver(page) => page in s.pages
    case Restore(epoch, log) => epoch !in s.epochs && WellFormed(log, w.Ledger(epoch))
    case Rebind => s.followed != s.epoch
  }

  function Next(w: World, s: State, step: Step): State {
    match step
    case Commit(record, proposal, base) =>
      s.(log := Committed(s.log, w.Ledger(s.epoch), record, proposal, base).0)
    case Serve(after, through) =>
      var p := ChangesPage(s.log, w.Ledger(s.epoch), w.sizes, after, through, true);
      if p.Some? then s.(pages := s.pages + {p.value}) else s
    case Deliver(page) =>
      var r := Accepted(s.mirror, page, w.Ledger(s.followed));
      if r.Some? then s.(mirror := r.value) else s
    case Restore(epoch, log) => s.(epoch := epoch, log := log, epochs := s.epochs + {epoch})
    case Rebind => s.(followed := s.epoch, mirror := [])
  }

  predicate Start(s: State) {
    s.log == [] && s.mirror == [] && s.pages == {} && s.followed == s.epoch && s.epochs == {s.epoch}
  }

  predicate Inv(w: World, s: State) {
    && WellFormed(s.log, w.Ledger(s.epoch)) && WellFormed(s.mirror, w.Ledger(s.followed))
    && s.epoch in s.epochs && s.followed in s.epochs
    && (forall p | p in s.pages :: p.authority in s.epochs)
    && (forall p, r | p in s.pages && p.authority == s.epoch && r in p.entries :: r in s.log)
    && (s.followed == s.epoch ==> s.mirror <= s.log)
  }

  lemma SelectedAreRows(log: Log, ledger: Ledger, sizes: Sizes, after: int, through: int)
    ensures var p := ChangesPage(log, ledger, sizes, after, through, true);
            p.Some? ==> p.value.authority == ledger.authority && forall r | r in p.value.entries :: r in log
  {
    var p := ChangesPage(log, ledger, sizes, after, through, true);
    if p.Some? {
      var limit := if through == 0 then |log| else through;
      SelectHistory(log, after, limit);
    }
  }

  /** A log whose head is a revision of another, both well-formed, is a prefix of it. */
  lemma HeadInLogIsPrefix(m: Log, log: Log, ledger: Ledger)
    requires WellFormed(m, ledger) && WellFormed(log, ledger)
    requires m == [] || m[|m| - 1] in log
    ensures m <= log
  {
    if m != [] {
      var j :| 0 <= j < |log| && log[j] == m[|m| - 1];
      HeadFixesHistory(m, log, |m| - 1, j, ledger);
      assert m[..|m|] == m;
    }
  }

  lemma DeliverKeepsInv(w: World, s: State, page: Page)
    requires Inv(w, s) && page in s.pages
    ensures Inv(w, Next(w, s, Deliver(page)))
  {
    var ledger := w.Ledger(s.followed);
    AcceptKeepsWellFormed(s.mirror, page, ledger);
    var r := Accepted(s.mirror, page, ledger);
    if r.Some? && s.followed == s.epoch {
      if page.entries != [] {
        assert r.value[|r.value| - 1] == page.entries[|page.entries| - 1];
        assert page.entries[|page.entries| - 1] in page.entries;
        HeadInLogIsPrefix(r.value, s.log, ledger);
      } else {
        assert r.value == s.mirror;
      }
    }
  }

  lemma StepKeepsInv(w: World, s: State, step: Step)
    requires Inv(w, s) && Enabled(w, s, step)
    ensures Inv(w, Next(w, s, step))
  {
    match step
    case Commit(record, proposal, base) =>
      CommitKeepsWellFormed(s.log, w.Ledger(s.epoch), record, proposal, base);
    case Serve(after, through) =>
      SelectedAreRows(s.log, w.Ledger(s.epoch), w.sizes, after, through);
    case Deliver(page) =>
      DeliverKeepsInv(w, s, page);
    case Restore(_, _) =>
    case Rebind =>
  }

  ghost predicate Run(w: World, states: seq<State>, steps: seq<Step>) {
    && |states| == |steps| + 1 && Start(states[0])
    && forall i | 0 <= i < |steps| ::
         Enabled(w, states[i], steps[i]) && states[i + 1] == Next(w, states[i], steps[i])
  }

  /** In every run both logs stay well-formed, and whenever the mirror follows the
      authority's current epoch its log is a prefix of the authority's. */
  lemma {:induction false} MirrorIsAlwaysAPrefix(w: World, states: seq<State>, steps: seq<Step>)
    requires Run(w, states, steps)
    ensures Inv(w, states[|steps|])
    decreases |steps|
  {
    var n := |steps|;
    if n > 0 {
      MirrorIsAlwaysAPrefix(w, states[..n], steps[..n - 1]);
      StepKeepsInv(w, states[n - 1], steps[n - 1]);
    }
  }

  function AcceptAll(log: Log, ledger: Ledger, pages: seq<Page>): Option<Log>
    decreases |pages|
  {
    if pages == [] then Some(log)
    else
      var r := Accepted(log, pages[0], ledger);
      if r.None? then None else AcceptAll(r.value, ledger, pages[1..])
  }

  lemma FirstPage(log: Log, ledger: Ledger, sizes: Sizes, n: nat, through: nat, page: Page)
    requires WellFormed(log, ledger) && n <= through <= |log| && (through == 0 ==> log == []) && Modest(sizes)
    requires ChangesPage(log, ledger, sizes, n, through, true) == Some(page)
    ensures n <= page.next <= through && (page.more ==> n < page.next) && (!page.more ==> page.next == through)
    ensures Accepted(log[..n], page, ledger) == Some(log[..page.next])
  {
    MirrorTakesPage(log, ledger, sizes, n, through);
    SequencesCount(log, ledger);
    if through > 0 {
      PageCut(log, ledger, sizes, true, n, through);
    }
  }

  lemma AcceptRest(log: Log, mid: Log, end: Log, ledger: Ledger, pages: seq<Page>)
    requires pages != [] && Accepted(log, pages[0], ledger) == Some(mid)
    requires AcceptAll(mid, ledger, pages[1..]) == Some(end)
    ensures AcceptAll(log, ledger, pages) == Some(end)
  {
  }

  /** One accepted page, and the rest taken from a log that has grown since. */
  lemma AcceptThenRest(log: Log, grown: Log, n: nat, next: nat, through: nat, ledger: Ledger, pages: seq<Page>)
    requires n <= next <= through <= |log| && log <= grown && pages != []
    requires Accepted(log[..n], pages[0], ledger) == Some(log[..next])
    requires AcceptAll(grown[..next], ledger, pages[1..]) == Some(grown[..through])
    ensures AcceptAll(log[..n], ledger, pages) == Some(log[..through])
  {
    assert grown[..next] == log[..next] && grown[..through] == log[..through];
    AcceptRest(log[..n], log[..next], log[..through], ledger, pages);
  }

  /** Paging history from its own head, a mirror never refuses a page, needs at most one
      page per missing revision and one more, and ends with the authority's log as it
      was at the first request, however much is committed meanwhile. */
  lemma {:induction false} PagingReachesThrough(logs: seq<Log>, ledger: Ledger, sizes: Sizes, n: nat, through: nat,
                                                pages: seq<Page>)
    requires PageRun(logs, ledger, sizes, true, n, through, pages) && Modest(sizes)
    ensures AcceptAll(logs[0][..n], ledger, pages) == Some(logs[0][..through])
    ensures |pages| <= through - n + 1
    decreases |logs|
  {
    FirstPage(logs[0], ledger, sizes, n, through, pages[0]);
    if pages[0].more {
      PagingReachesThrough(logs[1..], ledger, sizes, pages[0].next, through, pages[1..]);
      AcceptThenRest(logs[0], logs[1], n, pages[0].next, through, ledger, pages);
    } else {
      AcceptThenRest(logs[0], logs[0], n, through, through, ledger, pages);
    }
  }
}
