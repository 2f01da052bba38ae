/** The synchronizer as an object: its callbacks update the shared fields, and each of them
    is one step of the round. */
module RoundStore {
  import opened Records
  import Paths
  import opened NamespaceJournal
  import opened JournalPages
  import M = MirrorChanges
  import R = Replicas
  import C = Cursors

  const ENTRY_LIMIT: nat := 250000

  datatype Line = Line(item: C.Item, record: Record)

  /** A page of host changes as it arrives; nothing about it is trusted. */
  datatype ChangesReply = ChangesReply(replica: string, container: string, next: int, through: int, more: bool,
                                       lines: seq<Line>)

  function ItemsOf(lines: seq<Line>): seq<C.Item> {
    seq(|lines|, k requires 0 <= k < |lines| => lines[k].item)
  }

  /** The sender has a replica and a container of its own, those it described. */
  predicate FromRemote(id: string, remoteId: string, remoteContainer: string, reply: ChangesReply) {
    && reply.replica != "" && reply.container != "" && reply.replica != id
    && (remoteId != "" ==> remoteId == reply.replica && remoteContainer == reply.container)
  }

  predicate Framed(mode: C.Mode, reply: ChangesReply)
    requires mode.Paging?
  {
    && mode.after <= reply.next <= reply.through && (mode.upper > 0 ==> mode.upper == reply.through)
    && (reply.more ==> reply.next > mode.after)
  }

  /** The sequence before the `k`-th entry's. */
  function Previous(lines: seq<Line>, k: nat, after: int): int
    requires k <= |lines|
  {
    if k > 0 && lines[k - 1].item.Change? then lines[k - 1].item.position + 1 else after
  }

  /** A valid record whose sequence rises from the entry before to at most `next`. */
  predicate LineOk(lines: seq<Line>, k: nat, after: int, next: int, physical: Path -> bool)
    requires k < |lines|
  {
    && Paths.ValidRecord(lines[k].record, physical) && lines[k].item.Change?
    && Previous(lines, k, after) < lines[k].item.position + 1 <= next
  }

  /** All of them are, and a round never holds more than the limit. */
  predicate Listed(known: nat, mode: C.Mode, reply: ChangesReply, physical: Path -> bool)
    requires mode.Paging?
  {
    && (forall k | 0 <= k < |reply.lines| :: LineOk(reply.lines, k, mode.after, reply.next, physical))
    && (reply.lines == [] || known + |reply.lines| <= ENTRY_LIMIT)
  }

  /** The page is the one the host has. */
  ghost predicate Genuine(s: C.State, reply: ChangesReply)
    requires s.round.mode.Paging?
  {
    && !s.moved && reply.through == C.Limit(s) && s.round.mode.after <= reply.next <= reply.through
    && ItemsOf(reply.lines) == C.ChangesIn(s.host, s.round.mode.after, reply.next, C.Limit(s))
    && reply.more == (reply.next < reply.through) && (reply.more ==> reply.next > s.round.mode.after)
  }

  /** A host's page fails only for invalid records or for too many entries. */
  lemma GenuineIsListed(s: C.State, reply: ChangesReply, physical: Path -> bool)
    requires s.round.mode.Paging? && Genuine(s, reply) && C.Limit(s) <= |s.host|
    requires forall k | 0 <= k < |reply.lines| :: Paths.ValidRecord(reply.lines[k].record, physical)
    requires |s.round.entries| + |reply.lines| <= ENTRY_LIMIT
    ensures Framed(s.round.mode, reply) && Listed(|s.round.entries|, s.round.mode, reply, physical)
  {
    var after := s.round.mode.after;
    ChangesRise(s.host, after, reply.next, C.Limit(s));
    forall k | 0 <= k < |reply.lines| ensures LineOk(reply.lines, k, after, reply.next, physical) {
      assert ItemsOf(reply.lines)[k] == reply.lines[k].item;
      if k > 0 { assert ItemsOf(reply.lines)[k - 1] == reply.lines[k - 1].item; }
    }
  }

  /** The round once the page was taken. */
  function WithPage(s: C.State, reply: ChangesReply): C.State
    requires reply.through >= 0 && reply.next >= 0
  {
    C.Saved(s).(round := s.round.(entries := s.round.entries + ItemsOf(reply.lines), through := reply.through,
                                  mode := if reply.more then C.Paging(reply.next, reply.through) else C.Importing))
  }

  lemma GenuineIsAStep(s: C.State, reply: ChangesReply)
    requires s.round.mode.Paging? && Genuine(s, reply)
    ensures C.Stepped(s, C.PageArrived(reply.next), WithPage(s, reply))
  {
  }

  lemma RefusalStops(s: C.State, framed: bool)
    requires s.round.mode.Paging? && C.Sound(s)
    ensures C.Stepped(s, C.Stop, (if framed then C.Saved(s) else s).(round := C.NO_ROUND))
  {
  }

  /** The entries' sequences rise from `after` to at most `next`. */
  predicate Rising(items: seq<C.Item>, after: int, next: int) {
    && (forall k | 0 <= k < |items| :: items[k].Change? && after <= items[k].position < next)
    && (forall k | 0 < k < |items| :: items[k - 1].position < items[k].position)
  }

  /** The table's rows, as the round sees them. */
  ghost predicate TableOf(table: seq<R.Row>, rows: map<Path, C.LocalRow>) {
    && M.InSequence(table)
    && (forall k | 0 <= k < |table| :: table[k].entry.content.path in rows
                                       && rows[table[k].entry.content.path] == RowOf(table[k]))
    && (forall p | p in rows :: exists k :: 0 <= k < |table| && table[k].entry.content.path == p)
  }

  function RowOf(row: R.Row): C.LocalRow {
    C.LocalRow(row.entry.version, row.sequence, M.Proposed(row))
  }

  function ItemOf(row: R.Row): C.Item {
    C.Proposal(row.entry.content.path, row.entry.version, row.sequence)
  }

  class Synchronizer {
    // the host, as far as this round can observe it
    ghost var host: seq<Path>
    ghost var moved: bool
    ghost var completed: set<(Path, Version)>
    ghost var merged: set<nat>
    // the mirror, and what it knows of its peer
    const id: string
    const physical: Path -> bool
    var remoteId: string
    var remoteContainer: string
    // the mirror's database
    var rows: map<Path, C.LocalRow>
    var sequence: nat
    var savedPulled: nat
    var savedPushed: nat
    var bootstrapping: bool
    var round: C.Round

    ghost function View(): C.State
      reads this
    {
      C.State(host, moved, completed, rows, sequence, merged, savedPulled, savedPushed, bootstrapping, round)
    }

    constructor (host: seq<Path>, id: string, physical: Path -> bool)
      ensures C.Initial(View()) && this.host == host
    {
      this.id, this.physical, remoteId, remoteContainer := id, physical, "", "";
      this.host, moved, completed, merged := host, false, {}, {};
      rows, sequence, savedPulled, savedPushed, bootstrapping := map[], 0, 0, 0, true;
      round := C.NO_ROUND;
    }

    method Start()
      requires round.mode == C.Idle
      modifies this`round
      ensures C.Stepped(old(View()), C.Begin, View())
    {
      round := C.NO_ROUND;
      round := round.(mode := C.Describing);
    }

    method Finish()
      requires round.mode != C.Idle
      modifies this`round
      ensures C.Stepped(old(View()), C.Stop, View())
    {
      round := C.NO_ROUND;
    }

    /** The database keeps the larger cursor. */
    method SavePeerState()
      modifies this`savedPulled, this`savedPushed
      ensures View() == C.Saved(old(View()))
    {
      if round.pulled > savedPulled {
        savedPulled := round.pulled;
      }
      if round.pushed > savedPushed {
        savedPushed := round.pushed;
      }
    }

    /** Starts a fresh bounded snapshot from the pull cursor. */
    method Page()
      modifies this`round
      ensures round == C.Restarted(old(round))
    {
      round := round.(entries := [], index := 0);
      round := round.(mode := C.Paging(round.pulled, 0));
    }

    /** The host described itself: a restored one is bound anew and its cursors start over. */
    method Describe(ghost restored: seq<Path>, isRestored: bool)
      requires round.mode == C.Describing && isRestored == moved
      modifies this
      ensures C.Stepped(old(View()), C.Described(restored), View())
    {
      if isRestored {
        host, moved, merged, completed := restored, false, {}, {};
        savedPulled, savedPushed := 0, 0;
      }
      round := round.(pulled := savedPulled, pushed := savedPushed, early := false);
      Page();
    }

    method CheckPage(reply: ChangesReply) returns (fits: bool)
      requires round.mode.Paging?
      ensures fits <==> FromRemote(id, remoteId, remoteContainer, reply) && Framed(round.mode, reply)
    {
      var after, upper := round.mode.after, round.mode.upper;
      fits := !(reply.replica == "" || reply.container == "" || reply.replica == id
                || (remoteId != "" && (remoteId != reply.replica || remoteContainer != reply.container))
                || reply.next < after || reply.next > reply.through || (upper > 0 && upper != reply.through)
                || (reply.more && reply.next <= after));
    }

    /** A page of changes: a reply that does not fit ends the round; any other is taken. */
    method TakePage(reply: ChangesReply) returns (ok: bool)
      requires round.mode.Paging?
      modifies this
      ensures var framed := FromRemote(id, old(remoteId), old(remoteContainer), reply)
              && Framed(old(round).mode, reply);
              && (ok <==> framed && Listed(|old(round).entries|, old(round).mode, reply, physical))
              && (!ok ==> View() == (if framed then C.Saved(old(View())) else old(View())).(round := C.NO_ROUND))
      ensures ok ==> reply.through >= 0 && reply.next >= 0 && View() == WithPage(old(View()), reply)
      ensures ok ==> remoteId == reply.replica && remoteContainer == reply.container
    {
      ok := CheckPage(reply);
      if !ok {
        Finish();
        return;
      }
      remoteId, remoteContainer := reply.replica, reply.container;
      SavePeerState();
      ok := ReadLines(reply, round.mode.after);
      if !ok {
        Finish();
        return;
      }
      round := round.(through := reply.through);
      round := round.(mode := if reply.more then C.Paging(reply.next, reply.through) else C.Importing);
    }

    /** Taken or not, it is a step of the round, if it is the page the host has or is refused. */
    method ReceivePage(reply: ChangesReply) returns (ok: bool)
      requires round.mode.Paging?
      modifies this
      ensures ok <==> && FromRemote(id, old(remoteId), old(remoteContainer), reply) && Framed(old(round).mode, reply)
                      && Listed(|old(round).entries|, old(round).mode, reply, physical)
      ensures ok ==> reply.through >= 0 && reply.next >= 0 && View() == WithPage(old(View()), reply)
      ensures ok && Genuine(old(View()), reply) ==> C.Stepped(old(View()), C.PageArrived(reply.next), View())
      ensures !ok && C.Sound(old(View())) ==> C.Stepped(old(View()), C.Stop, View())
    {
      if C.Sound(View()) {
        RefusalStops(View(), true);
        RefusalStops(View(), false);
      }
      if Genuine(View(), reply) { GenuineIsAStep(View(), reply); }
      ok := TakePage(reply);
    }

    /** The entries are taken one after the other, until one does not fit. */
    method ReadLines(reply: ChangesReply, after: int) returns (ok: bool)
      requires round.mode.Paging? && after == round.mode.after
      modifies this`round
      ensures ok <==> Listed(|old(round).entries|, old(round).mode, reply, physical)
      ensures round == old(round).(entries := round.entries)
      ensures ok ==> round.entries == old(round).entries + ItemsOf(reply.lines)
    {
      var previous, k := after, 0;
      while k < |reply.lines|
        invariant 0 <= k <= |reply.lines| && previous == Previous(reply.lines, k, after)
        invariant round == old(round).(entries := old(round).entries + ItemsOf(reply.lines[..k]))
        invariant forall i | 0 <= i < k :: LineOk(reply.lines, i, after, reply.next, physical)
        invariant k > 0 ==> |round.entries| <= ENTRY_LIMIT
      {
        var line := reply.lines[k];
        if !Paths.ValidRecord(line.record, physical) || !line.item.Change? || line.item.position + 1 <= previous
          || line.item.position + 1 > reply.next || |round.entries| >= ENTRY_LIMIT {
          assert |round.entries| == |old(round).entries| + k;
          assert !LineOk(reply.lines, k, after, reply.next, physical) || |round.entries| >= ENTRY_LIMIT;
          return false;
        }
        previous := line.item.position + 1;
        assert ItemsOf(reply.lines[..k + 1]) == ItemsOf(reply.lines[..k]) + [line.item];
        round := round.(entries := round.entries + [line.item]);
        k := k + 1;
      }
      assert reply.lines[..|reply.lines|] == reply.lines;
      return true;
    }

    /** Collects the proposals after the push cursor, page by page, and lists them. */
    method ListOutgoing(table: M.Table) returns (listing: seq<C.Item>)
      requires Tabled(table) && round.pushed <= sequence
      ensures C.ListsPending(View(), listing)
    {
      var outgoing, upper := table.CollectOutgoing(round.pushed);
      listing := [];
      for k := 0 to |outgoing|
        invariant |listing| == k && forall i | 0 <= i < k :: listing[i] == ItemOf(outgoing[i])
      {
        listing := listing + [ItemOf(outgoing[k])];
      }
      ProposalsListPending(View(), table.rows, outgoing, listing);
    }

    /** The table holds the rows this round works on, and each fits a page. */
    ghost predicate Tabled(table: M.Table)
      reads this, table
    {
      TableOf(table.rows, rows) && table.sequence == sequence
        && forall r | r in table.rows :: table.weigh(r) <= PAGE_BYTES
    }

    /** Lists the local proposals; a mirror being filled advertises none. */
    method AnnounceLocal(table: M.Table, push: bool)
      requires !bootstrapping ==> Tabled(table) && round.pushed <= sequence
      modifies this`round
      ensures C.Announces(old(View()), View(), push)
    {
      round := round.(outgoing := [], pushThrough := round.pushed);
      if !bootstrapping {
        var listing := ListOutgoing(table);
        round := round.(outgoing := listing, pushThrough := sequence);
      }
      round := round.(mode := C.Announcing(push));
    }

    method JournalImported(table: M.Table)
      requires round.mode == C.Importing && (!bootstrapping ==> Tabled(table) && round.pushed <= sequence)
      modifies this
      ensures C.Stepped(old(View()), C.Imported, View())
    {
      AnnounceLocal(table, false);
    }

    /** The announcement was acknowledged: the entries are put in order and the pull, or
        the push, begins. */
    method AnnouncementDone(ordered: seq<C.Item>)
      requires round.mode.Announcing?
      requires multiset(ordered) == multiset(if round.mode.push then round.outgoing else round.entries)
      modifies this
      ensures C.Stepped(old(View()), C.Announced(ordered), View())
    {
      round := round.(entries := ordered, index := 0);
      if round.mode.push {
        round := round.(through := round.pushThrough, mode := C.Pushing);
      } else {
        round := round.(mode := C.Pulling);
      }
    }

    method SaveRow(path: Path, version: Version, pending: bool)
      modifies this`rows, this`sequence
      ensures View() == C.WithRow(old(View()), path, C.SavedRow(old(View()), path, version, pending))
    {
      if path in rows && rows[path].version == version {
        var kept := rows[path].sequence;
        rows := rows[path := C.LocalRow(version, kept, pending)];
        if kept > sequence {
          sequence := kept;
        }
      } else {
        sequence := sequence + 1;
        rows := rows[path := C.LocalRow(version, sequence, pending)];
      }
    }

    /** A merge saved a conflict copy. */
    method SaveCopy(path: Path, version: Version)
      requires round.mode == C.Pulling
      modifies this`rows, this`sequence
      ensures C.Stepped(old(View()), C.Copied(path, version), View())
    {
      SaveRow(path, version, true);
    }

    /** One entry was merged. */
    method PullOne(path: Path, effect: C.Effect)
      requires C.Enabled(View(), C.Merged(effect)) && path == host[round.entries[round.index].position]
      modifies this
      ensures C.Stepped(old(View()), C.Merged(effect), View())
    {
      merged := merged + {round.entries[round.index].position};
      match effect {
        case TakesHost(version) => SaveRow(path, version, false);
        case KeepsEdit =>
        case ProposesFolder(version) => SaveRow(path, version, true);
      }
      round := round.(index := round.index + 1);
    }

    /** The last entry was merged: only now does the pull cursor move. */
    method PullDone(table: M.Table)
      requires C.Enabled(View(), C.PullEnds) && Tabled(table) && round.pushed <= sequence
      modifies this
      ensures C.Stepped(old(View()), C.PullEnds, View())
    {
      var caughtUp := round.through == round.pulled && round.entries == [];
      round := round.(pulled := round.through);
      SavePeerState();
      round := round.(entries := [], index := 0);
      if bootstrapping && !caughtUp {
        Page();
      } else {
        bootstrapping := false;
        AnnounceLocal(table, true);
      }
    }

    method BeginNewUploads(items: seq<C.Item>)
      requires C.Enabled(View(), C.EarlyPush(items))
      modifies this
      ensures C.Stepped(old(View()), C.EarlyPush(items), View())
    {
      round := round.(early := true, entries := items, index := 0, mode := C.Pushing);
    }

    method PushOne()
      requires C.Enabled(View(), C.Completed)
      modifies this
      ensures C.Stepped(old(View()), C.Completed, View())
    {
      completed := completed + {(round.entries[round.index].path, round.entries[round.index].version)};
      round := round.(index := round.index + 1);
    }

    method AcknowledgeSnapshot()
      requires C.Enabled(View(), C.Acknowledged)
      modifies this
      ensures C.Stepped(old(View()), C.Acknowledged, View())
    {
      round := round.(acknowledged := true);
    }

    /** Everything was sent.  An early push leaves both cursors where they are. */
    method PushDone()
      requires C.Enabled(View(), C.PushEnds)
      modifies this
      ensures C.Stepped(old(View()), C.PushEnds, View())
    {
      if round.early {
        round := round.(early := false);
        Page();
        return;
      }
      round := round.(pushed := round.through);
      SavePeerState();
      if round.entries != [] {
        Page();
      } else {
        round := C.NO_ROUND;
      }
    }

    method RefreshBetweenChunks()
      requires C.Enabled(View(), C.Refreshed)
      modifies this
      ensures C.Stepped(old(View()), C.Refreshed, View())
    {
      round := round.(outgoing := [], early := false);
      Page();
    }
  }

  // ---------------------------------------------------------------- the mirror's proposals

  lemma {:induction false} IsListed(rows: seq<R.Row>, after: nat, through: nat, k: nat)
    requires k < |rows| && after < rows[k].sequence <= through && M.Proposed(rows[k])
    ensures rows[k] in M.Proposals(M.InRange(rows, after, through))
  {
    var rest := M.InRange(rows[1..], after, through);
    if k > 0 {
      IsListed(rows[1..], after, through, k - 1);
      if after < rows[0].sequence <= through {
        assert M.InRange(rows, after, through) == [rows[0]] + rest && ([rows[0]] + rest)[1..] == rest;
      } else {
        assert M.InRange(rows, after, through) == [] + rest == rest;
      }
    }
  }

  lemma {:induction false} AreProposals(rows: seq<R.Row>)
    ensures forall r | r in M.Proposals(rows) :: r in rows && M.Proposed(r)
  {
    if rows != [] { AreProposals(rows[1..]); }
  }

  lemma ListedIsPending(s: C.State, table: seq<R.Row>, r: R.Row)
    requires TableOf(table, s.rows) && r in M.Proposals(M.InRange(table, s.round.pushed, s.sequence))
    ensures r.entry.content.path in s.rows
    ensures s.rows[r.entry.content.path] == C.LocalRow(r.entry.version, r.sequence, true)
    ensures s.round.pushed < r.sequence <= s.sequence
  {
    AreProposals(M.InRange(table, s.round.pushed, s.sequence));
    M.RangeIsInside(table, s.round.pushed, s.sequence);
    var k :| 0 <= k < |table| && table[k] == r;
  }

  lemma PendingIsListed(s: C.State, table: seq<R.Row>, p: Path) returns (r: R.Row)
    requires TableOf(table, s.rows) && p in s.rows && s.rows[p].pending
    requires s.round.pushed < s.rows[p].sequence <= s.sequence
    ensures r in M.Proposals(M.InRange(table, s.round.pushed, s.sequence))
    ensures ItemOf(r) == C.Proposal(p, s.rows[p].version, s.rows[p].sequence)
  {
    var k :| 0 <= k < |table| && table[k].entry.content.path == p;
    assert s.rows[p] == RowOf(table[k]);
    IsListed(table, s.round.pushed, s.sequence, k);
    r := table[k];
  }

  /** The proposals of the table after the push cursor are what is pending. */
  lemma ProposalsListPending(s: C.State, table: seq<R.Row>, outgoing: seq<R.Row>, listing: seq<C.Item>)
    requires TableOf(table, s.rows) && outgoing == M.Proposals(M.InRange(table, s.round.pushed, s.sequence))
    requires |listing| == |outgoing| && forall i | 0 <= i < |outgoing| :: listing[i] == ItemOf(outgoing[i])
    ensures C.ListsPending(s, listing)
  {
    forall x | x in listing
      ensures x.Proposal? && x.path in s.rows && s.rows[x.path] == C.LocalRow(x.version, x.sequence, true)
              && s.round.pushed < x.sequence <= s.sequence
    {
      var i :| 0 <= i < |listing| && listing[i] == x;
      ListedIsPending(s, table, outgoing[i]);
    }
    forall p | p in s.rows && s.rows[p].pending && s.round.pushed < s.rows[p].sequence <= s.sequence
      ensures C.Proposal(p, s.rows[p].version, s.rows[p].sequence) in listing
    {
      var r := PendingIsListed(s, table, p);
      var i :| 0 <= i < |outgoing| && outgoing[i] == r;
      assert listing[i] == ItemOf(r);
    }
  }

  // ---------------------------------------------------------------- the journal's pages

  /** `host` lists the paths of the log's revisions. */
  ghost predicate Lists(host: seq<Path>, log: Log) {
    |host| == |log| && forall j | 0 <= j < |log| :: host[j] == log[j].Path()
  }

  /** The rows with these positions. */
  ghost predicate AreRows(items: seq<C.Item>, rows: seq<Revision>, log: Log) {
    |items| == |rows| && forall k | 0 <= k < |items| ::
      items[k].Change? && items[k].position < |log| && rows[k] == log[items[k].position]
  }

  lemma SameNewest(host: seq<Path>, log: Log, i: nat, through: nat)
    requires i < through <= |log| && Lists(host, log)
    ensures Newest(log, i, through) <==> C.NewestUpTo(host, i, through)
  {
  }

  lemma RowInFront(i: nat, items: seq<C.Item>, rows: seq<Revision>, log: Log)
    requires AreRows(items, rows, log) && i < |log|
    ensures AreRows([C.Change(i)] + items, [log[i]] + rows, log)
  {
  }

  lemma {:induction false} ChangesRise(host: seq<Path>, after: nat, next: nat, upper: nat)
    ensures Rising(C.ChangesIn(host, after, next, upper), after, next)
    decreases next - after
  {
    if after < next { ChangesRise(host, after + 1, next, upper); }
  }

  /** The changes a round counts are the rows the host's compacted selection returns. */
  lemma {:induction false} ChangesAreTheSelection(host: seq<Path>, log: Log, after: nat, through: nat)
    requires after <= through <= |log| && Lists(host, log)
    ensures AreRows(C.ChangesIn(host, after, through, through), Select(log, false, after, through), log)
    decreases through - after
  {
    if after < through {
      var items, rows := C.ChangesIn(host, after + 1, through, through), Select(log, false, after + 1, through);
      SameNewest(host, log, after, through);
      ChangesAreTheSelection(host, log, after + 1, through);
      if Newest(log, after, through) {
        RowInFront(after, items, rows, log);
      } else {
        assert [] + items == items && [] + rows == rows;
      }
    }
  }
}
