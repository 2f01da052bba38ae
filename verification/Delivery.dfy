/** The durable outbox and inbox: every message is received exactly once and in the order
    it was queued, although the outbox reuses its row numbers. */
module Delivery {
  import opened Records

  const BATCH_LIMIT: int := 256

  datatype Queued = Queued(rowid: nat, id: string, body: Bytes)

  datatype Received = Received(sequence: nat, id: string, body: Bytes)

  /** `enqueued` records every identifier ever queued, in order. */
  datatype Store = Store(outbox: seq<Queued>, inbox: seq<Received>, last: nat, consumers: map<string, int>,
                         enqueued: seq<string>)

  // ---------------------------------------------------------------- the outbox

  /** The row number of a new row: one more than the largest in use. */
  function NextRowid(outbox: seq<Queued>): nat {
    if outbox == [] then 1 else outbox[|outbox| - 1].rowid + 1
  }

  function Enqueue(s: Store, id: string, body: Bytes): Store {
    s.(outbox := s.outbox + [Queued(NextRowid(s.outbox), id, body)], enqueued := s.enqueued + [id])
  }

  // ---------------------------------------------------------------- receiving

  predicate HasId(inbox: seq<Received>, id: string) {
    exists i | 0 <= i < |inbox| :: inbox[i].id == id
  }

  /** Inserted under the next sequence, which is never reused, unless the id is there. */
  function InsertOrIgnore(s: Store, row: Queued): Store {
    if HasId(s.inbox, row.id) then s
    else s.(inbox := s.inbox + [Received(s.last + 1, row.id, row.body)], last := s.last + 1)
  }

  function Without(outbox: seq<Queued>, id: string): seq<Queued> {
    if outbox == [] then [] else (if outbox[0].id == id then [] else [outbox[0]]) + Without(outbox[1..], id)
  }

  function Move(s: Store, row: Queued): Store {
    var inserted := InsertOrIgnore(s, row);
    inserted.(outbox := Without(inserted.outbox, row.id))
  }

  function MoveAll(s: Store, rows: seq<Queued>): Store
    decreases |rows|
  {
    if rows == [] then s else MoveAll(Move(s, rows[0]), rows[1..])
  }

  function Batch(s: Store, limit: int): seq<Queued> {
    if 0 <= limit <= |s.outbox| then s.outbox[..limit] else s.outbox
  }

  /** One transaction; when it does not commit nothing has happened. */
  function ReceivePending(s: Store, limit: int, commits: bool): (Store, int) {
    if limit < 1 || limit > BATCH_LIMIT || !commits then (s, -1) else (MoveAll(s, Batch(s, limit)), |Batch(s, limit)|)
  }

  // ---------------------------------------------------------------- acknowledging and reading

  function Newest(inbox: seq<Received>): int {
    if inbox == [] then 0 else inbox[|inbox| - 1].sequence
  }

  function Acknowledged(s: Store, consumer: string): int {
    if consumer in s.consumers then s.consumers[consumer] else 0
  }

  function Acknowledge(s: Store, consumer: string, sequence: int): (Store, bool) {
    if sequence < 0 || sequence > Newest(s.inbox) then (s, false)
    else
      var before := Acknowledged(s, consumer);
      (s.(consumers := s.consumers[consumer := if before > sequence then before else sequence]), true)
  }

  /** The messages after a sequence, in order. */
  function After(inbox: seq<Received>, sequence: int): seq<Received> {
    if inbox == [] then [] else (if inbox[0].sequence > sequence then [inbox[0]] else []) + After(inbox[1..], sequence)
  }

  function ReadAfter(s: Store, sequence: int, limit: int): seq<Received> {
    if sequence < 0 || limit < 1 || limit > BATCH_LIMIT then []
    else var all := After(s.inbox, sequence); if limit <= |all| then all[..limit] else all
  }

  // ---------------------------------------------------------------- what always holds

  function QueuedIds(outbox: seq<Queued>): seq<string> {
    if outbox == [] then [] else [outbox[0].id] + QueuedIds(outbox[1..])
  }

  function ReceivedIds(inbox: seq<Received>): seq<string> {
    if inbox == [] then [] else ReceivedIds(inbox[..|inbox| - 1]) + [inbox[|inbox| - 1].id]
  }

  ghost predicate AllDifferent(ids: seq<string>) {
    forall i, j | 0 <= i < j < |ids| :: ids[i] != ids[j]
  }

  ghost predicate Rising(inbox: seq<Received>) {
    forall i, j | 0 <= i < j < |inbox| :: inbox[i].sequence < inbox[j].sequence
  }

  /** Inbox and outbox one after the other are exactly what was queued, in that order. */
  ghost predicate Inv(s: Store) {
    && ReceivedIds(s.inbox) + QueuedIds(s.outbox) == s.enqueued && AllDifferent(s.enqueued)
    && (forall i, j | 0 <= i < j < |s.outbox| :: s.outbox[i].rowid < s.outbox[j].rowid)
    && Rising(s.inbox) && (forall i | 0 <= i < |s.inbox| :: 0 < s.inbox[i].sequence <= s.last)
    && (forall c | c in s.consumers :: 0 <= s.consumers[c] <= Newest(s.inbox))
  }

  lemma {:induction false} QueuedIdsAre(outbox: seq<Queued>)
    ensures |QueuedIds(outbox)| == |outbox| && forall i | 0 <= i < |outbox| :: QueuedIds(outbox)[i] == outbox[i].id
  {
    if outbox != [] { QueuedIdsAre(outbox[1..]); }
  }

  lemma {:induction false} ReceivedIdsAre(inbox: seq<Received>)
    ensures |ReceivedIds(inbox)| == |inbox| && forall i | 0 <= i < |inbox| :: ReceivedIds(inbox)[i] == inbox[i].id
  {
    if inbox != [] { ReceivedIdsAre(inbox[..|inbox| - 1]); }
  }

  lemma {:induction false} QueuedIdsSplit(a: seq<Queued>, b: seq<Queued>)
    ensures QueuedIds(a + b) == QueuedIds(a) + QueuedIds(b)
  {
    if a == [] {
      assert a + b == b;
    } else {
      assert (a + b)[1..] == a[1..] + b;
      QueuedIdsSplit(a[1..], b);
    }
  }

  lemma EnqueueKeepsInv(s: Store, id: string, body: Bytes)
    requires Inv(s) && id !in s.enqueued
    ensures Inv(Enqueue(s, id, body))
  {
    var row := Queued(NextRowid(s.outbox), id, body);
    QueuedIdsSplit(s.outbox, [row]);
    assert QueuedIds([row]) == [id];
  }

  lemma {:induction false} WithoutNothing(outbox: seq<Queued>, id: string)
    requires forall i | 0 <= i < |outbox| :: outbox[i].id != id
    ensures Without(outbox, id) == outbox
  {
    if outbox != [] { WithoutNothing(outbox[1..], id); }
  }

  /** Of ids that are all different, none before a position returns after it. */
  lemma FirstIsNew(s: Store)
    requires Inv(s) && s.outbox != []
    ensures !HasId(s.inbox, s.outbox[0].id) && Without(s.outbox, s.outbox[0].id) == s.outbox[1..]
  {
    ReceivedIdsAre(s.inbox);
    QueuedIdsAre(s.outbox);
    var ids := s.enqueued;
    var n := |s.inbox|;
    assert ids[n] == s.outbox[0].id;
    forall i | 0 <= i < n ensures s.inbox[i].id != s.outbox[0].id { assert ids[i] == s.inbox[i].id; }
    forall i | 0 <= i < |s.outbox[1..]|
      ensures s.outbox[1..][i].id != s.outbox[0].id
    {
      assert ids[n + 1 + i] == s.outbox[1 + i].id;
    }
    WithoutNothing(s.outbox[1..], s.outbox[0].id);
  }

  /** Moving the first row: it is appended to the inbox, nothing is ignored, nothing else
      leaves the outbox. */
  lemma MoveFirst(s: Store)
    requires Inv(s) && s.outbox != []
    ensures Move(s, s.outbox[0]) == s.(outbox := s.outbox[1..], last := s.last + 1,
                                       inbox := s.inbox + [Received(s.last + 1, s.outbox[0].id, s.outbox[0].body)])
    ensures Inv(Move(s, s.outbox[0]))
  {
    FirstIsNew(s);
    var row := s.outbox[0];
    var s' := Move(s, row);
    assert s'.inbox[..|s'.inbox| - 1] == s.inbox;
    assert ReceivedIds(s'.inbox) == ReceivedIds(s.inbox) + [row.id];
    assert ReceivedIds(s'.inbox) + QueuedIds(s'.outbox) == ReceivedIds(s.inbox) + QueuedIds(s.outbox);
  }

  /** The messages a batch adds, under the next sequences. */
  function Arrived(rows: seq<Queued>, last: nat): seq<Received> {
    if rows == [] then [] else [Received(last + 1, rows[0].id, rows[0].body)] + Arrived(rows[1..], last + 1)
  }

  /** A batch takes the oldest rows, loses none, repeats none and keeps their order. */
  lemma {:induction false} MoveAllIs(s: Store, n: nat)
    requires Inv(s) && n <= |s.outbox|
    ensures MoveAll(s, s.outbox[..n])
            == s.(outbox := s.outbox[n..], last := s.last + n, inbox := s.inbox + Arrived(s.outbox[..n], s.last))
    ensures Inv(MoveAll(s, s.outbox[..n]))
    decreases n
  {
    if n == 0 {
      assert s.outbox[0..] == s.outbox && s.inbox + [] == s.inbox;
    } else {
      MoveFirst(s);
      var s1 := Move(s, s.outbox[0]);
      assert s.outbox[..n][1..] == s1.outbox[..n - 1];
      MoveAllIs(s1, n - 1);
      assert s1.outbox[n - 1..] == s.outbox[n..];
      assert s.inbox + Arrived(s.outbox[..n], s.last) == s1.inbox + Arrived(s1.outbox[..n - 1], s1.last);
    }
  }

  lemma ReceiveKeepsInv(s: Store, limit: int, commits: bool)
    requires Inv(s)
    ensures Inv(ReceivePending(s, limit, commits).0)
    ensures s.inbox <= ReceivePending(s, limit, commits).0.inbox
    ensures ReceivePending(s, limit, commits).0.consumers == s.consumers
  {
    if 1 <= limit <= BATCH_LIMIT && commits {
      MoveAllIs(s, |Batch(s, limit)|);
      assert Batch(s, limit) == s.outbox[..|Batch(s, limit)|];
    }
  }

  lemma AcknowledgeKeepsInv(s: Store, consumer: string, sequence: int)
    requires Inv(s)
    ensures Inv(Acknowledge(s, consumer, sequence).0)
    ensures forall c :: Acknowledged(s, c) <= Acknowledged(Acknowledge(s, consumer, sequence).0, c)
  {
  }

  // ---------------------------------------------------------------- runs

  datatype Step =
    | Queues(id: string, body: Bytes)
    | Receives(limit: int, commits: bool)
    | Acknowledges(consumer: string, sequence: int)

  /** Identifiers are random and never come twice. */
  predicate Enabled(s: Store, step: Step) {
    step.Queues? ==> step.id !in s.enqueued
  }

  function Next(s: Store, step: Step): Store {
    match step
    case Queues(id, body) => Enqueue(s, id, body)
    case Receives(limit, commits) => ReceivePending(s, limit, commits).0
    case Acknowledges(consumer, sequence) => Acknowledge(s, consumer, sequence).0
  }

  ghost predicate Steps(s: Store, steps: seq<Step>) {
    steps == [] || (Steps(s, steps[..|steps| - 1]) && Enabled(Played(s, steps[..|steps| - 1]), steps[|steps| - 1]))
  }

  function Played(s: Store, steps: seq<Step>): Store {
    if steps == [] then s else Next(Played(s, steps[..|steps| - 1]), steps[|steps| - 1])
  }

  lemma StepKeepsInv(s: Store, step: Step)
    requires Inv(s) && Enabled(s, step)
    ensures Inv(Next(s, step)) && s.inbox <= Next(s, step).inbox
    ensures forall c :: Acknowledged(s, c) <= Acknowledged(Next(s, step), c)
  {
    match step
    case Queues(id, body) => EnqueueKeepsInv(s, id, body);
    case Receives(limit, commits) => ReceiveKeepsInv(s, limit, commits);
    case Acknowledges(consumer, sequence) => AcknowledgeKeepsInv(s, consumer, sequence);
  }

  /** In every run, with any batch sizes and any receipts rolled back: inbox and outbox are
      together the queued messages, each once and in order; the inbox only grows at its
      end; acknowledgements never fall and never pass the newest receipt. */
  lemma {:induction false} ExactlyOnceInOrder(s: Store, steps: seq<Step>, consumer: string)
    requires Inv(s) && Steps(s, steps)
    ensures var s' := Played(s, steps);
            && Inv(s') && s.inbox <= s'.inbox
            && ReceivedIds(s'.inbox) + QueuedIds(s'.outbox) == s'.enqueued
            && Acknowledged(s, consumer) <= Acknowledged(s', consumer)
            && Acknowledged(s', consumer) <= (if consumer in s'.consumers then Newest(s'.inbox) else 0)
    decreases |steps|
  {
    if steps != [] {
      ExactlyOnceInOrder(s, steps[..|steps| - 1], consumer);
      StepKeepsInv(Played(s, steps[..|steps| - 1]), steps[|steps| - 1]);
    }
  }

  // ---------------------------------------------------------------- readers

  /** A reader that pages on: each page starts after the last message of the one before,
      and the inbox may have grown in between. */
  ghost predicate Paging(inboxes: seq<seq<Received>>, from: int, limit: int, pages: seq<seq<Received>>)
    decreases |inboxes|
  {
    && |inboxes| == |pages| > 0 && 1 <= limit && Rising(inboxes[0])
    && (var all := After(inboxes[0], from); pages[0] == if limit <= |all| then all[..limit] else all)
    && (if |pages| == 1 then |pages[0]| < limit
        else pages[0] != [] && inboxes[0] <= inboxes[1]
             && Paging(inboxes[1..], pages[0][|pages[0]| - 1].sequence, limit, pages[1..]))
  }

  function Joined(pages: seq<seq<Received>>): seq<Received> {
    if pages == [] then [] else pages[0] + Joined(pages[1..])
  }

  lemma {:induction false} AfterSplit(a: seq<Received>, b: seq<Received>, from: int)
    ensures After(a + b, from) == After(a, from) + After(b, from)
  {
    if a == [] {
      assert a + b == b;
    } else {
      assert (a + b)[1..] == a[1..] + b;
      AfterSplit(a[1..], b, from);
    }
  }

  lemma AfterStep(inbox: seq<Received>, k: nat, from: int)
    requires k < |inbox|
    ensures After(inbox[k..], from)
            == (if inbox[k].sequence > from then [inbox[k]] else []) + After(inbox[k + 1..], from)
  {
    assert inbox[k..][1..] == inbox[k + 1..];
  }

  lemma {:induction false} AfterAll(inbox: seq<Received>, from: int)
    requires forall i | 0 <= i < |inbox| :: inbox[i].sequence > from
    ensures After(inbox, from) == inbox
  {
    if inbox != [] { AfterAll(inbox[1..], from); }
  }

  /** In a rising inbox what lies after a sequence is a suffix. */
  lemma {:induction false} AfterIsSuffix(inbox: seq<Received>, from: int) returns (n: nat)
    requires Rising(inbox)
    ensures n <= |inbox| && After(inbox, from) == inbox[n..]
    ensures (forall i | 0 <= i < n :: inbox[i].sequence <= from)
    ensures (forall i | n <= i < |inbox| :: inbox[i].sequence > from)
  {
    if inbox == [] || inbox[0].sequence > from {
      n := 0;
      AfterAll(inbox, from);
    } else {
      n := AfterIsSuffix(inbox[1..], from);
      n := n + 1;
    }
  }

  /** What follows the first `k` messages of a page is what lies after the last of them. */
  lemma AfterPage(inbox: seq<Received>, from: int, k: nat)
    requires Rising(inbox) && 0 < k <= |After(inbox, from)|
    ensures After(inbox, After(inbox, from)[k - 1].sequence) == After(inbox, from)[k..]
  {
    var n := AfterIsSuffix(inbox, from);
    AfterRow(inbox, n + k);
    assert inbox[n..][k - 1] == inbox[n + k - 1] && inbox[n..][k..] == inbox[n + k..];
  }

  lemma AfterRow(inbox: seq<Received>, n: nat)
    requires Rising(inbox) && 0 < n <= |inbox|
    ensures After(inbox, inbox[n - 1].sequence) == inbox[n..]
  {
    var m := AfterIsSuffix(inbox, inbox[n - 1].sequence);
    assert n < |inbox| ==> inbox[n - 1].sequence < inbox[n].sequence;
  }

  lemma AfterGrown(inbox: seq<Received>, grown: seq<Received>, from: int, k: nat)
    requires inbox <= grown && k <= |After(inbox, from)|
    ensures k <= |After(grown, from)| && After(grown, from)[..k] == After(inbox, from)[..k]
  {
    AfterSplit(inbox, grown[|inbox|..], from);
    assert grown == inbox + grown[|inbox|..];
  }

  /** A page and what lies after its last message are what lies after the page's start,
      in any later inbox. */
  lemma PageThenRest(inbox: seq<Received>, last: seq<Received>, from: int, page: seq<Received>)
    requires inbox <= last && Rising(last) && page != [] && page <= After(inbox, from)
    ensures page + After(last, page[|page| - 1].sequence) == After(last, from)
  {
    var k := |page|;
    AfterGrown(inbox, last, from, k);
    assert After(last, from)[..k] == page;
    assert After(last, from)[k - 1] == After(last, from)[..k][k - 1];
    AfterPage(last, from, k);
  }

  /** A reader paging on from its acknowledgement sees every message after it, each once
      and in order, up to the newest one there when the last page was read. */
  lemma {:induction false} ReaderSeesAll(inboxes: seq<seq<Received>>, from: int, limit: int, pages: seq<seq<Received>>)
    requires Paging(inboxes, from, limit, pages) && forall k | 0 <= k < |inboxes| :: Rising(inboxes[k])
    ensures Joined(pages) == After(inboxes[|inboxes| - 1], from)
    ensures inboxes[0] <= inboxes[|inboxes| - 1]
    decreases |inboxes|
  {
    if |pages| == 1 {
      assert Joined(pages[1..]) == [];
    } else {
      ReaderSeesAll(inboxes[1..], pages[0][|pages[0]| - 1].sequence, limit, pages[1..]);
      PageThenRest(inboxes[0], inboxes[|inboxes| - 1], from, pages[0]);
    }
  }

  // ---------------------------------------------------------------- as it runs

  class DeliveryStore {
    var outbox: seq<Queued>
    var inbox: seq<Received>
    var last: nat
    var consumers: map<string, int>
    ghost var enqueued: seq<string>

    ghost function View(): Store
      reads this
    {
      Store(outbox, inbox, last, consumers, enqueued)
    }

    constructor ()
      ensures Inv(View()) && outbox == [] && inbox == [] && consumers == map[]
    {
      outbox, inbox, last, consumers, enqueued := [], [], 0, map[], [];
    }

    method EnqueueMessage(id: string, body: Bytes)
      modifies this
      ensures View() == Enqueue(old(View()), id, body)
    {
      var rowid := if outbox == [] then 1 else outbox[|outbox| - 1].rowid + 1;
      outbox := outbox + [Queued(rowid, id, body)];
      enqueued := enqueued + [id];
    }

    /** Reads the batch, then inserts and deletes row by row; `fails` says at which row the
        transaction breaks, if it does. */
    method Receive(limit: int, fails: Option<nat>) returns (count: int)
      modifies this
      ensures var commits := fails.None? || fails.value >= |Batch(old(View()), limit)|;
              (View(), count) == ReceivePending(old(View()), limit, commits)
    {
      if limit < 1 || limit > BATCH_LIMIT {
        return -1;
      }
      var saved := (outbox, inbox, last);
      var rows := if limit <= |outbox| then outbox[..limit] else outbox;
      assert rows == Batch(old(View()), limit) && rows[0..] == rows;
      var k := 0;
      while k < |rows|
        invariant 0 <= k <= |rows| && (fails.Some? ==> k <= fails.value) && enqueued == old(enqueued)
        invariant consumers == old(consumers)
        invariant MoveAll(old(View()), rows) == MoveAll(View(), rows[k..])
      {
        assert rows[k..][1..] == rows[k + 1..];
        if fails == Some(k) {
          outbox, inbox, last := saved.0, saved.1, saved.2;
          return -1;
        }
        if !HasId(inbox, rows[k].id) {
          inbox := inbox + [Received(last + 1, rows[k].id, rows[k].body)];
          last := last + 1;
        }
        outbox := Without(outbox, rows[k].id);
        k := k + 1;
      }
      assert rows[k..] == [];
      count := |rows|;
    }

    method AcknowledgeUpTo(consumer: string, sequence: int) returns (ok: bool)
      modifies this
      ensures (View(), ok) == Acknowledge(old(View()), consumer, sequence)
    {
      var newest := if inbox == [] then 0 else inbox[|inbox| - 1].sequence;
      if sequence < 0 || sequence > newest {
        return false;
      }
      var before := if consumer in consumers then consumers[consumer] else 0;
      consumers := consumers[consumer := if before > sequence then before else sequence];
      ok := true;
    }

    method Read(sequence: int, limit: int) returns (page: seq<Received>)
      ensures page == ReadAfter(View(), sequence, limit)
    {
      page := [];
      if sequence < 0 || limit < 1 || limit > BATCH_LIMIT {
        return;
      }
      var k := 0;
      assert inbox[0..] == inbox;
      while k < |inbox| && |page| < limit
        invariant 0 <= k <= |inbox| && |page| <= limit
        invariant After(inbox, sequence) == page + After(inbox[k..], sequence)
      {
        AfterStep(inbox, k, sequence);
        ghost var before, rest := page, After(inbox[k + 1..], sequence);
        if inbox[k].sequence > sequence {
          page := page + [inbox[k]];
          assert before + ([inbox[k]] + rest) == page + rest;
        }
        k := k + 1;
      }
    }
  }
}
