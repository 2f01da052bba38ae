/** Moving a file's bytes: appending to a staged part, and windows of chunks whose replies
    may arrive in any order. */
module Transfer {
  import opened Records

  const CHUNK: nat := 256 * 1024

  function Min(a: int, b: int): int {
    if a < b then a else b
  }

  // ---------------------------------------------------------------- the staged part

  /** Appends at the end; a chunk that is already there may be sent again, unchanged. */
  function Append(part: Bytes, offset: int, bytes: Bytes): Option<Bytes> {
    if offset < 0 || offset > |part| then None
    else if offset < |part| then
      if offset + |bytes| > |part| then None
      else if part[offset..offset + |bytes|] == bytes then Some(part) else None
    else Some(part + bytes)
  }

  /** What an append that breaks off after `n` bytes leaves. */
  function AppendBroken(part: Bytes, bytes: Bytes, n: nat): Bytes {
    if n <= |bytes| then part + bytes[..n] else part + bytes
  }

  /** An append succeeds exactly at the end or on a repetition, never changes a byte that
      is there, and afterwards the part holds the chunk. */
  lemma AppendIff(part: Bytes, offset: int, bytes: Bytes)
    ensures Append(part, offset, bytes).Some? <==>
              offset == |part| || (0 <= offset < |part| && offset + |bytes| <= |part|
                                   && part[offset..offset + |bytes|] == bytes)
    ensures Append(part, offset, bytes).Some? ==>
              var part' := Append(part, offset, bytes).value;
              part <= part' && offset + |bytes| <= |part'| && part'[offset..offset + |bytes|] == bytes
              && Append(part', offset, bytes) == Some(part')
  {
    if offset == |part| {
      assert (part + bytes)[offset..offset + |bytes|] == bytes;
      if bytes == [] { assert part + bytes == part; }
    }
  }

  /** What the other side of a transfer demands of a chunk before it appends. */
  function TakeChunk(part: Bytes, size: nat, offset: int, bytes: Bytes): Option<Bytes> {
    if offset < 0 || |bytes| > CHUNK || offset > size - |bytes| then None else Append(part, offset, bytes)
  }

  /** A chunk of the pinned content keeps a prefix of it a prefix, whatever comes when:
      it is taken exactly when it starts at the end of the part or lies inside it. */
  lemma ChunkKeepsPrefix(content: Bytes, k: nat, offset: nat, bytes: Bytes)
    requires k <= |content| && offset + |bytes| <= |content| && |bytes| <= CHUNK
    requires bytes == content[offset..offset + |bytes|]
    ensures var r := TakeChunk(content[..k], |content|, offset, bytes);
            && (r.Some? <==> offset == k || offset + |bytes| <= k)
            && (r.Some? ==> r.value == content[..if offset == k then k + |bytes| else k])
  {
    if offset < k && offset + |bytes| <= k {
      assert content[..k][offset..offset + |bytes|] == bytes;
    } else if offset == k {
      assert content[..k] + bytes == content[..k + |bytes|];
    }
  }

  /** A broken append of a pinned chunk leaves a prefix too. */
  lemma BrokenKeepsPrefix(content: Bytes, k: nat, bytes: Bytes, n: nat)
    requires k + |bytes| <= |content| && bytes == content[k..k + |bytes|]
    ensures AppendBroken(content[..k], bytes, n) == content[..k + if n <= |bytes| then n else |bytes|]
  {
    assert content[..k] + bytes == content[..k + |bytes|];
    if n <= |bytes| { assert content[..k] + bytes[..n] == content[..k + n]; }
  }

  // ---------------------------------------------------------------- one download window

  datatype Download = Download(size: nat, offset: nat, pending: int, received: map<nat, Bytes>, part: Bytes,
                               failed: bool)

  /** How many chunks the next window asks for. */
  function Asked(size: nat, offset: nat, window: nat): nat
    requires offset <= size && window > 0
  {
    Min(window, (size - offset + CHUNK - 1) / CHUNK)
  }

  function ChunkSize(size: nat, position: int): int {
    Min(CHUNK, size - position)
  }

  function Open(d: Download, window: nat): Download
    requires d.offset <= d.size && window > 0
  {
    d.(pending := Asked(d.size, d.offset, window))
  }

  /** Ending a round drops what it was waiting for. */
  function Fail(d: Download): Download {
    d.(failed := true, pending := 0, received := map[])
  }

  /** Takes the chunk at the offset out of the buffer and appends it. */
  function Step(d: Download): Option<Download>
    requires d.offset in d.received
  {
    var taken := TakeChunk(d.part, d.size, d.offset, d.received[d.offset]);
    if taken.None? then None
    else Some(d.(received := d.received - {d.offset}, offset := d.offset
                 + if d.offset < d.size then ChunkSize(d.size, d.offset) else 0,
                 part := taken.value))
  }

  /** Appends what has arrived, as far as it is contiguous. */
  function Drain(d: Download): Download
    decreases d.received.Keys
  {
    if d.offset !in d.received then d else if Step(d).None? then Fail(d) else Drain(Step(d).value)
  }

  /** A reply: its own offset, its version and its decoding are checked before its length. */
  function Arrive(d: Download, position: nat, bytes: Bytes, right: bool): Download {
    if d.failed then d
    else if !right || |bytes| != ChunkSize(d.size, position) then Fail(d)
    else Drain(d.(received := d.received[position := bytes], pending := d.pending - 1))
  }

  // ---------------------------------------------------------------- any arrival order

  /** Where the `i`-th chunk of a window starts, and where the first `i` chunks end. */
  function Start(start: nat, i: nat): nat {
    start + i * CHUNK
  }

  function Edge(size: nat, start: nat, i: nat): int {
    Min(Start(start, i), size)
  }

  function Slice(content: Bytes, position: nat): Bytes
    requires position < |content|
  {
    content[position..position + ChunkSize(|content|, position)]
  }

  lemma ChunkArithmetic(size: nat, start: nat, window: nat, i: nat)
    requires start <= size && window > 0 && i < Asked(size, start, window)
    ensures Start(start, i) < size && Edge(size, start, i) == Start(start, i)
    ensures Start(start, i) + ChunkSize(size, Start(start, i)) == Edge(size, start, i + 1)
  {
  }

  lemma LastEdge(size: nat, start: nat, window: nat)
    requires start <= size && window > 0
    ensures Edge(size, start, Asked(size, start, window)) == Min(Start(start, window), size)
  {
  }

  /** The positions of the arrived chunks that still wait in the buffer. */
  function Waiting(start: nat, got: set<nat>, done: nat): set<nat> {
    set i | i in got && i >= done :: Start(start, i)
  }

  lemma WaitingHas(start: nat, got: set<nat>, done: nat, i: nat)
    ensures Start(start, i) in Waiting(start, got, done) <==> i in got && i >= done
  {
    if Start(start, i) in Waiting(start, got, done) {
      var j :| j in got && j >= done && Start(start, j) == Start(start, i);
      assert i == j;
    }
  }

  lemma WaitingLess(start: nat, got: set<nat>, done: nat)
    ensures Waiting(start, got, done) - {Start(start, done)} == Waiting(start, got, done + 1)
  {
    forall p | p in Waiting(start, got, done) && p != Start(start, done) ensures p in Waiting(start, got, done + 1) {
      var j :| j in got && j >= done && Start(start, j) == p;
    }
    WaitingHas(start, got, done + 1, done);
  }

  lemma WaitingMore(start: nat, got: set<nat>, done: nat, i: nat)
    requires i >= done
    ensures Waiting(start, got + {i}, done) == Waiting(start, got, done) + {Start(start, i)}
  {
    assert forall j | j in got + {i} && j >= done :: j == i || j in got;
    WaitingHas(start, got + {i}, done, i);
  }

  /** Halfway through a window: `done` chunks are appended, the chunks in `got` arrived. */
  ghost predicate Inside(d: Download, content: Bytes, start: nat, n: nat, got: set<nat>, done: nat) {
    && !d.failed && d.size == |content| && done <= n
    && d.offset == Edge(|content|, start, done) && d.part == content[..d.offset]
    && (forall i | i in got :: i < n) && (forall i | 0 <= i < done :: i in got)
    && d.received.Keys == Waiting(start, got, done)
    && (forall p | p in d.received :: p < |content| && d.received[p] == Slice(content, p))
    && d.pending == n - |got|
  }

  /** The chunk at the offset is the next one of the window. */
  lemma NextIsThere(d: Download, content: Bytes, start: nat, window: nat, n: nat, got: set<nat>, done: nat)
    requires start <= |content| && window > 0 && n == Asked(|content|, start, window)
    requires Inside(d, content, start, n, got, done) && d.offset in d.received
    ensures done < n && done in got && d.offset == Start(start, done)
  {
    var i :| i in got && i >= done && d.offset == Start(start, i);
    ChunkArithmetic(|content|, start, window, i);
    assert i == done;
  }

  lemma StepTakes(d: Download, content: Bytes)
    requires d.size == |content| && d.offset in d.received && d.offset < |content|
    requires d.part == content[..d.offset] && d.received[d.offset] == Slice(content, d.offset)
    ensures Step(d) == Some(d.(received := d.received - {d.offset}, offset := d.offset + ChunkSize(d.size, d.offset),
                               part := content[..d.offset + ChunkSize(d.size, d.offset)]))
  {
    ChunkKeepsPrefix(content, d.offset, d.offset, d.received[d.offset]);
  }

  lemma DrainStep(d: Download, content: Bytes, start: nat, window: nat, n: nat, got: set<nat>, done: nat)
    requires start <= |content| && window > 0 && n == Asked(|content|, start, window)
    requires Inside(d, content, start, n, got, done) && d.offset in d.received
    ensures Step(d).Some? && Inside(Step(d).value, content, start, n, got, done + 1)
  {
    NextIsThere(d, content, start, window, n, got, done);
    ChunkArithmetic(|content|, start, window, done);
    StepTakes(d, content);
    WaitingLess(start, got, done);
  }

  lemma {:induction false} DrainKeeps(d: Download, content: Bytes, start: nat, window: nat, n: nat, got: set<nat>,
                                      done: nat)
    returns (end: nat)
    requires start <= |content| && window > 0 && n == Asked(|content|, start, window)
    requires Inside(d, content, start, n, got, done)
    ensures Inside(Drain(d), content, start, n, got, end) && Drain(d).offset !in Drain(d).received
    decreases d.received.Keys
  {
    if d.offset in d.received {
      DrainStep(d, content, start, window, n, got, done);
      end := DrainKeeps(Step(d).value, content, start, window, n, got, done + 1);
    } else {
      end := done;
    }
  }

  /** The replies of a window, in the order they arrive. */
  function Arrivals(d: Download, content: Bytes, start: nat, order: seq<nat>): Download
    requires forall i | i in order :: Start(start, i) < |content|
  {
    if order == [] then d
    else
      var i := order[|order| - 1];
      Arrive(Arrivals(d, content, start, order[..|order| - 1]), Start(start, i), Slice(content, Start(start, i)), true)
  }

  /** Between windows: a prefix of the content is staged and nothing is buffered. */
  ghost predicate Between(d: Download, content: Bytes) {
    && !d.failed && d.size == |content| && d.offset <= |content| && d.received == map[] && d.part == content[..d.offset]
  }

  function Members(order: seq<nat>): set<nat> {
    set i | i in order
  }

  /** Different requests of a window of `n`, some of its replies so far. */
  predicate Requests(order: seq<nat>, n: nat) {
    order == [] || (order[|order| - 1] < n && order[|order| - 1] !in order[..|order| - 1]
                    && Requests(order[..|order| - 1], n))
  }

  lemma {:induction false} RequestsCount(order: seq<nat>, n: nat)
    requires Requests(order, n)
    ensures |Members(order)| == |order| && forall i | i in order :: i < n
  {
    if order != [] {
      var last, rest := order[|order| - 1], order[..|order| - 1];
      RequestsCount(rest, n);
      assert order == rest + [last];
      assert Members(order) == Members(rest) + {last};
    }
  }

  lemma OneMore(d: Download, content: Bytes, start: nat, window: nat, n: nat, got: set<nat>, done: nat, i: nat)
    returns (end: nat)
    requires start <= |content| && window > 0 && n == Asked(|content|, start, window) && i < n && i !in got
    requires Inside(d, content, start, n, got, done) && Start(start, i) < |content|
    ensures var d' := Arrive(d, Start(start, i), Slice(content, Start(start, i)), true);
            Inside(d', content, start, n, got + {i}, end) && d'.offset !in d'.received
  {
    var d1 := d.(received := d.received[Start(start, i) := Slice(content, Start(start, i))], pending := d.pending - 1);
    WaitingMore(start, got, done, i);
    assert d1.received.Keys == d.received.Keys + {Start(start, i)};
    end := DrainKeeps(d1, content, start, window, n, got + {i}, done);
  }

  lemma {:induction false} ArrivalsInside(d: Download, content: Bytes, window: nat, n: nat, order: seq<nat>)
    returns (done: nat)
    requires Between(d, content) && window > 0 && n == Asked(|content|, d.offset, window) && Requests(order, n)
    requires forall i | i in order :: Start(d.offset, i) < |content|
    ensures var end := Arrivals(Open(d, window), content, d.offset, order);
            Inside(end, content, d.offset, n, Members(order), done) && end.offset !in end.received
    decreases |order|
  {
    if order == [] {
      done := 0;
      assert Members(order) == {} && Waiting(d.offset, {}, 0) == {};
    } else {
      var last, rest := order[|order| - 1], order[..|order| - 1];
      assert order == rest + [last];
      done := ArrivalsInside(d, content, window, n, rest);
      assert Members(rest) + {last} == Members(order);
      done := OneMore(Arrivals(Open(d, window), content, d.offset, rest), content, d.offset, window, n, Members(rest),
                      done, last);
    }
  }

  lemma AllThere(d: Download, content: Bytes, start: nat, window: nat, n: nat, got: set<nat>, done: nat)
    requires start <= |content| && window > 0 && n == Asked(|content|, start, window)
    requires Inside(d, content, start, n, got, done) && d.offset !in d.received && |got| == n
    ensures done == n && d.received == map[] && d.pending == 0
  {
    FullSet(got, n);
    if done < n {
      ChunkArithmetic(|content|, start, window, done);
      WaitingHas(start, got, done, done);
    }
    assert Waiting(start, got, n) == {};
  }

  lemma {:induction false} FullSet(got: set<nat>, n: nat)
    requires (forall i | i in got :: i < n) && |got| == n
    ensures forall i | 0 <= i < n :: i in got
    decreases n
  {
    if n > 0 {
      if n - 1 in got {
        FullSet(got - {n - 1}, n - 1);
        forall i | 0 <= i < n ensures i in got {
          if i < n - 1 { assert i in got - {n - 1}; }
        }
      } else {
        SmallSet(got, n - 1);
      }
    }
  }

  lemma {:induction false} SmallSet(got: set<nat>, n: nat)
    requires forall i | i in got :: i < n
    ensures |got| <= n
    decreases n
  {
    if n == 0 {
      assert got == {};
    } else {
      SmallSet(got - {n - 1}, n - 1);
    }
  }

  /** What a window promises at any moment: a prefix is staged, never shorter than before;
      when nothing is pending, nothing is buffered and the window's end is reached. */
  ghost predicate WindowKept(d: Download, end: Download, content: Bytes, window: nat)
    requires window > 0
  {
    && !end.failed && end.size == |content| && d.offset <= end.offset <= |content| && end.part == content[..end.offset]
    && (end.pending == 0 ==> end.received == map[] && end.offset == Min(Start(d.offset, window), |content|))
  }

  lemma InsideIsKept(d: Download, end: Download, content: Bytes, window: nat, n: nat, got: set<nat>, done: nat)
    requires Between(d, content) && window > 0 && n == Asked(|content|, d.offset, window)
    requires Inside(end, content, d.offset, n, got, done) && end.offset !in end.received
    ensures WindowKept(d, end, content, window)
  {
    if |got| == n {
      AllThere(end, content, d.offset, window, n, got, done);
      LastEdge(|content|, d.offset, window);
    }
  }

  lemma RequestsFit(size: nat, start: nat, window: nat, order: seq<nat>)
    requires start <= size && window > 0 && Requests(order, Asked(size, start, window))
    ensures |Members(order)| == |order| && forall i | i in order :: Start(start, i) < size
  {
    RequestsCount(order, Asked(size, start, window));
    forall i | i in order ensures Start(start, i) < size { ChunkArithmetic(size, start, window, i); }
  }

  /** However the replies of a window are ordered, and wherever the round stops inside it,
      the staged part is a prefix of the pinned content; when all have arrived the buffer
      is empty, and the part has grown by the whole window or reached the end. */
  lemma WindowInAnyOrder(d: Download, content: Bytes, window: nat, order: seq<nat>)
    requires Between(d, content) && window > 0 && Requests(order, Asked(|content|, d.offset, window))
    ensures forall i | i in order :: Start(d.offset, i) < |content|
    ensures WindowKept(d, Arrivals(Open(d, window), content, d.offset, order), content, window)
    ensures Arrivals(Open(d, window), content, d.offset, order).pending == Asked(|content|, d.offset, window) - |order|
  {
    var n := Asked(|content|, d.offset, window);
    RequestsFit(|content|, d.offset, window, order);
    var done := ArrivalsInside(d, content, window, n, order);
    InsideIsKept(d, Arrivals(Open(d, window), content, d.offset, order), content, window, n, Members(order), done);
  }

  // ---------------------------------------------------------------- a whole download

  /** Window after window, each with all its replies in some order. */
  ghost predicate Session(states: seq<Download>, content: Bytes, window: nat, orders: seq<seq<nat>>) {
    && window > 0 && |states| == |orders| + 1
    && forall k | 0 <= k < |orders| :: WindowRun(states[k], states[k + 1], content, window, orders[k])
  }

  ghost predicate WindowRun(d: Download, d': Download, content: Bytes, window: nat, order: seq<nat>)
    requires window > 0
  {
    && d.offset <= |content| && Requests(order, Asked(|content|, d.offset, window))
    && |order| == Asked(|content|, d.offset, window)
    && (forall i | i in order :: Start(d.offset, i) < |content|)
    && d' == Arrivals(Open(d.(size := |content|), window), content, d.offset, order)
  }

  lemma OneWindow(d: Download, d': Download, content: Bytes, window: nat, order: seq<nat>)
    requires Between(d, content) && window > 0 && WindowRun(d, d', content, window, order)
    ensures Between(d', content) && d'.offset == Min(Start(d.offset, window), |content|)
    ensures d'.offset >= Min(Start(d.offset, 1), |content|)
  {
    WindowInAnyOrder(d, content, window, order);
    assert d.(size := |content|) == d;
    ClosedWindow(d, d', content, window);
  }

  /** Starting from any staged prefix, also one a broken append left, every window ends
      with a longer prefix, and after enough of them the whole content is staged,
      whatever the order of the replies. */
  lemma {:induction false} DownloadReachesTheEnd(states: seq<Download>, content: Bytes, window: nat,
                                                 orders: seq<seq<nat>>, k: nat)
    requires Session(states, content, window, orders) && Between(states[0], content) && k <= |orders|
    ensures Between(states[k], content) && states[k].offset >= Min(Start(states[0].offset, k), |content|)
  {
    if k > 0 {
      DownloadReachesTheEnd(states, content, window, orders, k - 1);
      OneWindow(states[k - 1], states[k], content, window, orders[k - 1]);
    }
  }

  lemma ClosedWindow(d: Download, end: Download, content: Bytes, window: nat)
    requires window > 0 && WindowKept(d, end, content, window) && end.pending == 0
    ensures Between(end, content) && end.offset == Min(Start(d.offset, window), |content|)
    ensures end.offset >= Min(Start(d.offset, 1), |content|)
  {
  }

  // ---------------------------------------------------------------- untrusted replies

  /** What holds of a download whatever the replies contain. */
  ghost predicate Sound(d: Download) {
    && (d.failed ==> d.received == map[] && d.pending == 0)
    && |d.part| == d.offset <= d.size
    && (forall p | p in d.received :: p < d.size && |d.received[p]| == ChunkSize(d.size, p))
  }

  lemma {:induction false} DrainSound(d: Download)
    requires Sound(d)
    ensures Sound(Drain(d)) && d.part <= Drain(d).part && Drain(d).size == d.size
    decreases d.received.Keys
  {
    if d.offset in d.received && Step(d).Some? {
      DrainSound(Step(d).value);
    }
  }

  /** Whatever the replies contain, the staged part only grows, its length is the offset,
      it never passes the announced size, and a refused reply leaves nothing buffered. */
  lemma AnyReplyIsSound(d: Download, position: nat, bytes: Bytes, right: bool)
    requires Sound(d) && position < d.size
    ensures var d' := Arrive(d, position, bytes, right);
            Sound(d') && d.part <= d'.part && d'.size == d.size
              && (d.failed || !right || |bytes| != ChunkSize(d.size, position) ==> d'.failed)
  {
    if !d.failed && right && |bytes| == ChunkSize(d.size, position) {
      DrainSound(d.(received := d.received[position := bytes], pending := d.pending - 1));
    }
  }

  // ---------------------------------------------------------------- uploads

  /** The sender's view of a window, the part on the host's side, and which chunks the
      host has answered and the sender has heard of. */
  datatype Upload = Upload(size: nat, start: nat, offset: nat, pending: int, acked: map<nat, nat>, failed: bool,
                           part: Bytes, answered: set<nat>, heard: set<nat>)

  datatype Event =
    | Deliver(i: nat)   // the host handles the `i`-th chunk of the window
    | Reply(i: nat)     // its answer reaches the sender

  function Confirm(u: Upload): Upload
    requires u.offset in u.acked
  {
    u.(offset := u.acked[u.offset], acked := u.acked - {u.offset})
  }

  /** Moves the sender's offset over the acknowledgements that follow it. */
  function Advance(u: Upload): Upload
    decreases u.acked.Keys
  {
    if u.offset !in u.acked then u else Advance(Confirm(u))
  }

  predicate Enabled(u: Upload, n: nat, e: Event) {
    !u.failed && e.i < n && (e.Reply? ==> e.i in u.answered && e.i !in u.heard)
  }

  /** Chunks are handled in whatever order they come; a refused one ends the round. */
  function Happens(u: Upload, content: Bytes, e: Event): Upload
    requires Start(u.start, e.i) < |content|
  {
    var position := Start(u.start, e.i);
    match e
    case Deliver(i) =>
      var taken := TakeChunk(u.part, u.size, position, Slice(content, position));
      if taken.None? then u.(failed := true, pending := 0, acked := map[])
      else u.(part := taken.value, answered := u.answered + {i})
    case Reply(i) =>
      Advance(u.(acked := u.acked[position := position + ChunkSize(u.size, position)], pending := u.pending - 1,
                 heard := u.heard + {i}))
  }

  /** The host holds the first `there` chunks of the window, the sender knows of `known`. */
  ghost predicate Uploading(u: Upload, content: Bytes, window: nat, n: nat, there: nat, known: nat) {
    && window > 0 && u.start <= |content| && u.size == |content| && n == Asked(|content|, u.start, window)
    && there <= n && known <= there
    && u.part == content[..Edge(|content|, u.start, there)]
    && (forall i | i in u.answered :: i < there) && u.heard <= u.answered
    && (!u.failed ==>
         && u.offset == Edge(|content|, u.start, known)
         && (forall i | 0 <= i < known :: i in u.heard)
         && u.acked.Keys == Waiting(u.start, u.heard, known)
         && (forall p | p in u.acked :: u.acked[p] == p + ChunkSize(|content|, p))
         && u.pending == n - |u.heard|)
  }

  lemma {:induction false} AdvanceKeeps(u: Upload, content: Bytes, window: nat, n: nat, there: nat, known: nat)
    returns (end: nat)
    requires Uploading(u, content, window, n, there, known) && !u.failed
    ensures Uploading(Advance(u), content, window, n, there, end) && Advance(u).offset !in Advance(u).acked
    ensures Advance(u).failed == u.failed && Advance(u).start == u.start
    decreases u.acked.Keys
  {
    if u.offset in u.acked {
      var i :| i in u.heard && i >= known && u.offset == Start(u.start, i);
      ChunkArithmetic(|content|, u.start, window, i);
      assert i == known;
      WaitingLess(u.start, u.heard, known);
      end := AdvanceKeeps(Confirm(u), content, window, n, there, known + 1);
    } else {
      end := known;
    }
  }

  lemma DeliverKeeps(u: Upload, content: Bytes, window: nat, n: nat, there: nat, known: nat, i: nat)
    returns (there': nat)
    requires Uploading(u, content, window, n, there, known) && i < n && Start(u.start, i) < |content| && !u.failed
    ensures Uploading(Happens(u, content, Deliver(i)), content, window, n, there', known)
    ensures !Happens(u, content, Deliver(i)).failed <==> i <= there
  {
    var position := Start(u.start, i);
    ChunkArithmetic(|content|, u.start, window, i);
    ChunkKeepsPrefix(content, Edge(|content|, u.start, there), position, Slice(content, position));
    there' := if i == there then there + 1 else there;
  }

  lemma ReplyKeeps(u: Upload, content: Bytes, window: nat, n: nat, there: nat, known: nat, i: nat) returns (known': nat)
    requires Uploading(u, content, window, n, there, known) && Enabled(u, n, Reply(i)) && Start(u.start, i) < |content|
    ensures Uploading(Happens(u, content, Reply(i)), content, window, n, there, known')
    ensures var u' := Happens(u, content, Reply(i)); u'.offset !in u'.acked && !u'.failed && u'.start == u.start
  {
    var position := Start(u.start, i);
    var u1 := u.(acked := u.acked[position := position + ChunkSize(u.size, position)], pending := u.pending - 1,
                 heard := u.heard + {i});
    WaitingMore(u.start, u.heard, known, i);
    assert u1.acked.Keys == u.acked.Keys + {position};
    known' := AdvanceKeeps(u1, content, window, n, there, known);
  }

  ghost predicate UploadRun(states: seq<Upload>, events: seq<Event>, content: Bytes, window: nat) {
    && window > 0 && |states| == |events| + 1
    && (var u := states[0];
        && u.size == |content| && u.start == u.offset <= |content| && u.part == content[..u.start] && !u.failed
        && u.pending == Asked(|content|, u.start, window) && u.acked == map[] && u.answered == {} && u.heard == {})
    && forall k | 0 <= k < |events| ::
         Happened(states[k], states[k + 1], content, events[k], Asked(|content|, states[0].start, window))
  }

  ghost predicate Happened(u: Upload, u': Upload, content: Bytes, e: Event, n: nat) {
    Enabled(u, n, e) && Start(u.start, e.i) < |content| && u' == Happens(u, content, e)
  }

  ghost predicate UploadKept(u: Upload, content: Bytes, window: nat, start: nat) {
    exists there, known :: UploadAt(u, content, window, start, there, known)
  }

  ghost predicate UploadAt(u: Upload, content: Bytes, window: nat, start: nat, there: nat, known: nat) {
    && window > 0 && start <= |content| && u.start == start
    && Uploading(u, content, window, Asked(|content|, start, window), there, known)
    && (!u.failed ==> u.offset !in u.acked)
  }

  lemma UploadStep(u: Upload, u': Upload, content: Bytes, window: nat, start: nat, e: Event)
    requires UploadKept(u, content, window, start) && window > 0 && start <= |content|
    requires Happened(u, u', content, e, Asked(|content|, start, window))
    ensures UploadKept(u', content, window, start)
  {
    var there, known :| UploadAt(u, content, window, start, there, known);
    match e
    case Deliver(i) =>
      var there' := DeliverKeeps(u, content, window, Asked(|content|, start, window), there, known, i);
      assert UploadAt(u', content, window, start, there', known);
    case Reply(i) =>
      var known' := ReplyKeeps(u, content, window, Asked(|content|, start, window), there, known, i);
      assert UploadAt(u', content, window, start, there, known');
  }

  lemma {:induction false} UploadInvariant(states: seq<Upload>, events: seq<Event>, content: Bytes, window: nat, k: nat)
    requires UploadRun(states, events, content, window) && k <= |events|
    ensures UploadKept(states[k], content, window, states[0].start)
  {
    if k == 0 {
      assert Waiting(states[0].start, {}, 0) == {};
      assert UploadAt(states[0], content, window, states[0].start, 0, 0);
    } else {
      UploadInvariant(states, events, content, window, k - 1);
      UploadStep(states[k - 1], states[k], content, window, states[0].start, events[k - 1]);
    }
  }

  lemma KeptMeans(u: Upload, content: Bytes, window: nat, start: nat)
    requires UploadKept(u, content, window, start)
    ensures start <= |content| && u.part <= content && content[..start] <= u.part
    ensures (!u.failed ==> u.offset <= |u.part|)
    ensures !u.failed && u.pending == 0 ==>
              u.acked == map[] && u.offset == |u.part| == Min(Start(start, window), |content|)
  {
    var there, known :| UploadAt(u, content, window, start, there, known);
    if !u.failed && u.pending == 0 {
      AllHeard(u, content, window, Asked(|content|, u.start, window), there, known);
    }
  }

  /** However chunks and acknowledgements overtake one another, the host's part is always a
      prefix of the sender's content and never shorter than what the sender counts as
      sent; a window of acknowledgements complete leaves none buffered and the part
      exactly at the sender's offset, the end of the window. */
  lemma UploadInAnyOrder(states: seq<Upload>, events: seq<Event>, content: Bytes, window: nat, k: nat)
    requires UploadRun(states, events, content, window) && k <= |events|
    ensures var u, start := states[k], states[0].start;
            && u.part <= content && content[..start] <= u.part
            && (!u.failed ==> u.offset <= |u.part|)
            && (!u.failed && u.pending == 0 ==>
                  u.acked == map[] && u.offset == |u.part| == Min(Start(start, window), |content|))
  {
    UploadInvariant(states, events, content, window, k);
    KeptMeans(states[k], content, window, states[0].start);
  }

  lemma AllHeard(u: Upload, content: Bytes, window: nat, n: nat, there: nat, known: nat)
    requires Uploading(u, content, window, n, there, known) && !u.failed && u.offset !in u.acked && |u.heard| == n
    ensures known == there == n && u.acked == map[] && u.offset == Min(Start(u.start, window), |content|)
  {
    FullSet(u.heard, n);
    if known < n {
      ChunkArithmetic(|content|, u.start, window, known);
      WaitingHas(u.start, u.heard, known, known);
    }
    LastEdge(|content|, u.start, window);
    assert Waiting(u.start, u.heard, n) == {};
  }
}
