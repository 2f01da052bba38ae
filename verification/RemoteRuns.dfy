/** The client of remote generation together with its host, over a network that may lose,
    repeat and reorder what it carries and may report errors of its own. */
module RemoteRuns {
  import opened Records
  import opened Generation
  import R = RemoteImage

  datatype Packet = Packet(number: nat, response: R.Response)

  /** A request is numbered by its place in `requests`. */
  datatype World = World(host: Host, client: R.Client, peer: string, requests: seq<R.Request>, replies: seq<Packet>)

  // ---------------------------------------------------------------- from request to response

  function ActionOf(q: R.Request, sound: bool, available: bool): Action {
    match q.ask
    case AskSubmit => Submits(q.input, sound, available)
    case AskCancel => Cancels
    case AskStatus => AsksStatus
    case AskRead => Reads(q.offset)
  }

  /** Base64 writes three bytes as four characters. */
  function Encoded(size: nat): nat {
    4 * ((size + 2) / 3)
  }

  function ResponseOf(r: Reply): R.Response {
    match r
    case Refused(error) => R.Response(false, error, true, None, 0, NoDigest, -1, None, 0)
    case Status(job) => R.Response(true, job.error, true, Some(job.state), job.bytes, job.hash, -1, None, 0)
    case Data(offset, bytes) => R.Response(true, "", true, None, 0, NoDigest, offset, Some(bytes), Encoded(|bytes|))
  }

  datatype Move =
    | HostDoes(step: Step)                              // includes requests of other peers
    | ClientDoes(event: R.Event)
    | Sends(stale: bool, late: bool, taken: bool)       // the client's tick
    | Answers(number: nat, sound: bool, available: bool)
    | Fails(number: nat, error: string)                 // the transport's own error
    | Delivers(i: nat)

  predicate Enabled(w: World, m: Move) {
    match m
    case HostDoes(step) => Generation.Enabled(w.host, step)
    case ClientDoes(event) => event.Starts? || event.Pauses? || event.CancelsJob?
    case Sends(_, _, _) => true
    case Answers(number, _, _) => number < |w.requests|
    case Fails(number, _) => number < |w.requests|
    case Delivers(i) => i < |w.replies|
  }

  function Asked(w: World, number: nat, sound: bool, available: bool): (Host, Reply)
    requires number < |w.requests|
  {
    Handle(w.host, w.peer, w.requests[number].id, ActionOf(w.requests[number], sound, available))
  }

  function Next(w: World, m: Move): World
    requires Enabled(w, m)
  {
    match m
    case HostDoes(step) => w.(host := Generation.Next(w.host, step))
    case ClientDoes(event) => w.(client := R.Happens(w.client, event))
    case Sends(stale, late, taken) =>
      var (c, q) := R.Tick(w.client, stale, late, if taken then Some(|w.requests|) else None);
      w.(client := c, requests := if q.Some? && taken then w.requests + [q.value] else w.requests)
    case Answers(number, sound, available) =>
      var (h, reply) := Asked(w, number, sound, available);
      w.(host := h, replies := w.replies + [Packet(number, ResponseOf(reply))])
    case Fails(number, error) =>
      w.(replies := w.replies + [Packet(number, ResponseOf(Refused(error)))])
    case Delivers(i) => w.(client := R.Receive(w.client, w.replies[i].number, w.replies[i].response))
  }

  // ---------------------------------------------------------------- what always holds

  /** What a host in order answers. */
  predicate Honest(files: map<string, Bytes>, q: R.Request, r: R.Response) {
    r.valid && (r.ok ==> if q.ask == R.AskRead then HonestChunk(files, q, r)
                         else r.state.Some? && (r.state == Some(Completed) && r.bytes > 0 ==>
                                                  Written(files, q.id, r.bytes, r.hash)))
  }

  predicate HonestChunk(files: map<string, Bytes>, q: R.Request, r: R.Response) {
    && q.id in files && 0 <= q.offset < |files[q.id]| && r.offset == q.offset
    && r.data == Some(Slice(files[q.id], q.offset)) && r.encoded == Encoded(|Slice(files[q.id], q.offset)|)
  }

  ghost predicate RepliesOk(w: World) {
    forall i | 0 <= i < |w.replies| :: ReplyOk(w, w.replies[i])
  }

  predicate ReplyOk(w: World, p: Packet) {
    p.number < |w.requests| && Honest(w.host.files, w.requests[p.number], p.response)
  }

  /** The awaited answer is to the request that the client's state calls for. */
  predicate PendingOk(w: World) {
    var c := w.client;
    c.pending.Some? ==>
      && c.job.Some? && c.pending.value < |w.requests|
      && var q := w.requests[c.pending.value];
         q.ask == c.ask && q.id == c.job.value.0 && (q.ask == R.AskRead ==> q.offset == |c.image|)
  }

  /** What the client holds is a beginning of the host's image. */
  predicate ImageOk(files: map<string, Bytes>, c: R.Client) {
    c.result.Some? ==>
      c.job.Some? && Written(files, c.job.value.0, c.result.value.bytes, c.result.value.hash)
        && c.image <= files[c.job.value.0]
  }

  /** What was reported complete is the host's whole image. */
  predicate ReportOk(files: map<string, Bytes>, r: R.Report) {
    r.state == Completed ==> r.id in files && r.image == files[r.id]
  }

  ghost predicate ReportsOk(files: map<string, Bytes>, c: R.Client) {
    forall i | 0 <= i < |c.reports| :: ReportOk(files, c.reports[i])
  }

  ghost predicate Inv(w: World) {
    && Generation.Inv(w.host) && R.ClientOk(w.client)
    && RepliesOk(w) && PendingOk(w) && ImageOk(w.host.files, w.client) && ReportsOk(w.host.files, w.client)
  }

  // ---------------------------------------------------------------- the host moves

  lemma HostKeepsInv(w: World, h: Host)
    requires Inv(w) && Generation.Inv(h) && FilesKept(w.host, h)
    ensures Inv(w.(host := h))
  {
    var w' := w.(host := h);
    forall i | 0 <= i < |w.replies| ensures ReplyOk(w', w.replies[i]) { assert ReplyOk(w, w.replies[i]); }
    forall i | 0 <= i < |w.client.reports|
      ensures ReportOk(h.files, w.client.reports[i])
    {
      assert ReportOk(w.host.files, w.client.reports[i]);
    }
  }

  lemma ReplyKeepsInv(w: World, p: Packet)
    requires Inv(w) && ReplyOk(w, p)
    ensures Inv(w.(replies := w.replies + [p]))
  {
    var w' := w.(replies := w.replies + [p]);
    forall i | 0 <= i < |w'.replies| ensures ReplyOk(w', w'.replies[i]) {
      if i < |w.replies| { assert ReplyOk(w, w.replies[i]); }
    }
  }

  lemma AnswersAreHonest(h: Host, peer: string, q: R.Request, sound: bool, available: bool)
    requires Generation.Inv(h)
    ensures var (h', r) := Handle(h, peer, q.id, ActionOf(q, sound, available)); Honest(h'.files, q, ResponseOf(r))
  {
    if q.id in h.jobs { assert JobOk(h, q.id, h.jobs[q.id]); }
  }

  lemma AnswersKeepsInv(w: World, number: nat, sound: bool, available: bool)
    requires Inv(w) && number < |w.requests|
    ensures Inv(Next(w, Answers(number, sound, available)))
  {
    var q := w.requests[number];
    var action := ActionOf(q, sound, available);
    StepKeepsInv(w.host, Requests(w.peer, q.id, action));
    StepKeepsWhatEnded(w.host, Requests(w.peer, q.id, action), q.id);
    AnswersAreHonest(w.host, w.peer, q, sound, available);
    var h := Handle(w.host, w.peer, q.id, action).0;
    HostKeepsInv(w, h);
    ReplyKeepsInv(w.(host := h), Packet(number, ResponseOf(Asked(w, number, sound, available).1)));
  }

  // ---------------------------------------------------------------- the client moves

  /** A client that stays in order keeps what is on its way in order. */
  lemma ClientKeepsInv(w: World, c: R.Client)
    requires Inv(w) && R.ClientOk(c) && PendingOk(w.(client := c)) && ImageOk(w.host.files, c)
    requires ReportsOk(w.host.files, c)
    ensures Inv(w.(client := c))
  {
    forall i | 0 <= i < |w.replies| ensures ReplyOk(w.(client := c), w.replies[i]) { assert ReplyOk(w, w.replies[i]); }
  }

  lemma ClientDoesKeepsInv(w: World, e: R.Event)
    requires Inv(w) && (e.Starts? || e.Pauses? || e.CancelsJob?)
    ensures Inv(w.(client := R.Happens(w.client, e)))
  {
    R.CompleteOnlyWhenWhole(w.client, e);
    ClientKeepsInv(w, R.Happens(w.client, e));
  }

  lemma EndKeepsOk(files: map<string, Bytes>, c: R.Client, d: R.Client, state: JobState, error: string)
    requires c.job.Some? && d.job == c.job && d.reports == c.reports && state != Completed && ReportsOk(files, c)
    ensures var e := R.Complete(d, state, error); ImageOk(files, e) && ReportsOk(files, e) && e.pending.None?
  {
    var e := R.Complete(d, state, error);
    forall i | 0 <= i < |e.reports| ensures ReportOk(files, e.reports[i]) {
      if i < |c.reports| { assert ReportOk(files, c.reports[i]); }
    }
  }

  lemma RequestKeepsReplies(w: World, c: R.Client, q: R.Request)
    requires RepliesOk(w)
    ensures RepliesOk(w.(client := c, requests := w.requests + [q]))
  {
    var w' := w.(client := c, requests := w.requests + [q]);
    forall i | 0 <= i < |w.replies| ensures ReplyOk(w', w.replies[i]) { assert ReplyOk(w, w.replies[i]); }
  }

  lemma SendsKeepsInv(w: World, stale: bool, late: bool, taken: bool)
    requires Inv(w)
    ensures Inv(Next(w, Sends(stale, late, taken)))
  {
    var c := w.client;
    var number := if taken then Some(|w.requests|) else None;
    R.CompleteOnlyWhenWhole(c, R.Ticks(stale, late, number));
    var (c', q) := R.Tick(c, stale, late, number);
    if c' == c && q.None? {
    } else if late {
      EndKeepsOk(w.host.files, c, c.(pending := None), Failed, "unavailable");
      ClientKeepsInv(w, c');
    } else if !taken {
      ClientKeepsInv(w, c');
    } else {
      RequestKeepsReplies(w, c', q.value);
    }
  }

  /** An honest chunk is never refused: the image grows by it, or is complete. */
  lemma HonestChunkAdvances(files: map<string, Bytes>, c: R.Client, q: R.Request, r: R.Response)
    requires R.ClientOk(c) && c.job.Some? && c.result.Some? && ImageOk(files, c)
    requires HonestChunk(files, q, r) && q.id == c.job.value.0 && q.offset == |c.image|
    ensures var c' := R.Chunk(c, r);
            var grown := c.image + Slice(files[q.id], |c.image|);
            && grown <= files[q.id] && |grown| > |c.image|
            && if |grown| < c.result.value.bytes then c' == c.(image := grown)
               else grown == files[q.id] && c'.job.None?
                    && c'.reports == c.reports + [R.Report(q.id, Completed, "", files[q.id])]
  {
    var file := files[q.id];
    assert c.image == file[..|c.image|];
    if |c.image| + READ_BYTES <= |file| {
      assert file[..|c.image|] + file[|c.image|..|c.image| + READ_BYTES] == file[..|c.image| + READ_BYTES];
    } else {
      assert file[..|c.image|] + file[|c.image|..] == file;
    }
  }

  lemma ChunkKeepsOk(files: map<string, Bytes>, c: R.Client, q: R.Request, r: R.Response)
    requires R.ClientOk(c) && c.pending.None? && c.job.Some? && c.result.Some? && ImageOk(files, c)
    requires ReportsOk(files, c)
    requires HonestChunk(files, q, r) && q.id == c.job.value.0 && q.offset == |c.image|
    ensures var c' := R.Chunk(c, r); ImageOk(files, c') && ReportsOk(files, c') && c'.pending.None?
  {
    HonestChunkAdvances(files, c, q, r);
    var c' := R.Chunk(c, r);
    forall i | 0 <= i < |c'.reports| ensures ReportOk(files, c'.reports[i]) {
      if i < |c.reports| { assert ReportOk(files, c.reports[i]); }
    }
  }

  lemma ToldKeepsOk(files: map<string, Bytes>, c: R.Client, r: R.Response)
    requires c.pending.None? && c.job.Some? && ImageOk(files, c) && ReportsOk(files, c)
    requires (c.result.Some? ==> c.cancelled)
    requires R.ClientOk(c)
    requires r.state == Some(Completed) && r.bytes > 0 ==> Written(files, c.job.value.0, r.bytes, r.hash)
    ensures var c' := R.Told(c, r); ImageOk(files, c') && ReportsOk(files, c') && c'.pending.None?
  {
    var heard := if c.ask == R.AskSubmit then c.(accepted := true) else c;
    if r.state == Some(Completed) {
      EndKeepsOk(files, c, heard.(result := Some(R.Result(r.bytes, r.hash))), Cancelled, "");
      EndKeepsOk(files, c, heard, Failed, "The remote image exceeds the supported transfer size.");
    } else {
      EndKeepsOk(files, c, heard, Failed, "The Society host returned an invalid job state.");
      EndKeepsOk(files, c, heard, Failed, r.error);
      EndKeepsOk(files, c, heard, Cancelled, r.error);
    }
  }

  lemma ReceiveKeepsOk(files: map<string, Bytes>, c: R.Client, number: nat, q: R.Request, r: R.Response)
    requires R.ClientOk(c) && ImageOk(files, c) && ReportsOk(files, c) && Honest(files, q, r)
    requires c.pending == Some(number) ==>
               c.job.Some? && q.ask == c.ask && q.id == c.job.value.0 && (q.ask == R.AskRead ==> q.offset == |c.image|)
    ensures var c' := R.Receive(c, number, r);
            ImageOk(files, c') && ReportsOk(files, c') && (c' == c || c'.pending.None?)
  {
    if c.job.Some? && !c.paused && c.pending == Some(number) {
      var quiet := c.(pending := None);
      if !r.ok { EndKeepsOk(files, quiet, quiet, Failed, r.error); }
      else if c.ask == R.AskRead { ChunkKeepsOk(files, quiet, q, r); }
      else { ToldKeepsOk(files, quiet, r); }
    }
  }

  lemma DeliversKeepsInv(w: World, i: nat)
    requires Inv(w) && i < |w.replies|
    ensures Inv(Next(w, Delivers(i)))
  {
    var p := w.replies[i];
    assert ReplyOk(w, p);
    R.ReceiveIsBacked(w.client, p.number, p.response);
    ReceiveKeepsOk(w.host.files, w.client, p.number, w.requests[p.number], p.response);
    ClientKeepsInv(w, R.Receive(w.client, p.number, p.response));
  }

  lemma MoveKeepsInv(w: World, m: Move)
    requires Inv(w) && Enabled(w, m)
    ensures Inv(Next(w, m))
  {
    match m
    case HostDoes(step) =>
      StepKeepsInv(w.host, step);
      StepKeepsWhatEnded(w.host, step, "");
      HostKeepsInv(w, Generation.Next(w.host, step));
    case ClientDoes(event) => ClientDoesKeepsInv(w, event);
    case Sends(stale, late, taken) => SendsKeepsInv(w, stale, late, taken);
    case Answers(number, sound, available) => AnswersKeepsInv(w, number, sound, available);
    case Fails(number, error) => ReplyKeepsInv(w, Packet(number, ResponseOf(Refused(error))));
    case Delivers(i) => DeliversKeepsInv(w, i);
  }

  // ---------------------------------------------------------------- runs

  ghost predicate Run(worlds: seq<World>, moves: seq<Move>, peer: string) {
    && |worlds| == |moves| + 1 && worlds[0] == World(FRESH, R.IDLE, peer, [], [])
    && forall k | 0 <= k < |moves| :: Moved(worlds, moves, k)
  }

  ghost predicate Moved(worlds: seq<World>, moves: seq<Move>, k: nat)
    requires k < |moves| && |worlds| == |moves| + 1
  {
    Enabled(worlds[k], moves[k]) && worlds[k + 1] == Next(worlds[k], moves[k])
  }

  lemma {:induction false} RunKeepsWorld(worlds: seq<World>, moves: seq<Move>, peer: string, k: nat)
    requires Run(worlds, moves, peer) && k <= |moves|
    ensures Inv(worlds[k])
  {
    if k > 0 {
      RunKeepsWorld(worlds, moves, peer, k - 1);
      assert Moved(worlds, moves, k - 1);
      MoveKeepsInv(worlds[k - 1], moves[k - 1]);
    }
  }

  /** In every run, over reopened containers, lost, repeated and late answers, pauses and
      cancellations: what the client holds is a prefix of the image in the host's store, and
      whatever it reported complete is that whole image. */
  lemma ImageIsAPrefix(worlds: seq<World>, moves: seq<Move>, peer: string, k: nat)
    requires Run(worlds, moves, peer) && k <= |moves|
    ensures var w := worlds[k];
            && (w.client.image != [] ==> w.client.job.Some? && w.client.job.value.0 in w.host.files
                                         && w.client.image <= w.host.files[w.client.job.value.0])
            && (forall i | 0 <= i < |w.client.reports| ::
                  w.client.reports[i].state == Completed ==>
                    w.client.reports[i].id in w.host.files
                      && w.client.reports[i].image == w.host.files[w.client.reports[i].id])
  {
    RunKeepsWorld(worlds, moves, peer, k);
    forall i | 0 <= i < |worlds[k].client.reports|
      ensures ReportOk(worlds[k].host.files, worlds[k].client.reports[i])
    {
    }
  }

  // ---------------------------------------------------------------- progress

  /** The job is completed on the host with an image the client can hold. */
  predicate Serves(h: Host, peer: string, id: string) {
    h.open && peer != "" && id in h.jobs && h.jobs[id].peer == peer && h.jobs[id].state == Completed
      && 0 < h.jobs[id].bytes <= R.IMAGE_LIMIT
  }

  ghost predicate Path(worlds: seq<World>, moves: seq<Move>) {
    |worlds| == |moves| + 1 && forall k | 0 <= k < |moves| :: Moved(worlds, moves, k)
  }

  /** `n` moves lead from one world to the other. */
  ghost predicate Leads(w: World, end: World, n: nat) {
    exists worlds, moves :: Path(worlds, moves) && |moves| == n && worlds[0] == w && worlds[n] == end
  }

  lemma JoinedMove(a: seq<World>, x: seq<Move>, b: seq<World>, y: seq<Move>, k: nat)
    requires Path(a, x) && Path(b, y) && a[|x|] == b[0] && k < |x| + |y|
    ensures Moved(a + b[1..], x + y, k)
  {
    var worlds, moves := a + b[1..], x + y;
    if k < |x| {
      assert worlds[k] == a[k] && worlds[k + 1] == a[k + 1] && moves[k] == x[k];
      assert Moved(a, x, k);
    } else {
      var i := k - |x|;
      assert worlds[k] == b[i] && worlds[k + 1] == b[i + 1] && moves[k] == y[i];
      assert Moved(b, y, i);
    }
  }

  lemma LeadsOn(w: World, mid: World, end: World, n: nat, m: nat)
    requires Leads(w, mid, n) && Leads(mid, end, m)
    ensures Leads(w, end, n + m)
  {
    var a, x :| Path(a, x) && |x| == n && a[0] == w && a[n] == mid;
    var b, y :| Path(b, y) && |y| == m && b[0] == mid && b[m] == end;
    JoinedPath(a, x, b, y);
    assert (a + b[1..])[n + m] == b[m];
  }

  lemma JoinedPath(a: seq<World>, x: seq<Move>, b: seq<World>, y: seq<Move>)
    requires Path(a, x) && Path(b, y) && a[|x|] == b[0]
    ensures Path(a + b[1..], x + y)
  {
    forall k | 0 <= k < |x + y| ensures Moved(a + b[1..], x + y, k) { JoinedMove(a, x, b, y, k); }
  }

  /** A round in which nothing gets lost: the client asks, the host answers, the answer arrives. */
  lemma RoundLeads(w: World, sent: World, answered: World, i: nat, j: nat)
    requires sent == Next(w, Sends(true, false, true))
    requires i < |sent.requests| && answered == Next(sent, Answers(i, true, true)) && j < |answered.replies|
    ensures Leads(w, Next(answered, Delivers(j)), 3)
  {
    var worlds := [w, sent, answered, Next(answered, Delivers(j))];
    var moves := [Sends(true, false, true), Answers(i, true, true), Delivers(j)];
    assert Moved(worlds, moves, 0) && Moved(worlds, moves, 1) && Moved(worlds, moves, 2);
    assert Path(worlds, moves);
  }

  /** The client reads the image of a job the host serves, and has a beginning of it. */
  predicate IsReading(w: World, id: string, file: Bytes) {
    var c := w.client;
    && Serves(w.host, w.peer, id) && Written(w.host.files, id, w.host.jobs[id].bytes, w.host.jobs[id].hash)
    && w.host.files[id] == file
    && c.job.Some? && c.job.value.0 == id && !c.paused && !c.cancelled && c.accepted
    && c.result == Some(R.Result(|file|, Sha256(file))) && c.image <= file && |c.image| < |file|
  }

  /** Before that it submits the job, or asks how it stands. */
  predicate IsWaiting(w: World, id: string) {
    var c := w.client;
    && Serves(w.host, w.peer, id) && c.job.Some? && c.job.value.0 == id && !c.paused && !c.cancelled
    && c.result.None? && c.image == []
    && (!c.accepted ==> w.host.jobs[id].input == Some(c.job.value.1))
  }

  /** The client can always get its next request answered. */
  lemma RoundAnswers(w: World, id: string) returns (next: World, q: R.Request, r: R.Response)
    requires Serves(w.host, w.peer, id) && w.client.job.Some? && w.client.job.value.0 == id && !w.client.paused
    requires !w.client.cancelled
    requires !w.client.accepted ==> w.host.jobs[id].input == Some(w.client.job.value.1)
    ensures q == R.RequestOf(w.client) && r == ResponseOf(Handle(w.host, w.peer, id, ActionOf(q, true, true)).1)
    ensures Leads(w, next, 3) && next.host == w.host && next.peer == w.peer
    ensures next.client == R.Receive(w.client.(ask := q.ask, pending := Some(|w.requests|)), |w.requests|, r)
  {
    q := R.RequestOf(w.client);
    r := ResponseOf(Handle(w.host, w.peer, id, ActionOf(q, true, true)).1);
    var sent := Next(w, Sends(true, false, true));
    assert sent.requests == w.requests + [q] && sent.requests[|w.requests|] == q;
    var answered := Next(sent, Answers(|w.requests|, true, true));
    assert answered.replies[|w.replies|] == Packet(|w.requests|, r);
    next := Next(answered, Delivers(|w.replies|));
    RoundLeads(w, sent, answered, |w.requests|, |w.replies|);
  }

  /** One round tells the client the size and digest of the image. */
  lemma StatusRound(w: World, id: string) returns (next: World)
    requires IsWaiting(w, id) && Inv(w)
    ensures Leads(w, next, 3) && next.host == w.host && next.client.reports == w.client.reports
    ensures next.client.image == []
    ensures id in w.host.files && IsReading(next, id, w.host.files[id])
  {
    var q, r;
    next, q, r := RoundAnswers(w, id);
    assert JobOk(w.host, id, w.host.jobs[id]);
    assert r.ok && r.state == Some(Completed);
  }

  /** How many chunks the rest of an image has. */
  function Chunks(rest: nat): nat {
    if rest <= READ_BYTES then 1 else 1 + Chunks(rest - READ_BYTES)
  }

  function Longer(file: Bytes, k: nat): nat {
    if k + READ_BYTES < |file| then k + READ_BYTES else |file|
  }

  lemma GrownIs(file: Bytes, image: Bytes)
    requires image <= file
    ensures image + Slice(file, |image|) == file[..Longer(file, |image|)]
  {
    assert image == file[..|image|];
  }

  lemma ChunkIs(c: R.Client, file: Bytes, r: R.Response)
    requires c.job.Some? && c.result == Some(R.Result(|file|, Sha256(file))) && c.image <= file && |c.image| < |file|
    requires r.offset == |c.image| && r.data == Some(Slice(file, |c.image|))
    requires r.encoded == Encoded(|Slice(file, |c.image|)|)
    ensures var k := Longer(file, |c.image|);
            R.Chunk(c, r) == if k < |file| then c.(image := file[..k]) else R.Complete(c.(image := file), Completed, "")
  {
    GrownIs(file, c.image);
    assert file[..|file|] == file;
  }

  /** One round brings the next chunk, or the end. */
  lemma ReadRound(w: World, id: string, file: Bytes) returns (next: World)
    requires IsReading(w, id, file)
    ensures Leads(w, next, 3) && next.host == w.host
    ensures var k := Longer(file, |w.client.image|);
            if k < |file| then IsReading(next, id, file) && |next.client.image| == k
                               && next.client.reports == w.client.reports
            else next.client.reports == w.client.reports + [R.Report(id, Completed, "", file)]
  {
    var q, r;
    next, q, r := RoundAnswers(w, id);
    ChunkIs(w.client.(ask := R.AskRead, pending := None), file, r);
  }

  /** When nothing gets lost, the rest of the image arrives in as many rounds as it has
      chunks, and the job is reported complete with the whole image. */
  lemma {:induction false} ReadsFinish(w: World, id: string, file: Bytes) returns (end: World, n: nat)
    requires IsReading(w, id, file)
    ensures Leads(w, end, 3 * n) && end.client.reports == w.client.reports + [R.Report(id, Completed, "", file)]
    ensures n == Chunks(|file| - |w.client.image|)
    decreases |file| - |w.client.image|
  {
    var next := ReadRound(w, id, file);
    ChunksStep(file, |w.client.image|);
    if Longer(file, |w.client.image|) == |file| {
      end, n := next, 1;
    } else {
      var rest;
      end, rest := ReadsFinish(next, id, file);
      n := rest + 1;
      LeadsRound(w, next, end, rest);
    }
  }

  lemma ChunksStep(file: Bytes, k: nat)
    requires k < |file|
    ensures Chunks(|file| - k) == if Longer(file, k) == |file| then 1 else 1 + Chunks(|file| - Longer(file, k))
  {
  }

  lemma LeadsRound(w: World, next: World, end: World, n: nat)
    requires Leads(w, next, 3) && Leads(next, end, 3 * n)
    ensures Leads(w, end, 3 * (n + 1))
  {
    LeadsOn(w, next, end, 3, 3 * n);
  }

  /** A client that waits for a job the host has completed, neither paused nor cancelled and
      without a result, can get the image: by one round for the state of the job and one for
      each chunk. */
  lemma CompletedJobsArrive(w: World, id: string) returns (end: World, n: nat)
    requires IsWaiting(w, id) && Inv(w)
    ensures id in w.host.files && Leads(w, end, 3 * n)
    ensures end.client.reports == w.client.reports + [R.Report(id, Completed, "", w.host.files[id])]
    ensures n == 1 + Chunks(|w.host.files[id]|)
  {
    var next := StatusRound(w, id);
    end, n := ReadsFinish(next, id, w.host.files[id]);
    LeadsRound(w, next, end, n);
    n := n + 1;
  }
}
