/** The client of remote generation: it submits a job, asks for its state, and reads the
    image chunk by chunk. */
module RemoteImage {
  import opened Records
  import opened Generation

  const IMAGE_LIMIT: int := 64 * 1024 * 1024
  const ENCODED_LIMIT: nat := 350000

  datatype Ask = AskSubmit | AskCancel | AskStatus | AskRead

  /** What is sent to the host, and what comes back.  `valid` stands for schema and id;
      a state that is none of the host's is None; `data` is None when it does not decode. */
  datatype Request = Request(ask: Ask, id: string, input: Bytes, offset: int)

  datatype Response = Response(ok: bool, error: string, valid: bool, state: Option<JobState>, bytes: int, hash: Digest,
                               offset: int, data: Option<Bytes>, encoded: nat)

  datatype Result = Result(bytes: int, hash: Digest)

  /** What the client reports when a job ends. */
  datatype Report = Report(id: string, state: JobState, error: string, image: Bytes)

  /** `pending` is the number of the request an answer is awaited for, `ask` what it asks. */
  datatype Client = Client(job: Option<(string, Bytes)>, accepted: bool, cancelled: bool, paused: bool,
                           pending: Option<nat>,
                           ask: Ask, result: Option<Result>, image: Bytes, reports: seq<Report>)

  const IDLE := Client(None, false, false, false, None, AskStatus, None, [], [])

  /** The transport's own errors, after which the client asks again. */
  const TRANSIENT: set<string> := {"timeout", "peer_unavailable", "host_unavailable", "disconnected", "connection_lost",
                                   "not_connected_or_busy", "stopped", "transport_unavailable"}

  // ---------------------------------------------------------------- the client's operations

  function Start(c: Client, id: string, input: Bytes): Client {
    if c.job.Some? then c
    else c.(job := Some((id, input)), result := None, image := [], pending := None, accepted := false,
            cancelled := false)
  }

  function Complete(c: Client, state: JobState, error: string): Client
    requires c.job.Some?
  {
    c.(job := None, pending := None, image := [], result := None,
       reports := c.reports + [Report(c.job.value.0, state, error, if state == Completed then c.image else [])])
  }

  function NextAsk(c: Client): Ask {
    if c.cancelled then AskCancel else if !c.accepted then AskSubmit else if c.result.None? then AskStatus else AskRead
  }

  function RequestOf(c: Client): Request
    requires c.job.Some?
  {
    Request(NextAsk(c), c.job.value.0, c.job.value.1, |c.image|)
  }

  /** Sends the next request unless one is awaited that is not `stale`; `late` says that the host
      has been silent too long, `number` is what the transport calls the request, if it takes it. */
  function Tick(c: Client, stale: bool, late: bool, number: Option<nat>): (Client, Option<Request>) {
    if c.job.None? || c.paused || (c.pending.Some? && !stale) then (c, None)
    else if late then (Complete(c.(pending := None), Failed, "unavailable"), None)
    else (c.(ask := NextAsk(c), pending := number), Some(RequestOf(c)))
  }

  function SetPaused(c: Client, paused: bool): Client {
    c.(paused := paused, pending := None)
  }

  /** Cancelling gives up the awaited answer, so that the next request is sent at once. */
  function CancelJob(c: Client): Client {
    if c.job.None? then c else c.(cancelled := true, pending := None)
  }

  function Chunk(c: Client, r: Response): Client
    requires c.job.Some? && c.result.Some?
  {
    var size := c.result.value.bytes;
    if r.data.None? || r.encoded > ENCODED_LIMIT || r.data.value == [] || r.offset != |c.image|
      || |c.image| + |r.data.value| > size then
      Complete(c, Failed, "The remote image transfer is invalid.")
    else
      var grown := c.(image := c.image + r.data.value);
      if |grown.image| != size then grown
      else if Sha256(grown.image) != c.result.value.hash
        then Complete(grown, Failed, "The remote image checksum does not match.")
      else Complete(grown, Completed, "")
  }

  /** A digest has 64 characters. */
  predicate DigestShaped(d: Digest) {
    match d
    case NoDigest => false
    case Sha256(_) => true
    case OtherDigest(text) => |text| == 64
  }

  function Told(c: Client, r: Response): Client
    requires c.job.Some?
  {
    var heard := if c.ask == AskSubmit then c.(accepted := true) else c;
    match r.state
    case None => Complete(heard, Failed, "The Society host returned an invalid job state.")
    case Some(Failed) => Complete(heard, Failed, r.error)
    case Some(Cancelled) => Complete(heard, Cancelled, r.error)
    case Some(Completed) =>
      if r.bytes <= 0 || r.bytes > IMAGE_LIMIT || !DigestShaped(r.hash) then
        Complete(heard, Failed, "The remote image exceeds the supported transfer size.")
      else
        var known := heard.(result := Some(Result(r.bytes, r.hash)));
        if c.cancelled then Complete(known, Cancelled, "") else known
    case Some(_) => heard
  }

  /** An answer counts only while it is awaited. */
  function Receive(c: Client, number: nat, r: Response): Client {
    if c.job.None? || c.paused || c.pending != Some(number) then c
    else
      var quiet := c.(pending := None);
      if !r.ok then (if r.error in TRANSIENT then quiet else Complete(quiet, Failed, r.error))
      else if !r.valid then Complete(quiet, Failed, "The Society host returned an invalid generation response.")
      else if c.ask == AskRead then (if c.result.Some? then Chunk(quiet, r)
                                     else Complete(quiet, Failed, "The remote image transfer is invalid."))
      else Told(quiet, r)
  }

  // ---------------------------------------------------------------- any host

  /** What the client can rely on whatever the host answers: it reads only once the size and
      digest are known, has nothing before, and never reads on after a cancellation. */
  predicate ClientOk(c: Client) {
    && (c.pending.Some? ==> c.job.Some? && (c.cancelled <==> c.ask == AskCancel)
                            && (c.ask == AskSubmit || c.cancelled || c.accepted)
                            && (c.ask == AskRead ==> c.result.Some?)
                            && (c.result.Some? ==> c.ask == AskRead || c.ask == AskCancel))
    && (c.result.None? ==> c.image == [])
    && (c.result.Some? ==> c.accepted && c.job.Some?)
    && (c.result.Some? ==> |c.image| < c.result.value.bytes)
  }

  datatype Event =
    | Starts(id: string, input: Bytes)
    | Ticks(stale: bool, late: bool, sent: Option<nat>)
    | Pauses(paused: bool)
    | CancelsJob
    | Receives(number: nat, response: Response)

  function Happens(c: Client, e: Event): Client {
    match e
    case Starts(id, input) => Start(c, id, input)
    case Ticks(stale, late, sent) => Tick(c, stale, late, sent).0
    case Pauses(paused) => SetPaused(c, paused)
    case CancelsJob => CancelJob(c)
    case Receives(number, response) => Receive(c, number, response)
  }

  /** At most one report is added, and a report of success is backed by a size and a digest
      the image was checked against. */
  predicate Backed(c: Client, c': Client) {
    || c'.reports == c.reports
    || (c'.reports != [] && c'.reports[..|c'.reports| - 1] == c.reports && c.job.Some?
        && var last := c'.reports[|c'.reports| - 1];
           && last.id == c.job.value.0
           && (last.state == Completed ==>
                 c.result.Some? && |last.image| == c.result.value.bytes && Sha256(last.image) == c.result.value.hash
                 && c.image <= last.image && !c.cancelled))
  }

  lemma EndIsBacked(c: Client, d: Client, state: JobState, error: string)
    requires c.job.Some? && d.job == c.job && d.reports == c.reports && state != Completed
    ensures ClientOk(Complete(d, state, error)) && Backed(c, Complete(d, state, error))
  {
    assert Complete(d, state, error).reports[..|c.reports|] == c.reports;
  }

  lemma ChunkIsBacked(c: Client, r: Response)
    requires ClientOk(c) && c.pending.None? && c.job.Some? && c.result.Some? && !c.cancelled
    ensures ClientOk(Chunk(c, r)) && Backed(c, Chunk(c, r))
  {
  }

  lemma ToldIsBacked(c: Client, r: Response)
    requires ClientOk(c) && c.pending.None? && c.job.Some? && (c.cancelled <==> c.ask == AskCancel)
    requires (c.result.Some? ==> c.cancelled)
    requires c.accepted || c.cancelled || c.ask == AskSubmit
    ensures ClientOk(Told(c, r)) && Backed(c, Told(c, r))
  {
    var heard := if c.ask == AskSubmit then c.(accepted := true) else c;
    var known := heard.(result := Some(Result(r.bytes, r.hash)));
    if r.state == Some(Completed) {
      EndIsBacked(c, known, Cancelled, "");
      EndIsBacked(c, heard, Failed, "The remote image exceeds the supported transfer size.");
    } else {
      EndIsBacked(c, heard, Failed, "The Society host returned an invalid job state.");
      EndIsBacked(c, heard, Failed, r.error);
      EndIsBacked(c, heard, Cancelled, r.error);
    }
  }

  lemma ReceiveIsBacked(c: Client, number: nat, r: Response)
    requires ClientOk(c)
    ensures ClientOk(Receive(c, number, r)) && Backed(c, Receive(c, number, r))
  {
    var quiet := c.(pending := None);
    if c.job.Some? && !c.paused && c.pending == Some(number) && r.ok && r.valid {
      if c.ask == AskRead { ChunkIsBacked(quiet, r); } else { ToldIsBacked(quiet, r); }
    }
  }

  /** With any host whatsoever, and any errors in between, a job is reported complete only
      with an image of the announced size and digest, and never after it was cancelled. */
  lemma CompleteOnlyWhenWhole(c: Client, e: Event)
    requires ClientOk(c)
    ensures ClientOk(Happens(c, e)) && Backed(c, Happens(c, e))
  {
    if e.Receives? { ReceiveIsBacked(c, e.number, e.response); }
  }
}
