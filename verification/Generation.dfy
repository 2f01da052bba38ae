/** Image generation on the host: a queue of jobs, engine threads, cancellation, and epochs
    that separate one opening of the container from the next. */
module Generation {
  import opened Records

  const QUEUE_LIMIT: nat := 64
  const JOB_LIMIT: nat := 4096
  const READ_BYTES: nat := 192 * 1024

  datatype JobState = Queued | Running | Cancelling | Completed | Failed | Cancelled

  /** `input` is None for a job that was cancelled before it was submitted. */
  datatype Job = Job(peer: string, input: Option<Bytes>, state: JobState, error: string, bytes: nat, hash: Digest)

  datatype Outcome = Outcome(cancelled: bool, error: string, bytes: nat, hash: Digest)

  /** An engine thread: at work, past its last look at the cancel flag, or ended. */
  datatype Phase = Working | Saving(bytes: Bytes) | Done(outcome: Outcome)

  datatype Thread = Thread(id: string, epoch: nat, phase: Phase)

  /** `flags` are the cancel flags that are set; a job shares its flag with its thread.
      `files` are the images written, by job, and `ran` records every thread started. */
  datatype Host = Host(open: bool, jobs: map<string, Job>, queue: seq<string>, active: Option<string>,
                       threads: seq<Thread>,
                       epoch: nat, flags: set<(nat, string)>, files: map<string, Bytes>, ran: seq<(nat, string)>)

  datatype Reply = Refused(error: string) | Status(job: Job) | Data(offset: int, bytes: Bytes)

  predicate Terminal(s: JobState) {
    s == Completed || s == Failed || s == Cancelled
  }

  // ---------------------------------------------------------------- requests

  /** A job is submitted; `sound` says that its parameters are valid, `available` that its model is. */
  function Submit(h: Host, peer: string, id: string, input: Bytes, sound: bool, available: bool): (Host, Reply) {
    if id in h.jobs then
      if h.jobs[id].input.Some? && h.jobs[id].input.value != input then (h, Refused("generation_id_conflict"))
      else (h, Status(h.jobs[id]))
    else if !sound then (h, Refused("invalid_generation_parameters"))
    else if !available then (h, Refused("model"))
    else if |h.queue| >= QUEUE_LIMIT || |h.jobs| >= JOB_LIMIT then (h, Refused("generation_queue_full"))
    else
      var job := Job(peer, Some(input), Queued, "", 0, NoDigest);
      (h.(jobs := h.jobs[id := job], queue := h.queue + [id]), Status(job))
  }

  function Cancel(h: Host, peer: string, id: string): (Host, Reply) {
    if id !in h.jobs then
      if |h.jobs| >= JOB_LIMIT then (h, Refused("generation_queue_full"))
      else
        var job := Job(peer, None, Cancelled, "", 0, NoDigest);
        (h.(jobs := h.jobs[id := job], flags := h.flags + {(h.epoch, id)}), Status(job))
    else
      var job := h.jobs[id];
      if Terminal(job.state) then (h, Status(job))
      else
        var told := job.(state := if job.state == Queued then Cancelled else Cancelling);
        (h.(jobs := h.jobs[id := told], flags := h.flags + {(h.epoch, id)}), Status(told))
  }

  function Slice(file: Bytes, offset: nat): Bytes
    requires offset <= |file|
  {
    if offset + READ_BYTES <= |file| then file[offset..offset + READ_BYTES] else file[offset..]
  }

  function Read(h: Host, id: string, offset: int): Reply {
    if id !in h.jobs then Refused("generation_job_not_found")
    else if h.jobs[id].state != Completed then Refused("invalid_generation_action")
    else if offset < 0 || offset >= h.jobs[id].bytes || id !in h.files then Refused("invalid_generation_result_offset")
    else if offset >= |h.files[id]| then Refused("generation_result_unavailable")
    else Data(offset, Slice(h.files[id], offset))
  }

  datatype Action = Submits(input: Bytes, sound: bool, available: bool) | Cancels | AsksStatus | Reads(offset: int)

  function Handle(h: Host, peer: string, id: string, action: Action): (Host, Reply) {
    if peer == "" || !h.open then (h, Refused("generation_host_unavailable"))
    else if id in h.jobs && h.jobs[id].peer != peer then (h, Refused("generation_owner_mismatch"))
    else match action
      case Submits(input, sound, available) => Submit(h, peer, id, input, sound, available)
      case Cancels => Cancel(h, peer, id)
      case AsksStatus => (h, if id in h.jobs then Status(h.jobs[id]) else Refused("generation_job_not_found"))
      case Reads(offset) => (h, Read(h, id, offset))
  }

  // ---------------------------------------------------------------- the engine

  /** The thread watched is the last one started. */
  predicate Busy(h: Host) {
    h.threads != [] && !h.threads[|h.threads| - 1].phase.Done?
  }

  /** Takes the next job of the queue, unless the engine is in use; `prepared` says that
      its directories and model could be resolved. */
  function Pump(h: Host, prepared: bool): Host {
    if !h.open || h.active.Some? || Busy(h) || h.queue == [] then h
    else
      var id, rest := h.queue[0], h.(queue := h.queue[1..]);
      if id !in h.jobs || (h.epoch, id) in h.flags then rest
      else if !prepared then rest.(jobs := h.jobs[id := h.jobs[id].(state := Failed, error := "resources")])
      else rest.(jobs := h.jobs[id := h.jobs[id].(state := Running)], active := Some(id),
                 threads := h.threads + [Thread(id, h.epoch, Working)], ran := h.ran + [(h.epoch, id)])
  }

  /** What the engine comes back with: it was stopped, reports an error, throws one, or has an image. */
  datatype Product = Stopped | Reported(error: string) | Threw(error: string) | Image(bytes: Bytes)

  const BROKEN_OFF := Outcome(true, "", 0, NoDigest)

  /** The engine returns.  An error thrown with an empty text is indistinguishable from success
      without an image. */
  function Returned(t: Thread, flag: bool, product: Product): Thread {
    t.(phase := match product
                case Stopped => Done(BROKEN_OFF)
                case Reported(error) => Done(if flag then BROKEN_OFF else Outcome(false, error, 0, NoDigest))
                case Threw(error) => Done(Outcome(false, error, 0, NoDigest))
                case Image(bytes) => if flag then Done(BROKEN_OFF) else Saving(bytes))
  }

  function EndsWith(h: Host, i: nat, outcome: Outcome): Host
    requires i < |h.threads|
  {
    h.(threads := h.threads[i := h.threads[i].(phase := Done(outcome))])
  }

  /** The thread saves its image, unless a result of that job is there already. */
  function Saved(h: Host, i: nat, written: bool): Host
    requires i < |h.threads| && h.threads[i].phase.Saving?
  {
    var t, bytes := h.threads[i], h.threads[i].phase.bytes;
    if t.id in h.files then
      EndsWith(h, i, Outcome(false, "A host result already exists for this job.", 0, NoDigest))
    else if !written then
      EndsWith(h, i, Outcome(false, "Cannot save the generated host image.", 0, NoDigest))
    else
      EndsWith(h.(files := h.files[t.id := bytes]), i, Outcome(false, "", |bytes|, Sha256(bytes)))
  }

  function Ended(j: Job, flag: bool, o: Outcome): Job {
    if o.cancelled || flag then j.(state := Cancelled, error := o.error)
    else if o.error != "" then j.(state := Failed, error := o.error)
    else j.(state := Completed, error := "", bytes := o.bytes, hash := o.hash)
  }

  /** The end of the watched thread is noticed: it counts only in the epoch it was started in. */
  function Noticed(h: Host): Host
    requires h.threads != [] && !Busy(h)
  {
    var last := |h.threads| - 1;
    var t, free := h.threads[last], h.(active := None, threads := h.threads[..last]);
    if t.epoch != h.epoch || t.id !in h.jobs then free
    else free.(jobs := h.jobs[t.id := Ended(h.jobs[t.id], (h.epoch, t.id) in h.flags, t.phase.outcome)])
  }

  /** Closing sets every job's flag and forgets the jobs; a thread at work is not waited for. */
  function Close(h: Host): Host {
    h.(epoch := h.epoch + 1, open := false, jobs := map[], queue := [],
       flags := h.flags + set id | id in h.jobs :: (h.epoch, id))
  }

  datatype Step =
    | Requests(peer: string, id: string, action: Action)
    | Pumps(prepared: bool)
    | Returns(i: nat, product: Product)
    | Saves(i: nat, written: bool)
    | Notices
    | Closes
    | Opens(same: bool, available: bool)   // `same`: the container that is open is asked for again

  predicate Enabled(h: Host, step: Step) {
    match step
    case Returns(i, product) =>
      i < |h.threads| && h.threads[i].phase.Working? && (product.Reported? ==> product.error != "")
    case Saves(i, _) => i < |h.threads| && h.threads[i].phase.Saving?
    case Notices => h.threads != [] && !Busy(h)
    case _ => true
  }

  function Next(h: Host, step: Step): Host
    requires Enabled(h, step)
  {
    match step
    case Requests(peer, id, action) => Handle(h, peer, id, action).0
    case Pumps(prepared) => Pump(h, prepared)
    case Returns(i, product) =>
      h.(threads := h.threads[i := Returned(h.threads[i], (h.threads[i].epoch, h.threads[i].id) in h.flags, product)])
    case Saves(i, written) => Saved(h, i, written)
    case Notices => Noticed(h)
    case Closes => Close(h)
    case Opens(same, available) => if h.open && same then h else Close(h).(open := available)
  }

  // ---------------------------------------------------------------- what always holds

  ghost predicate Once<T(!new)>(s: seq<T>) {
    forall i, j | 0 <= i < j < |s| :: s[i] != s[j]
  }

  predicate Runs(h: Host, id: string) {
    h.active == Some(id) && |h.threads| == 1 && h.threads[0].id == id && h.threads[0].epoch == h.epoch
  }

  /** A job's state against the flag, the threads and the images: one that works has the
      thread, one cancelled before its submission never ran, and a completed one tells the
      size and digest of its image. */
  predicate JobOk(h: Host, id: string, j: Job) {
    && (j.input.None? ==> j.state == Cancelled)
    && match j.state
    case Queued => (h.epoch, id) !in h.flags && id in h.queue
    case Running => Runs(h, id) && (h.epoch, id) !in h.flags
    case Cancelling => Runs(h, id) && (h.epoch, id) in h.flags
    case Completed => (h.epoch, id) !in h.flags && (j.bytes > 0 ==> Written(h.files, id, j.bytes, j.hash))
    case Failed => (h.epoch, id) !in h.flags
    case Cancelled => j.input.None? ==> (h.epoch, id) in h.flags && (h.epoch, id) !in h.ran
  }

  predicate Written(files: map<string, Bytes>, id: string, bytes: int, hash: Digest) {
    id in files && bytes == |files[id]| && hash == Sha256(files[id])
  }

  ghost predicate JobsOk(h: Host) {
    forall id | id in h.jobs :: JobOk(h, id, h.jobs[id])
  }

  /** What waits has not run, and is either queued or was cancelled meanwhile. */
  predicate Waits(h: Host, id: string) {
    id in h.jobs && (h.epoch, id) !in h.ran
      && (h.jobs[id].state == Queued || (h.jobs[id].state == Cancelled && (h.epoch, id) in h.flags))
  }

  ghost predicate QueueOk(h: Host) {
    Once(h.queue) && forall i | 0 <= i < |h.queue| :: Waits(h, h.queue[i])
  }

  /** An id runs at most once per epoch. */
  ghost predicate RanOk(h: Host) {
    && Once(h.ran)
    && (forall i | 0 <= i < |h.ran| :: h.ran[i].0 <= h.epoch && (h.ran[i].0 == h.epoch ==> h.ran[i].1 in h.jobs))
  }

  predicate FlagsOk(h: Host) {
    forall f | f in h.flags :: f.0 <= h.epoch && (f.0 == h.epoch ==> f.1 in h.jobs)
  }

  /** At most one engine thread; its job, if of this epoch, is at work. */
  predicate ThreadsOk(h: Host) {
    if h.active.None? then h.threads == []
    else |h.threads| == 1 && h.threads[0].id == h.active.value && ThreadOk(h, h.threads[0])
  }

  predicate ThreadOk(h: Host, t: Thread) {
    && t.epoch <= h.epoch
    && (t.epoch == h.epoch ==> t.id in h.jobs && (t.epoch, t.id) in h.ran
                               && (h.jobs[t.id].state == Running || h.jobs[t.id].state == Cancelling))
    && (t.phase.Done? ==> OutcomeOk(h.files, t.id, t.phase.outcome))
  }

  predicate OutcomeOk(files: map<string, Bytes>, id: string, o: Outcome) {
    !o.cancelled && o.error == "" && o.bytes > 0 ==> Written(files, id, o.bytes, o.hash)
  }

  ghost predicate Inv(h: Host) {
    JobsOk(h) && QueueOk(h) && RanOk(h) && FlagsOk(h) && ThreadsOk(h)
  }

  const FRESH := Host(false, map[], [], None, [], 0, {}, map[], [])

  // ---------------------------------------------------------------- every step keeps it

  lemma SubmitKeepsInv(h: Host, peer: string, id: string, input: Bytes, sound: bool, available: bool)
    requires Inv(h)
    ensures Inv(Submit(h, peer, id, input, sound, available).0)
  {
    var h' := Submit(h, peer, id, input, sound, available).0;
    if h' != h {
      assert (h.epoch, id) !in h.ran;
      assert h'.queue[|h.queue|] == id;
      forall k | k in h'.jobs ensures JobOk(h', k, h'.jobs[k]) {
        if k != id { assert JobOk(h, k, h.jobs[k]); }
      }
      forall i | 0 <= i < |h'.queue| ensures Waits(h', h'.queue[i]) {
        if i < |h.queue| { assert Waits(h, h.queue[i]); }
      }
    }
  }

  lemma CancelUnknownKeepsInv(h: Host, peer: string, id: string)
    requires Inv(h) && id !in h.jobs
    ensures Inv(Cancel(h, peer, id).0)
  {
    var h' := Cancel(h, peer, id).0;
    forall k | k in h'.jobs ensures JobOk(h', k, h'.jobs[k]) {
      if k != id { assert JobOk(h, k, h.jobs[k]); }
    }
    forall i | 0 <= i < |h'.queue| ensures Waits(h', h'.queue[i]) { assert Waits(h, h.queue[i]); }
  }

  lemma CancelKnownKeepsInv(h: Host, peer: string, id: string)
    requires Inv(h) && id in h.jobs && !Terminal(h.jobs[id].state)
    ensures Inv(Cancel(h, peer, id).0)
  {
    var h' := Cancel(h, peer, id).0;
    assert JobOk(h, id, h.jobs[id]);
    forall k | k in h'.jobs ensures JobOk(h', k, h'.jobs[k]) {
      if k != id { assert JobOk(h, k, h.jobs[k]); }
    }
    forall i | 0 <= i < |h'.queue| ensures Waits(h', h'.queue[i]) { assert Waits(h, h.queue[i]); }
  }

  lemma CancelKeepsInv(h: Host, peer: string, id: string)
    requires Inv(h)
    ensures Inv(Cancel(h, peer, id).0)
  {
    if id !in h.jobs {
      CancelUnknownKeepsInv(h, peer, id);
    } else if !Terminal(h.jobs[id].state) {
      CancelKnownKeepsInv(h, peer, id);
    }
  }

  lemma PumpKeepsInv(h: Host, prepared: bool)
    requires Inv(h)
    ensures Inv(Pump(h, prepared))
  {
    var h' := Pump(h, prepared);
    if h.queue != [] && h'.queue != h.queue {
      var id := h.queue[0];
      assert Waits(h, id) && JobOk(h, id, h.jobs[id]);
      assert h.queue == [id] + h'.queue;
      forall k | k in h'.jobs ensures JobOk(h', k, h'.jobs[k]) {
        if k != id { assert JobOk(h, k, h.jobs[k]); }
      }
      forall i | 0 <= i < |h'.queue| ensures Waits(h', h'.queue[i]) {
        assert h'.queue[i] == h.queue[i + 1] && Waits(h, h.queue[i + 1]);
      }
      if h'.ran != h.ran { assert h'.ran[|h.ran|] == (h.epoch, id); }
    }
  }

  lemma ReturnsKeepsInv(h: Host, i: nat, product: Product)
    requires Inv(h) && Enabled(h, Returns(i, product))
    ensures Inv(Next(h, Returns(i, product)))
  {
    var h' := Next(h, Returns(i, product));
    forall k | k in h'.jobs ensures JobOk(h', k, h'.jobs[k]) { assert JobOk(h, k, h.jobs[k]); }
    forall i | 0 <= i < |h'.queue| ensures Waits(h', h'.queue[i]) { assert Waits(h, h.queue[i]); }
  }

  lemma SavesKeepsInv(h: Host, i: nat, written: bool)
    requires Inv(h) && Enabled(h, Saves(i, written))
    ensures Inv(Saved(h, i, written))
  {
    var t := h.threads[i];
    if written && t.id !in h.files {
      WrittenKeepsInv(h, t.phase.bytes);
    } else if t.id in h.files {
      EndedThreadKeepsInv(h, Done(Outcome(false, "A host result already exists for this job.", 0, NoDigest)));
    } else {
      EndedThreadKeepsInv(h, Done(Outcome(false, "Cannot save the generated host image.", 0, NoDigest)));
    }
  }

  lemma EndedThreadKeepsInv(h: Host, phase: Phase)
    requires Inv(h) && |h.threads| == 1 && (phase.Done? ==> phase.outcome.error != "")
    ensures Inv(h.(threads := h.threads[0 := h.threads[0].(phase := phase)]))
  {
    var h' := h.(threads := h.threads[0 := h.threads[0].(phase := phase)]);
    forall k | k in h'.jobs ensures JobOk(h', k, h'.jobs[k]) { assert JobOk(h, k, h.jobs[k]); }
    forall i | 0 <= i < |h'.queue| ensures Waits(h', h'.queue[i]) { assert Waits(h, h.queue[i]); }
  }

  /** An image of a job that had none, and the end of its thread. */
  lemma WrittenKeepsInv(h: Host, bytes: Bytes)
    requires Inv(h) && |h.threads| == 1 && h.threads[0].id !in h.files
    ensures Inv(h.(files := h.files[h.threads[0].id := bytes],
                   threads := h.threads[0 := h.threads[0].(phase := Done(Outcome(false, "", |bytes|, Sha256(bytes))))]))
  {
    var h' := h.(files := h.files[h.threads[0].id := bytes],
                 threads := h.threads[0 := h.threads[0].(phase := Done(Outcome(false, "", |bytes|, Sha256(bytes))))]);
    forall k | k in h'.jobs ensures JobOk(h', k, h'.jobs[k]) { assert JobOk(h, k, h.jobs[k]); }
    forall i | 0 <= i < |h'.queue| ensures Waits(h', h'.queue[i]) { assert Waits(h, h.queue[i]); }
  }

  lemma NoticedKeepsInv(h: Host)
    requires Inv(h) && Enabled(h, Notices)
    ensures Inv(Noticed(h))
  {
    var h', t := Noticed(h), h.threads[0];
    forall k | k in h'.jobs ensures JobOk(h', k, h'.jobs[k]) { assert JobOk(h, k, h.jobs[k]); }
    forall i | 0 <= i < |h'.queue| ensures Waits(h', h'.queue[i]) { assert Waits(h, h.queue[i]); }
  }

  lemma CloseKeepsInv(h: Host, open: bool)
    requires Inv(h)
    ensures Inv(Close(h).(open := open))
  {
  }

  lemma StepKeepsInv(h: Host, step: Step)
    requires Inv(h) && Enabled(h, step)
    ensures Inv(Next(h, step))
  {
    match step
    case Requests(peer, id, action) =>
      match action {
        case Submits(input, sound, available) => SubmitKeepsInv(h, peer, id, input, sound, available);
        case Cancels => CancelKeepsInv(h, peer, id);
        case AsksStatus =>
        case Reads(_) =>
      }
    case Pumps(prepared) => PumpKeepsInv(h, prepared);
    case Returns(i, product) => ReturnsKeepsInv(h, i, product);
    case Saves(i, written) => SavesKeepsInv(h, i, written);
    case Notices => NoticedKeepsInv(h);
    case Closes => CloseKeepsInv(h, false);
    case Opens(same, available) => if !(h.open && same) { CloseKeepsInv(h, available); }
  }

  // ---------------------------------------------------------------- what no step undoes

  /** Images are never replaced or removed. */
  predicate FilesKept(h: Host, h': Host) {
    forall id | id in h.files :: id in h'.files && h'.files[id] == h.files[id]
  }

  /** Within its epoch a job that came to an end stays as it is, and is not run again. */
  predicate EndKept(h: Host, h': Host, id: string) {
    id in h.jobs && Terminal(h.jobs[id].state) && h'.epoch == h.epoch ==>
      && id in h'.jobs && h'.jobs[id] == h.jobs[id]
      && ((h.epoch, id) in h'.ran <==> (h.epoch, id) in h.ran)
  }

  lemma RequestKeepsWhatEnded(h: Host, peer: string, id: string, action: Action, other: string)
    requires Inv(h)
    ensures var h' := Handle(h, peer, id, action).0; h'.epoch == h.epoch && FilesKept(h, h') && EndKept(h, h', other)
  {
  }

  lemma PumpKeepsWhatEnded(h: Host, prepared: bool, id: string)
    requires Inv(h)
    ensures var h' := Pump(h, prepared); h'.epoch == h.epoch && FilesKept(h, h') && EndKept(h, h', id)
  {
    if h.queue != [] {
      assert Waits(h, h.queue[0]) && JobOk(h, h.queue[0], h.jobs[h.queue[0]]);
    }
  }

  /** A thread that saves adds at most a file that was not there. */
  lemma SavedTouches(h: Host, i: nat, written: bool)
    requires i < |h.threads| && h.threads[i].phase.Saving?
    ensures var h' := Saved(h, i, written);
            h' == h.(files := h'.files, threads := h'.threads) && FilesKept(h, h')
  {
  }

  lemma ThreadKeepsWhatEnded(h: Host, step: Step, id: string)
    requires Enabled(h, step) && (step.Returns? || step.Saves?)
    ensures var h' := Next(h, step); h'.epoch == h.epoch && FilesKept(h, h') && EndKept(h, h', id)
  {
    if step.Saves? { SavedTouches(h, step.i, step.written); }
  }

  lemma NoticeKeepsWhatEnded(h: Host, id: string)
    requires Inv(h) && Enabled(h, Notices)
    ensures var h' := Noticed(h); h'.epoch == h.epoch && FilesKept(h, h') && EndKept(h, h', id)
  {
  }

  lemma StepKeepsWhatEnded(h: Host, step: Step, id: string)
    requires Inv(h) && Enabled(h, step)
    ensures h.epoch <= Next(h, step).epoch && FilesKept(h, Next(h, step)) && EndKept(h, Next(h, step), id)
  {
    match step
    case Requests(peer, other, action) => RequestKeepsWhatEnded(h, peer, other, action, id);
    case Pumps(prepared) => PumpKeepsWhatEnded(h, prepared, id);
    case Notices => NoticeKeepsWhatEnded(h, id);
    case Closes =>
    case Opens(_, _) =>
    case _ => ThreadKeepsWhatEnded(h, step, id);
  }

  /** A thread started in an earlier epoch ends without any effect on the jobs of this one. */
  lemma OldResultsChangeNothing(h: Host)
    requires Inv(h) && Enabled(h, Notices) && h.threads[0].epoch != h.epoch
    ensures Noticed(h) == h.(active := None, threads := [])
  {
    assert h.threads[..0] == [];
  }

  // ---------------------------------------------------------------- runs

  ghost predicate Run(hosts: seq<Host>, steps: seq<Step>) {
    && |hosts| == |steps| + 1 && hosts[0] == FRESH
    && forall k | 0 <= k < |steps| :: Stepped(hosts, steps, k)
  }

  ghost predicate Stepped(hosts: seq<Host>, steps: seq<Step>, k: nat)
    requires k < |steps| && |hosts| == |steps| + 1
  {
    Enabled(hosts[k], steps[k]) && hosts[k + 1] == Next(hosts[k], steps[k])
  }

  lemma {:induction false} RunKeepsInv(hosts: seq<Host>, steps: seq<Step>, k: nat)
    requires Run(hosts, steps) && k <= |steps|
    ensures Inv(hosts[k])
  {
    if k > 0 {
      RunKeepsInv(hosts, steps, k - 1);
      assert Stepped(hosts, steps, k - 1);
      StepKeepsInv(hosts[k - 1], steps[k - 1]);
    }
  }

  /** In every run: never two engine threads at once, and no id twice in one epoch. */
  lemma OneEngineRunAtATime(hosts: seq<Host>, steps: seq<Step>, k: nat)
    requires Run(hosts, steps) && k <= |steps|
    ensures |hosts[k].threads| <= 1
    ensures forall i, j | 0 <= i < j < |hosts[k].ran| :: hosts[k].ran[i] != hosts[k].ran[j]
  {
    RunKeepsInv(hosts, steps, k);
  }

  /** In every run: epochs only grow, images stay as written, and a job that came to an end
      stays that way while its epoch lasts. */
  lemma {:induction false} EndsAreFinal(hosts: seq<Host>, steps: seq<Step>, a: nat, b: nat, id: string)
    requires Run(hosts, steps) && a <= b <= |steps|
    ensures hosts[a].epoch <= hosts[b].epoch && FilesKept(hosts[a], hosts[b]) && EndKept(hosts[a], hosts[b], id)
    decreases b - a
  {
    if a < b {
      EndsAreFinal(hosts, steps, a, b - 1, id);
      RunKeepsInv(hosts, steps, b - 1);
      assert Stepped(hosts, steps, b - 1);
      StepKeepsWhatEnded(hosts[b - 1], steps[b - 1], id);
    }
  }

  lemma {:induction false} FlagsGrow(hosts: seq<Host>, steps: seq<Step>, a: nat, b: nat)
    requires Run(hosts, steps) && a <= b <= |steps|
    ensures hosts[a].flags <= hosts[b].flags
    decreases b - a
  {
    if a < b {
      FlagsGrow(hosts, steps, a, b - 1);
      assert Stepped(hosts, steps, b - 1);
    }
  }

  /** In every run: once a job's cancel flag is set it can only end cancelled, however far
      its engine thread had come. */
  lemma CancelledNeverCompletes(hosts: seq<Host>, steps: seq<Step>, a: nat, b: nat, id: string)
    requires Run(hosts, steps) && a <= b <= |steps| && (hosts[a].epoch, id) in hosts[a].flags
    ensures hosts[b].epoch == hosts[a].epoch ==>
              id in hosts[b].jobs && hosts[b].jobs[id].state in {Cancelling, Cancelled}
  {
    FlagsGrow(hosts, steps, a, b);
    RunKeepsInv(hosts, steps, b);
    if hosts[b].epoch == hosts[a].epoch {
      assert (hosts[b].epoch, id) in hosts[b].flags;
      assert JobOk(hosts[b], id, hosts[b].jobs[id]);
    }
  }

  /** In every run: a job cancelled before an engine thread was started for it, submitted or
      not yet, is never run in that epoch. */
  lemma CancelledFirstNeverRuns(hosts: seq<Host>, steps: seq<Step>, a: nat, b: nat, id: string)
    requires Run(hosts, steps) && a < b <= |steps| && steps[a].Requests? && steps[a].id == id
    requires steps[a].action.Cancels?
    requires (hosts[a].epoch, id) !in hosts[a].ran && Handle(hosts[a], steps[a].peer, id, Cancels).1.Status?
    ensures hosts[b].epoch == hosts[a].epoch ==> (hosts[b].epoch, id) !in hosts[b].ran
  {
    RunKeepsInv(hosts, steps, a);
    assert Stepped(hosts, steps, a);
    var h, h' := hosts[a], hosts[a + 1];
    if id in h.jobs { assert JobOk(h, id, h.jobs[id]); }
    assert h'.epoch == h.epoch && id in h'.jobs && Terminal(h'.jobs[id].state) && h'.ran == h.ran;
    EndsAreFinal(hosts, steps, a + 1, b, id);
  }

  /** In every run: what the host says of a completed job with an image, and what it hands
      out of it, is the image in its store. */
  lemma ImagesAreServedAsWritten(hosts: seq<Host>, steps: seq<Step>, k: nat, peer: string, id: string, offset: int)
    requires Run(hosts, steps) && k <= |steps|
    ensures var r := Handle(hosts[k], peer, id, AsksStatus).1;
            r.Status? && r.job.state == Completed && r.job.bytes > 0 ==>
              Written(hosts[k].files, id, r.job.bytes, r.job.hash)
    ensures var r := Handle(hosts[k], peer, id, Reads(offset)).1;
            r.Data? ==> id in hosts[k].files && 0 <= offset < |hosts[k].files[id]| && r.offset == offset
                        && r.bytes == Slice(hosts[k].files[id], offset)
  {
    RunKeepsInv(hosts, steps, k);
    if id in hosts[k].jobs { assert JobOk(hosts[k], id, hosts[k].jobs[id]); }
  }
}
