/** Both ends of remote generation as objects. */
module GenerationStore {
  import opened Records
  import G = Generation
  import R = RemoteImage

  class Host {
    var open: bool
    var jobs: map<string, G.Job>
    var queue: seq<string>
    var active: Option<string>
    var threads: seq<G.Thread>
    var epoch: nat
    var flags: set<(nat, string)>
    var files: map<string, Bytes>
    ghost var ran: seq<(nat, string)>

    ghost function View(): G.Host
      reads this
    {
      G.Host(open, jobs, queue, active, threads, epoch, flags, files, ran)
    }

    constructor ()
      ensures View() == G.FRESH && G.Inv(View())
    {
      open, jobs, queue, active, threads, epoch := false, map[], [], None, [], 0;
      flags, files, ran := {}, map[], [];
    }

    method Handle(peer: string, id: string, action: G.Action) returns (reply: G.Reply)
      requires G.Inv(View())
      modifies this
      ensures (View(), reply) == G.Handle(old(View()), peer, id, action) && G.Inv(View())
    {
      G.StepKeepsInv(View(), G.Requests(peer, id, action));
      if peer == "" || !open {
        return G.Refused("generation_host_unavailable");
      }
      if id in jobs && jobs[id].peer != peer {
        return G.Refused("generation_owner_mismatch");
      }
      match action {
        case Submits(input, sound, available) => reply := Submit(peer, id, input, sound, available);
        case Cancels => reply := Cancel(peer, id);
        case AsksStatus => reply := if id in jobs then G.Status(jobs[id]) else G.Refused("generation_job_not_found");
        case Reads(offset) => reply := Read(id, offset);
      }
    }

    method Submit(peer: string, id: string, input: Bytes, sound: bool, available: bool) returns (reply: G.Reply)
      modifies `jobs, `queue
      ensures (View(), reply) == G.Submit(old(View()), peer, id, input, sound, available)
    {
      if id in jobs {
        if jobs[id].input.Some? && jobs[id].input.value != input {
          return G.Refused("generation_id_conflict");
        }
        return G.Status(jobs[id]);
      }
      if !sound {
        return G.Refused("invalid_generation_parameters");
      }
      if !available {
        return G.Refused("model");
      }
      if |queue| >= G.QUEUE_LIMIT || |jobs| >= G.JOB_LIMIT {
        return G.Refused("generation_queue_full");
      }
      var job := G.Job(peer, Some(input), G.Queued, "", 0, NoDigest);
      jobs := jobs[id := job];
      queue := queue + [id];
      reply := G.Status(job);
    }

    method Cancel(peer: string, id: string) returns (reply: G.Reply)
      modifies `jobs, `flags
      ensures (View(), reply) == G.Cancel(old(View()), peer, id)
    {
      if id !in jobs {
        if |jobs| >= G.JOB_LIMIT {
          return G.Refused("generation_queue_full");
        }
        flags := flags + {(epoch, id)};
        jobs := jobs[id := G.Job(peer, None, G.Cancelled, "", 0, NoDigest)];
      } else if !G.Terminal(jobs[id].state) {
        flags := flags + {(epoch, id)};
        jobs := jobs[id := jobs[id].(state := if jobs[id].state == G.Queued then G.Cancelled else G.Cancelling)];
      }
      reply := G.Status(jobs[id]);
    }

    method Read(id: string, offset: int) returns (reply: G.Reply)
      ensures reply == G.Read(View(), id, offset)
    {
      if id !in jobs {
        return G.Refused("generation_job_not_found");
      }
      if jobs[id].state != G.Completed {
        return G.Refused("invalid_generation_action");
      }
      if offset < 0 || offset >= jobs[id].bytes || id !in files {
        return G.Refused("invalid_generation_result_offset");
      }
      var file := files[id];
      if offset >= |file| {
        return G.Refused("generation_result_unavailable");
      }
      var end := if offset + G.READ_BYTES <= |file| then offset + G.READ_BYTES else |file|;
      reply := G.Data(offset, file[offset..end]);
    }

    method IsRunning() returns (running: bool)
      ensures running == G.Busy(View())
    {
      running := threads != [] && !threads[|threads| - 1].phase.Done?;
    }

    /** Starts the next job when the engine is free. */
    method Pump(prepared: bool)
      requires G.Inv(View())
      modifies this
      ensures View() == G.Pump(old(View()), prepared) && G.Inv(View())
    {
      G.PumpKeepsInv(View(), prepared);
      var running := IsRunning();
      if !open || active.Some? || running || queue == [] {
        return;
      }
      var id := queue[0];
      queue := queue[1..];
      if id !in jobs || (epoch, id) in flags {
        return;
      }
      if !prepared {
        jobs := jobs[id := jobs[id].(state := G.Failed, error := "resources")];
        return;
      }
      jobs := jobs[id := jobs[id].(state := G.Running)];
      active := Some(id);
      threads := threads + [G.Thread(id, epoch, G.Working)];
      ran := ran + [(epoch, id)];
    }

    /** The watched thread ended. */
    method Finished()
      requires G.Inv(View()) && G.Enabled(View(), G.Notices)
      modifies this
      ensures View() == G.Noticed(old(View())) && G.Inv(View())
    {
      G.NoticedKeepsInv(View());
      var thread := threads[|threads| - 1];
      var result := thread.phase.outcome;
      active := None;
      threads := threads[..|threads| - 1];
      if thread.epoch == epoch && thread.id in jobs {
        var job := jobs[thread.id];
        if result.cancelled || (epoch, thread.id) in flags {
          job := job.(state := G.Cancelled, error := result.error);
        } else if result.error != "" {
          job := job.(state := G.Failed, error := result.error);
        } else {
          job := job.(state := G.Completed, error := "", bytes := result.bytes, hash := result.hash);
        }
        jobs := jobs[thread.id := job];
      }
    }

    method SetFlags()
      modifies `flags
      ensures flags == old(flags) + set id | id in jobs :: (epoch, id)
    {
      var rest := jobs.Keys;
      while rest != {}
        invariant rest <= jobs.Keys
        invariant flags == old(flags) + set id | id in jobs && id !in rest :: (epoch, id)
        decreases |rest|
      {
        var id :| id in rest;
        flags := flags + {(epoch, id)};
        rest := rest - {id};
      }
    }

    /** Sets every job's flag and forgets the jobs; a thread at work goes on. */
    method Close()
      requires G.Inv(View())
      modifies this
      ensures View() == G.Close(old(View())) && G.Inv(View())
    {
      G.CloseKeepsInv(View(), false);
      SetFlags();
      epoch := epoch + 1;
      open, jobs, queue := false, map[], [];
    }

    method Open(same: bool, available: bool)
      requires G.Inv(View())
      modifies this
      ensures View() == G.Next(old(View()), G.Opens(same, available)) && G.Inv(View())
    {
      if open && same {
        return;
      }
      ghost var before := View();
      Close();
      G.CloseKeepsInv(before, available);
      open := available;
    }
  }

  class Remote {
    var state: R.Client

    constructor ()
      ensures state == R.IDLE && R.ClientOk(state)
    {
      state := R.IDLE;
    }

    method Start(id: string, input: Bytes) returns (ok: bool)
      modifies this
      ensures state == R.Start(old(state), id, input) && ok == old(state).job.None?
    {
      ok := state.job.None?;
      if ok {
        state := state.(job := Some((id, input)), result := None, image := [], pending := None, accepted := false,
                        cancelled := false);
      }
    }

    method Complete(end: G.JobState, error: string)
      requires state.job.Some?
      modifies this
      ensures state == R.Complete(old(state), end, error)
    {
      var image := if end == G.Completed then state.image else [];
      state := state.(job := None, pending := None, image := [], result := None,
                      reports := state.reports + [R.Report(state.job.value.0, end, error, image)]);
    }

    method Tick(stale: bool, late: bool, sent: Option<nat>) returns (request: Option<R.Request>)
      modifies this
      ensures (state, request) == R.Tick(old(state), stale, late, sent)
    {
      request := None;
      if state.job.None? || state.paused || (state.pending.Some? && !stale) {
        return;
      }
      state := state.(pending := None);
      if late {
        Complete(G.Failed, "unavailable");
        return;
      }
      var ask := if state.cancelled then R.AskCancel else if !state.accepted then R.AskSubmit
                 else if state.result.None? then R.AskStatus else R.AskRead;
      request := Some(R.Request(ask, state.job.value.0, state.job.value.1, |state.image|));
      state := state.(ask := ask, pending := sent);
    }

    /** An answer from the host, or an error of the transport. */
    method Receive(number: nat, r: R.Response)
      requires R.ClientOk(state)
      modifies this
      ensures state == R.Receive(old(state), number, r)
      ensures R.ClientOk(state) && R.Backed(old(state), state)
    {
      R.ReceiveIsBacked(state, number, r);
      if state.job.None? || state.paused || state.pending != Some(number) {
        return;
      }
      state := state.(pending := None);
      if !r.ok {
        if r.error !in R.TRANSIENT {
          Complete(G.Failed, r.error);
        }
      } else if !r.valid {
        Complete(G.Failed, "The Society host returned an invalid generation response.");
      } else if state.ask == R.AskRead {
        TakeChunk(r);
      } else {
        Hear(r);
      }
    }

    method TakeChunk(r: R.Response)
      requires state.job.Some? && state.result.Some?
      modifies this
      ensures state == R.Chunk(old(state), r)
    {
      var size := state.result.value.bytes;
      if r.data.None? || r.encoded > R.ENCODED_LIMIT || r.data.value == [] || r.offset != |state.image|
         || |state.image| + |r.data.value| > size {
        Complete(G.Failed, "The remote image transfer is invalid.");
        return;
      }
      state := state.(image := state.image + r.data.value);
      if |state.image| == size {
        if Sha256(state.image) != state.result.value.hash {
          Complete(G.Failed, "The remote image checksum does not match.");
        } else {
          Complete(G.Completed, "");
        }
      }
    }

    method Hear(r: R.Response)
      requires state.job.Some?
      modifies this
      ensures state == R.Told(old(state), r)
    {
      if state.ask == R.AskSubmit {
        state := state.(accepted := true);
      }
      if r.state == Some(G.Failed) || r.state == Some(G.Cancelled) {
        Complete(r.state.value, r.error);
      } else if r.state == Some(G.Completed) {
        if r.bytes <= 0 || r.bytes > R.IMAGE_LIMIT || !R.DigestShaped(r.hash) {
          Complete(G.Failed, "The remote image exceeds the supported transfer size.");
          return;
        }
        state := state.(result := Some(R.Result(r.bytes, r.hash)));
        if state.cancelled {
          Complete(G.Cancelled, "");
        }
      } else if r.state.None? {
        Complete(G.Failed, "The Society host returned an invalid job state.");
      }
    }
  }
}
