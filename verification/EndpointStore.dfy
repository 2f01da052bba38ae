/** The endpoint as an object: expiry and eviction run as loops over the table. */
module EndpointStore {
  import opened Records
  import opened Endpoint

  class Controller {
    var generation: nat
    var authorized: set<string>
    var scope: string
    var ready: bool
    var hostAccess: bool
    var jobs: map<Key, Job>
    var dispatched: seq<Dispatch>
    var emitted: seq<Emission>

    ghost function View(): State
      reads this
    {
      State(generation, authorized, scope, ready, hostAccess, jobs, dispatched, emitted)
    }

    constructor ()
      ensures Inv(View()) && jobs == map[]
    {
      generation, authorized, scope, ready, hostAccess := 0, {}, "", false, false;
      jobs, dispatched, emitted := map[], [], [];
    }

    method Open(authorized: set<string>, scope: string, ready: bool, hostAccess: bool)
      modifies this
      ensures Next(old(View()), Opens(authorized, scope, ready, hostAccess), View())
    {
      generation := generation + 1;
      this.authorized, this.scope, this.ready, this.hostAccess := authorized, scope, ready, hostAccess;
      jobs := map[];
    }

    /** Walks over the table once and erases what is finished and too old. */
    method Expire(now: int)
      modifies this`jobs
      ensures jobs == Expired(old(jobs), now)
    {
      ghost var before := jobs;
      var rest := jobs.Keys;
      while rest != {}
        invariant rest <= before.Keys
        invariant forall k | k in jobs :: k in before && jobs[k] == before[k]
        invariant forall k | k in rest :: k in jobs
        invariant forall k | k in before && k !in rest ::
                    k in jobs <==> !(Finished(before[k]) && now - before[k].created > KEPT_MILLISECONDS)
        decreases |rest|
      {
        var k :| k in rest;
        if jobs[k].result.Some? && now - jobs[k].created > KEPT_MILLISECONDS {
          jobs := jobs - {k};
        }
        rest := rest - {k};
      }
    }

    /** The oldest finished job, if there is any. */
    method Oldest() returns (oldest: Option<Key>)
      ensures oldest.Some? ==> OldestFinished(jobs, oldest.value)
      ensures oldest.None? ==> forall k | k in jobs :: !Finished(jobs[k])
    {
      oldest := None;
      var rest := jobs.Keys;
      while rest != {}
        invariant rest <= jobs.Keys
        invariant oldest.Some? ==> oldest.value in jobs && Finished(jobs[oldest.value])
        invariant forall k | k in jobs && k !in rest && Finished(jobs[k]) ::
                    oldest.Some? && jobs[oldest.value].created <= jobs[k].created
        decreases |rest|
      {
        var k :| k in rest;
        if jobs[k].result.Some? && (oldest.None? || jobs[k].created < jobs[oldest.value].created) {
          oldest := Some(k);
        }
        rest := rest - {k};
      }
    }

    /** Evicts until there is a free place; the table shrinks with every turn. */
    method MakeRoom() returns (ok: bool)
      modifies this`jobs
      ensures Room(old(jobs), jobs, ok)
    {
      ghost var before := jobs;
      while |jobs| >= TABLE_LIMIT
        invariant forall end, done :: Room(jobs, end, done) ==> Room(before, end, done)
        decreases |jobs|
      {
        var oldest := Oldest();
        if oldest.None? {
          assert Room(jobs, jobs, false);
          return false;
        }
        ghost var full := jobs;
        Smaller(jobs, oldest.value);
        jobs := jobs - {oldest.value};
        forall end, done | Room(jobs, end, done) ensures Room(before, end, done) {
          assert RoomAfter(full, oldest.value, end, done);
          assert Room(full, end, done);
        }
      }
      assert Room(jobs, jobs, true);
      ok := true;
    }

    method Handle(peer: string, e: Envelope, now: int) returns (reply: Reply)
      modifies this
      ensures Handles(old(View()), peer, e, now, View(), reply)
    {
      var objection := if peer !in authorized || scope == "" || e.scope != scope then Some("sync_peer_not_authorized")
                       else if !ready then Some("sync_container_unavailable")
                       else if !e.version then Some("namespace_authority_protocol_required")
                       else if !e.shape then Some("invalid_sync_envelope")
                       else if hostAccess && !e.drive then Some("host_access_operation_required")
                       else if !e.proposal then Some("namespace_proposal_required")
                       else if !e.container then Some("logical_container_required")
                       else None;
      if objection.Some? {
        return Refused(objection.value);
      }
      var key := (peer, e.token);
      if key in jobs {
        if jobs[key].request != e {
          return Refused("different_request_token_reuse");
        }
        return if jobs[key].result.Some? then Answer(jobs[key].result.value) else Pending;
      }
      Expire(now);
      var ok := MakeRoom();
      ghost var room := jobs;
      if !ok {
        reply := Refused("sync_endpoint_busy");
      } else {
        jobs := jobs[key := Job(e, None, now)];
        dispatched := dispatched + [Dispatch(generation, key, now + JOB_MILLISECONDS)];
        reply := Pending;
      }
      assert HandlesNew(old(View()), key, e, now, room, ok, View(), reply);
    }

    /** A result from the worker; one of an older generation or of a forgotten job is dropped. */
    method Result(i: nat)
      requires i < |emitted|
      modifies this
      ensures View() == Arrived(old(View()), i)
    {
      var e := emitted[i];
      emitted := Drop(emitted, i);
      if e.generation != generation || e.key !in jobs {
        return;
      }
      jobs := jobs[e.key := jobs[e.key].(result := Some(e.result))];
    }
  }
}
