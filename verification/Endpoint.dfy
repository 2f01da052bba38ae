/** The endpoint's table of requests: a token starts at most one job, equal polls get one
    answer, and only finished jobs make room for new ones. */
module Endpoint {
  import opened Records

  const TABLE_LIMIT: nat := 32
  const KEPT_MILLISECONDS: int := 60000
  const JOB_MILLISECONDS: int := 120000

  /** A request as it arrives; the flags are the checks its contents pass. */
  datatype Envelope = Envelope(scope: string, version: bool, shape: bool, token: string, drive: bool,
                               proposal: bool, container: bool, message: Bytes)

  /** Peer and token. */
  type Key = (string, string)

  datatype Job = Job(request: Envelope, result: Option<Bytes>, created: int)

  /** A job handed to the worker, and a result on its way back. */
  datatype Dispatch = Dispatch(generation: nat, key: Key, deadline: int)

  datatype Emission = Emission(generation: nat, key: Key, result: Bytes)

  datatype State = State(generation: nat, authorized: set<string>, scope: string, ready: bool, hostAccess: bool,
                         jobs: map<Key, Job>, dispatched: seq<Dispatch>, emitted: seq<Emission>)

  datatype Reply = Refused(error: string) | Pending | Answer(result: Bytes)

  // ---------------------------------------------------------------- the table

  predicate Finished(j: Job) {
    j.result.Some?
  }

  /** Finished jobs older than a minute are forgotten. */
  function Expired(jobs: map<Key, Job>, now: int): map<Key, Job> {
    map k | k in jobs && !(Finished(jobs[k]) && now - jobs[k].created > KEPT_MILLISECONDS) :: jobs[k]
  }

  predicate OldestFinished(jobs: map<Key, Job>, k: Key) {
    k in jobs && Finished(jobs[k]) && forall l | l in jobs && Finished(jobs[l]) :: jobs[k].created <= jobs[l].created
  }

  /** Making room: while the table is full its oldest finished job goes. */
  ghost predicate Room(jobs: map<Key, Job>, jobs': map<Key, Job>, ok: bool)
    decreases |jobs|
  {
    if |jobs| < TABLE_LIMIT then ok && jobs' == jobs
    else if forall k | k in jobs :: !Finished(jobs[k]) then !ok && jobs' == jobs
    else exists k :: OldestFinished(jobs, k) && RoomAfter(jobs, k, jobs', ok)
  }

  ghost predicate RoomAfter(jobs: map<Key, Job>, k: Key, jobs': map<Key, Job>, ok: bool)
    requires k in jobs
    decreases |jobs|, 0
  {
    assert |jobs - {k}| < |jobs| by { Smaller(jobs, k); }
    Room(jobs - {k}, jobs', ok)
  }

  lemma Smaller(jobs: map<Key, Job>, k: Key)
    requires k in jobs
    ensures |jobs - {k}| == |jobs| - 1
  {
    assert (jobs - {k}).Keys == jobs.Keys - {k};
    assert |jobs.Keys - {k}| == |jobs.Keys| - 1;
    assert |jobs| == |jobs.Keys| && |jobs - {k}| == |(jobs - {k}).Keys|;
  }

  // ---------------------------------------------------------------- a request

  /** The checks before the table is consulted. */
  function Objection(s: State, peer: string, e: Envelope): Option<string> {
    if peer !in s.authorized || s.scope == "" || e.scope != s.scope then Some("sync_peer_not_authorized")
    else if !s.ready then Some("sync_container_unavailable")
    else if !e.version then Some("namespace_authority_protocol_required")
    else if !e.shape then Some("invalid_sync_envelope")
    else if s.hostAccess && !e.drive then Some("host_access_operation_required")
    else if !e.proposal then Some("namespace_proposal_required")
    else if !e.container then Some("logical_container_required")
    else None
  }

  function Polled(j: Job, e: Envelope): Reply {
    if j.request != e then Refused("different_request_token_reuse")
    else if j.result.Some? then Answer(j.result.value) else Pending
  }

  /** A new request is entered and handed to the worker. */
  function Entered(s: State, jobs: map<Key, Job>, key: Key, e: Envelope, now: int): State {
    s.(jobs := jobs[key := Job(e, None, now)], dispatched := s.dispatched
       + [Dispatch(s.generation, key, now + JOB_MILLISECONDS)])
  }

  ghost predicate Handles(s: State, peer: string, e: Envelope, now: int, s': State, reply: Reply) {
    var key := (peer, e.token);
    if Objection(s, peer, e).Some? then s' == s && reply == Refused(Objection(s, peer, e).value)
    else if key in s.jobs then s' == s && reply == Polled(s.jobs[key], e)
    else exists jobs, ok :: HandlesNew(s, key, e, now, jobs, ok, s', reply)
  }

  ghost predicate HandlesNew(s: State, key: Key, e: Envelope, now: int, jobs: map<Key, Job>, ok: bool, s': State,
                             reply: Reply) {
    && Room(Expired(s.jobs, now), jobs, ok)
    && (if ok then s' == Entered(s, jobs, key, e, now) && reply == Pending
        else s' == s.(jobs := jobs) && reply == Refused("sync_endpoint_busy"))
  }

  // ---------------------------------------------------------------- the worker

  function Drop<T>(s: seq<T>, i: nat): seq<T>
    requires i < |s|
  {
    s[..i] + s[i + 1..]
  }

  datatype Step =
    | Asks(peer: string, envelope: Envelope, now: int)
    | Runs(i: nat, result: Option<Bytes>)   // the worker takes a job; None: the store is busy, later
    | Arrives(i: nat)                       // a result reaches the table
    | Opens(authorized: set<string>, scope: string, ready: bool, hostAccess: bool)

  predicate Enabled(s: State, step: Step) {
    match step
    case Runs(i, _) => i < |s.dispatched|
    case Arrives(i) => i < |s.emitted|
    case _ => true
  }

  /** A job of an older generation is dropped; a busy store leaves the job where it is. */
  function Ran(s: State, i: nat, result: Option<Bytes>): State
    requires i < |s.dispatched|
  {
    var d := s.dispatched[i];
    if d.generation != s.generation then s.(dispatched := Drop(s.dispatched, i))
    else if result.None? then s
    else s.(dispatched := Drop(s.dispatched, i), emitted := s.emitted + [Emission(d.generation, d.key, result.value)])
  }

  function Arrived(s: State, i: nat): State
    requires i < |s.emitted|
  {
    var e := s.emitted[i];
    var rest := s.(emitted := Drop(s.emitted, i));
    if e.generation != s.generation || e.key !in s.jobs then rest
    else rest.(jobs := s.jobs[e.key := s.jobs[e.key].(result := Some(e.result))])
  }

  ghost predicate Next(s: State, step: Step, s': State)
    requires Enabled(s, step)
  {
    match step
    case Asks(peer, envelope, now) => exists reply :: Handles(s, peer, envelope, now, s', reply)
    case Runs(i, result) => s' == Ran(s, i, result)
    case Arrives(i) => s' == Arrived(s, i)
    case Opens(authorized, scope, ready, hostAccess) =>
      s' == s.(generation := s.generation + 1, authorized := authorized, scope := scope, ready := ready,
               hostAccess := hostAccess, jobs := map[])
  }

  // ---------------------------------------------------------------- what always holds

  /** How often a key of this generation is with the worker or on its way back. */
  function Dispatches(s: seq<Dispatch>, generation: nat, key: Key): nat {
    if s == [] then 0
    else Dispatches(s[..|s| - 1], generation, key)
           + if s[|s| - 1].generation == generation && s[|s| - 1].key == key then 1 else 0
  }

  function Emissions(s: seq<Emission>, generation: nat, key: Key): nat {
    if s == [] then 0
    else Emissions(s[..|s| - 1], generation, key)
           + if s[|s| - 1].generation == generation && s[|s| - 1].key == key then 1 else 0
  }

  function Outstanding(s: State, key: Key): nat {
    Dispatches(s.dispatched, s.generation, key) + Emissions(s.emitted, s.generation, key)
  }

  /** An unfinished job has exactly one run outstanding, a finished or absent one none. */
  ghost predicate Inv(s: State) {
    && |s.jobs| <= TABLE_LIMIT
    && (forall key :: Outstanding(s, key) == if key in s.jobs && !Finished(s.jobs[key]) then 1 else 0)
    && (forall i | 0 <= i < |s.dispatched| :: s.dispatched[i].generation <= s.generation)
    && (forall i | 0 <= i < |s.emitted| :: s.emitted[i].generation <= s.generation)
  }

  lemma {:induction false} DispatchesDrop(s: seq<Dispatch>, i: nat, generation: nat, key: Key)
    requires i < |s|
    ensures Dispatches(s, generation, key)
            == Dispatches(Drop(s, i), generation, key)
              + if s[i].generation == generation && s[i].key == key then 1 else 0
  {
    var n := |s| - 1;
    if i == n {
      assert Drop(s, i) == s[..n];
    } else {
      DispatchesDrop(s[..n], i, generation, key);
      assert Drop(s, i)[..n - 1] == Drop(s[..n], i);
    }
  }

  lemma {:induction false} EmissionsDrop(s: seq<Emission>, i: nat, generation: nat, key: Key)
    requires i < |s|
    ensures Emissions(s, generation, key)
            == Emissions(Drop(s, i), generation, key)
              + if s[i].generation == generation && s[i].key == key then 1 else 0
  {
    var n := |s| - 1;
    if i == n {
      assert Drop(s, i) == s[..n];
    } else {
      EmissionsDrop(s[..n], i, generation, key);
      assert Drop(s, i)[..n - 1] == Drop(s[..n], i);
    }
  }

  lemma {:induction false} NoneYet(d: seq<Dispatch>, e: seq<Emission>, generation: nat, key: Key)
    requires (forall i | 0 <= i < |d| :: d[i].generation < generation)
    requires (forall i | 0 <= i < |e| :: e[i].generation < generation)
    ensures Dispatches(d, generation, key) == 0 && Emissions(e, generation, key) == 0
    decreases |d| + |e|
  {
    if d != [] {
      NoneYet(d[..|d| - 1], e, generation, key);
    } else if e != [] {
      NoneYet(d, e[..|e| - 1], generation, key);
    }
  }

  /** Making room removes finished jobs only, and ends with a free place or with a table
      full of unfinished jobs. */
  lemma {:induction false} RoomKeepsUnfinished(jobs: map<Key, Job>, jobs': map<Key, Job>, ok: bool)
    requires Room(jobs, jobs', ok)
    ensures forall k | k in jobs' :: k in jobs && jobs'[k] == jobs[k]
    ensures forall k | k in jobs && !Finished(jobs[k]) :: k in jobs'
    ensures if ok then |jobs'| < TABLE_LIMIT else |jobs'| >= TABLE_LIMIT && forall k | k in jobs' :: !Finished(jobs'[k])
    ensures |jobs'| <= |jobs|
    decreases |jobs|
  {
    if |jobs| >= TABLE_LIMIT && !(forall k | k in jobs :: !Finished(jobs[k])) {
      var k :| OldestFinished(jobs, k) && RoomAfter(jobs, k, jobs', ok);
      Smaller(jobs, k);
      RoomKeepsUnfinished(jobs - {k}, jobs', ok);
    }
  }

  lemma {:induction false} FewerKeys(a: map<Key, Job>, b: map<Key, Job>)
    requires a.Keys <= b.Keys
    ensures |a| <= |b|
    decreases |a|
  {
    if a != map[] {
      var k :| k in a;
      Smaller(a, k);
      Smaller(b, k);
      FewerKeys(a - {k}, b - {k});
    }
  }

  lemma ExpiredFewer(jobs: map<Key, Job>, now: int)
    ensures |Expired(jobs, now)| <= |jobs|
  {
    FewerKeys(Expired(jobs, now), jobs);
  }

  /** Jobs leave the table only when finished. */
  ghost predicate KeepsUnfinished(jobs: map<Key, Job>, jobs': map<Key, Job>) {
    && (forall k | k in jobs' :: k in jobs && jobs'[k] == jobs[k])
    && (forall k | k in jobs && !Finished(jobs[k]) :: k in jobs')
  }

  lemma EnteredKeepsInv(s: State, jobs: map<Key, Job>, key: Key, e: Envelope, now: int)
    requires Inv(s) && key !in s.jobs && KeepsUnfinished(s.jobs, jobs) && |jobs| < TABLE_LIMIT
    ensures Inv(Entered(s, jobs, key, e, now))
  {
    var s' := Entered(s, jobs, key, e, now);
    assert |jobs[key := Job(e, None, now)]| == |jobs| + 1 by {
      assert jobs[key := Job(e, None, now)].Keys == jobs.Keys + {key};
      assert |jobs.Keys + {key}| == |jobs.Keys| + 1;
      assert |jobs| == |jobs.Keys|;
    }
    assert s'.dispatched[..|s.dispatched|] == s.dispatched;
    forall k ensures Outstanding(s', k) == if k in s'.jobs && !Finished(s'.jobs[k]) then 1 else 0 {
      assert Outstanding(s, k) == if k in s.jobs && !Finished(s.jobs[k]) then 1 else 0;
    }
  }

  lemma RefusedKeepsInv(s: State, jobs: map<Key, Job>)
    requires Inv(s) && KeepsUnfinished(s.jobs, jobs) && |jobs| <= TABLE_LIMIT
    ensures Inv(s.(jobs := jobs))
  {
    var s' := s.(jobs := jobs);
    forall k ensures Outstanding(s', k) == if k in jobs && !Finished(jobs[k]) then 1 else 0 {
      assert Outstanding(s', k) == Outstanding(s, k);
    }
  }

  lemma AsksKeepsInv(s: State, peer: string, e: Envelope, now: int, s': State, reply: Reply)
    requires Inv(s) && Handles(s, peer, e, now, s', reply)
    ensures Inv(s')
  {
    var key := (peer, e.token);
    if Objection(s, peer, e).None? && key !in s.jobs {
      var jobs, ok :| HandlesNew(s, key, e, now, jobs, ok, s', reply);
      RoomKeepsUnfinished(Expired(s.jobs, now), jobs, ok);
      ExpiredFewer(s.jobs, now);
      if ok { EnteredKeepsInv(s, jobs, key, e, now); } else { RefusedKeepsInv(s, jobs); }
    }
  }

  lemma RunsKeepsInv(s: State, i: nat, result: Option<Bytes>)
    requires Inv(s) && i < |s.dispatched|
    ensures Inv(Ran(s, i, result))
  {
    var s' := Ran(s, i, result);
    forall key ensures Outstanding(s', key) == Outstanding(s, key) {
      DispatchesDrop(s.dispatched, i, s.generation, key);
      if s'.emitted != s.emitted { assert s'.emitted[..|s.emitted|] == s.emitted; }
    }
    forall key ensures Outstanding(s', key) == if key in s'.jobs && !Finished(s'.jobs[key]) then 1 else 0 {
      assert Outstanding(s', key) == Outstanding(s, key);
    }
  }

  lemma SameCount(jobs: map<Key, Job>, k: Key, j: Job)
    requires k in jobs
    ensures |jobs[k := j]| == |jobs|
  {
    assert jobs[k := j].Keys == jobs.Keys;
    assert |jobs| == |jobs.Keys| && |jobs[k := j]| == |jobs[k := j].Keys|;
  }

  lemma ArrivesKeepsInv(s: State, i: nat)
    requires Inv(s) && i < |s.emitted|
    ensures Inv(Arrived(s, i))
  {
    var s', e := Arrived(s, i), s.emitted[i];
    forall key ensures Outstanding(s', key) == if key in s'.jobs && !Finished(s'.jobs[key]) then 1 else 0 {
      EmissionsDrop(s.emitted, i, s.generation, key);
      assert Outstanding(s, key) == if key in s.jobs && !Finished(s.jobs[key]) then 1 else 0;
    }
    if e.key in s.jobs { SameCount(s.jobs, e.key, s.jobs[e.key].(result := Some(e.result))); }
  }

  lemma OpensKeepsInv(s: State, s': State)
    requires Inv(s) && s'.generation == s.generation + 1 && s'.jobs == map[] && s'.dispatched == s.dispatched
    requires s'.emitted == s.emitted
    ensures Inv(s')
  {
    forall key ensures Outstanding(s', key) == 0 { NoneYet(s.dispatched, s.emitted, s'.generation, key); }
  }

  lemma StepKeepsInv(s: State, step: Step, s': State)
    requires Inv(s) && Enabled(s, step) && Next(s, step, s')
    ensures Inv(s')
  {
    match step
    case Asks(peer, envelope, now) =>
      var reply :| Handles(s, peer, envelope, now, s', reply);
      AsksKeepsInv(s, peer, envelope, now, s', reply);
    case Runs(i, result) => RunsKeepsInv(s, i, result);
    case Arrives(i) => ArrivesKeepsInv(s, i);
    case Opens(_, _, _, _) => OpensKeepsInv(s, s');
  }

  // ---------------------------------------------------------------- what a peer relies on

  /** While a job stays in the table its request and, once there, its result never change,
      and it does not leave before it is finished or the endpoint is reopened. */
  lemma JobsAreStable(s: State, step: Step, s': State, key: Key)
    requires Inv(s) && Enabled(s, step) && Next(s, step, s') && key in s.jobs && !step.Opens?
    ensures key in s'.jobs ==> s'.jobs[key].request == s.jobs[key].request
                               && (Finished(s.jobs[key]) ==> s'.jobs[key] == s.jobs[key])
    ensures !Finished(s.jobs[key]) ==> key in s'.jobs
  {
    match step
    case Asks(peer, e, now) =>
      var reply :| Handles(s, peer, e, now, s', reply);
      if Objection(s, peer, e).None? && (peer, e.token) !in s.jobs {
        var jobs, ok :| HandlesNew(s, (peer, e.token), e, now, jobs, ok, s', reply);
        RoomKeepsUnfinished(Expired(s.jobs, now), jobs, ok);
      }
    case Runs(_, _) =>
    case Arrives(i) =>
      EmissionsDrop(s.emitted, i, s.generation, key);
      assert Outstanding(s, key) == if Finished(s.jobs[key]) then 0 else 1;
  }

  /** A poll with the request a token is known under changes nothing and hands nothing to
      the worker; with another envelope it is refused.  So while a token is in the table
      it starts at most the one job it started when it was entered. */
  lemma PollsStartNothing(s: State, peer: string, e: Envelope, now: int, s': State, reply: Reply)
    requires Inv(s) && (peer, e.token) in s.jobs && Handles(s, peer, e, now, s', reply)
    ensures s' == s && Outstanding(s', (peer, e.token)) <= 1
    ensures Objection(s, peer, e).None? && s.jobs[(peer, e.token)].request != e ==> reply.Refused?
    ensures Objection(s, peer, e).None? && s.jobs[(peer, e.token)].request == e ==>
              reply == if Finished(s.jobs[(peer, e.token)]) then Answer(s.jobs[(peer, e.token)].result.value)
                else Pending
  {
    assert Outstanding(s, (peer, e.token)) <= 1;
  }

  ghost predicate Run(states: seq<State>, steps: seq<Step>) {
    && |states| == |steps| + 1 && Inv(states[0])
    && forall k | 0 <= k < |steps| :: Stepped(states, steps, k)
  }

  ghost predicate Stepped(states: seq<State>, steps: seq<Step>, k: nat)
    requires k < |steps| && |states| == |steps| + 1
  {
    Enabled(states[k], steps[k]) && Next(states[k], steps[k], states[k + 1])
  }

  lemma {:induction false} RunKeepsInv(states: seq<State>, steps: seq<Step>, k: nat)
    requires Run(states, steps) && k <= |steps|
    ensures Inv(states[k])
  {
    if k > 0 {
      RunKeepsInv(states, steps, k - 1);
      assert Stepped(states, steps, k - 1);
      StepKeepsInv(states[k - 1], steps[k - 1], states[k]);
    }
  }

  /** What a step leaves of a job that stays in the table. */
  ghost predicate SameJob(s: State, s': State, key: Key)
    requires key in s.jobs && key in s'.jobs
  {
    && s'.jobs[key].request == s.jobs[key].request
    && (Finished(s.jobs[key]) ==> s'.jobs[key] == s.jobs[key])
  }

  lemma StepKeepsJob(states: seq<State>, steps: seq<Step>, k: nat, key: Key)
    requires Run(states, steps) && k < |steps| && !steps[k].Opens?
    requires key in states[k].jobs && key in states[k + 1].jobs
    ensures SameJob(states[k], states[k + 1], key)
  {
    RunKeepsInv(states, steps, k);
    assert Stepped(states, steps, k);
    JobsAreStable(states[k], steps[k], states[k + 1], key);
  }

  /** The token is in the table from state a to state b, and the endpoint stays open. */
  ghost predicate Stays(states: seq<State>, steps: seq<Step>, a: nat, b: nat, key: Key)
    requires |states| == |steps| + 1 && a <= b <= |steps|
  {
    && (forall k | a <= k <= b :: key in states[k].jobs)
    && (forall k | a <= k < b :: !steps[k].Opens?)
  }

  /** In every run: as long as a token stays in the table, its request stays the one it was
      entered with, and from the first answer on every poll gets that same answer. */
  lemma {:induction false} EqualPollsEqualAnswers(states: seq<State>, steps: seq<Step>, a: nat, b: nat, key: Key)
    requires Run(states, steps) && a <= b <= |steps| && Stays(states, steps, a, b, key)
    ensures SameJob(states[a], states[b], key)
    decreases b - a
  {
    if a < b {
      EqualPollsEqualAnswers(states, steps, a, b - 1, key);
      StepKeepsJob(states, steps, b - 1, key);
    }
  }

  /** In every run a token has at most one job with the worker or on its way back, and none
      once its answer is in the table. */
  lemma OneJobPerToken(states: seq<State>, steps: seq<Step>, k: nat, key: Key)
    requires Run(states, steps) && k <= |steps|
    ensures Outstanding(states[k], key) == if key in states[k].jobs && !Finished(states[k].jobs[key]) then 1 else 0
    ensures |states[k].jobs| <= TABLE_LIMIT
  {
    RunKeepsInv(states, steps, k);
  }
}
