/** Binding a replica to a host: refusing, rebinding to a restored host, or committing a
    plan and adopting; and the object that does it, step by step. */
module HostBinding {
  import opened Records
  import opened NamespaceJournal
  import opened Replicas
  import opened Adoption

  const PLAN_LIMIT: nat := 250000

  /** A call to bind, with what it finds: whether this container is an authority, whether
      the identifiers are well-formed, whether the drive is an application's own disk, and
      the entries of the sections. */
  datatype Call = Call(peer: string, replica: string, container: string, replaceHost: bool,
                       authority: bool, valid: bool, ownDisk: bool, names: seq<Path>, recovery: string,
                       uuids: (string, string))

  function PlanOf(names: seq<Path>, recovery: string): seq<Move> {
    seq(|names|, i requires 0 <= i < |names| => Move(names[i], recovery + "/" + names[i]))
  }

  function Enough(s: State): nat {
    |s.plan| + 4
  }

  /** The committed plan and metadata of a new adoption. */
  function Committing(s: State, c: Call): State {
    s.(phase := Detaching, plan := if c.ownDisk && s.host.None? then [] else PlanOf(c.names, c.recovery),
       host := Some(c.peer), hostReplica := c.replica, target := c.container, recovery := c.recovery, complete := false)
  }

  /** The same logical host under a new replica identity: its cursors and the imported
      journal start over, the index and the clocks stay. */
  function Rebound(s: State, c: Call): State {
    s.(hostReplica := c.replica, index := s.index.(cursors := s.index.cursors - {c.peer}, log := []))
  }

  function Bind(s: State, c: Call): (State, Ending) {
    if c.authority then (s, Refused("authority_cannot_become_mirror"))
    else if !c.valid then (s, Refused("invalid_host_identity"))
    else if !c.replaceHost && s.host.Some? && s.host != Some(c.peer) then (s, Refused("different_primary_host"))
    else
      var (s1, resumed) := Resume(s, c.uuids.0, Enough(s));
      if resumed != Finished then (s1, resumed)
      else if s1.host == Some(c.peer) && s1.target == c.container then
        var s2 := if s1.hostReplica != c.replica then Rebound(s1, c) else s1;
        (s2.(note := NoteOf(s2)), Finished)
      else if !(c.ownDisk && s1.host.None?) && |c.names| > PLAN_LIMIT then (s1, Refused("mirror_plan_failed"))
      else Resume(Committing(s1, c), c.uuids.1, Enough(Committing(s1, c)))
  }

  /** The names are those of the entries inside the sections, each once, and the recovery
      folder is a new one. */
  ghost predicate Listing(s: State, c: Call, inSection: Path -> bool) {
    && (forall i, j | 0 <= i < j < |c.names| :: c.names[i] != c.names[j])
    && (forall p :: p in c.names <==> p in s.items && inSection(p))
    && (forall p | p in s.items || inSection(p) :: !(c.recovery <= p))
  }

  lemma PlanFits(s: State, c: Call, inSection: Path -> bool)
    requires Listing(s, c, inSection) && s.identity == s.container
    ensures Fits(Committing(s, c))
  {
    var plan := PlanOf(c.names, c.recovery);
    forall i | 0 <= i < |plan|
      ensures c.names[i] in c.names && c.recovery <= plan[i].target && plan[i].source in s.items
    {
    }
    forall i, j | 0 <= i < j < |plan| ensures plan[i].target != plan[j].target {
      SamePrefix(c.recovery + "/", c.names[i], c.names[j]);
    }
  }

  lemma SamePrefix(prefix: string, a: string, b: string)
    ensures prefix + a == prefix + b ==> a == b
  {
    assert (prefix + a)[|prefix|..] == a && (prefix + b)[|prefix|..] == b;
  }

  /** Binding a settled replica to a new host moves every entry of its sections to the
      recovery folder, touches nothing else, and leaves an empty index under the host's
      container identity. */
  lemma BindingKeepsEverything(s: State, c: Call, inSection: Path -> bool)
    requires s.phase != Detaching && s.identity == s.container && Listing(s, c, inSection)
    requires !c.authority && c.valid && (c.replaceHost || s.host.None?) && |c.names| <= PLAN_LIMIT
    requires !(s.host == Some(c.peer) && s.target == c.container) && !(c.ownDisk && s.host.None?)
    ensures var (s', ending) := Bind(s, c);
            && ending == Finished && s'.phase == Pulling && s'.host == Some(c.peer) && s'.hostReplica == c.replica
            && s'.container == s'.identity == c.container && s'.replica == c.uuids.1 && s'.index == EMPTY_INDEX
            && s'.note == Some(Binding(c.peer, c.replica, c.container, false, c.recovery))
            && (forall p | p in s.items && inSection(p) ::
                  p !in s'.items && c.recovery + "/" + p in s'.items && s'.items[c.recovery + "/" + p] == s.items[p])
            && (forall p | p in s.items && !inSection(p) :: p in s'.items && s'.items[p] == s.items[p])
  {
    var s1 := Resume(s, c.uuids.0, Enough(s)).0;
    var s0 := Committing(s1, c);
    PlanFits(s1, c, inSection);
    CrashSafeAdoption(s0, [], [], c.uuids.1, Enough(s0));
    var s' := Resume(s0, c.uuids.1, Enough(s0)).0;
    forall p | p in s.items && inSection(p)
      ensures p !in s'.items && c.recovery + "/" + p in s'.items && s'.items[c.recovery + "/" + p] == s.items[p]
    {
      var i :| 0 <= i < |c.names| && c.names[i] == p;
      assert s0.plan[i] == Move(p, c.recovery + "/" + p);
    }
    forall p | p in s.items && !inSection(p) ensures SameItem(s0.items, s'.items, p) {
      forall i | 0 <= i < |s0.plan| ensures p != s0.plan[i].source && p != s0.plan[i].target {
        assert c.names[i] in c.names && c.recovery <= s0.plan[i].target;
      }
      assert !Planned(s0.plan, p);
    }
  }

  /** An application's own disk keeps its files in place when it first becomes a mirror. */
  lemma OwnDiskStays(s: State, c: Call)
    requires s.phase == Independent && s.host.None? && s.identity == s.container
    requires !c.authority && c.valid && c.ownDisk
    ensures var (s', ending) := Bind(s, c); ending == Finished && s'.items == s.items && s'.index == EMPTY_INDEX
  {
    assert PlanOf([], "") == [];
  }

  /** When the same host comes back as a restored replica, everything the mirror knows and
      has stays: rows with their proposals, clocks, files and its own identity.  Only the
      imported journal and that host's cursors start over. */
  lemma RebindingKeepsWork(s: State, c: Call)
    requires s.phase != Detaching && s.host == Some(c.peer) && s.target == c.container && !c.authority && c.valid
    ensures var (s', ending) := Bind(s, c);
            && ending == Finished && s'.items == s.items && s'.replica == s.replica && s'.container == s.container
            && s'.index.rows == s.index.rows && s'.index.sequence == s.index.sequence
            && s'.index.counter == s.index.counter
            && (if s.hostReplica == c.replica then s'.index == s.index
                else s'.index.log == [] && s'.index.cursors == s.index.cursors - {c.peer}
                     && s'.hostReplica == c.replica)
  {
  }

  /** The replica's binding state as an object. */
  class Mirror {
    var state: State

    constructor (state: State)
      ensures this.state == state
    {
      this.state := state;
    }

    method DetachEntry(m: Move) returns (ok: bool)
      modifies this
      ensures ok <==> Detach(old(state).items, m).Some?
      ensures state == if ok then old(state).(items := Detach(old(state).items, m).value) else old(state)
    {
      var there, saved := m.source in state.items, m.target in state.items;
      if !there {
        return saved;
      }
      if saved {
        return false;
      }
      var item := state.items[m.source];
      state := state.(items := (state.items - {m.source})[m.target := item]);
      ok := true;
    }

    /** Walks the plan; stops where the budget ends or an entry cannot be moved. */
    method RunPlan(budget: nat) returns (ending: Ending)
      modifies this
      ensures var moving := DetachAll(old(state).items, old(state).plan, budget);
              state == old(state).(items := moving.items) && ending == moving.ending
    {
      var k := 0;
      ghost var before := state;
      while k < |state.plan|
        invariant state == before.(items := state.items) && 0 <= k <= |before.plan| && k <= budget
        invariant DetachAll(before.items, before.plan, budget) == DetachAll(state.items, before.plan[k..], budget - k)
      {
        assert before.plan[k..][1..] == before.plan[k + 1..];
        if k == budget {
          return Stopped;
        }
        var ok := DetachEntry(state.plan[k]);
        if !ok {
          return Refused(DetachError(state.items, state.plan[k]));
        }
        k := k + 1;
      }
      ending := Finished;
    }

    method WriteNote()
      modifies this
      ensures state == old(state).(note := NoteOf(old(state)))
    {
      if state.host.Some? {
        state := state.(note := Some(Binding(state.host.value, state.hostReplica, state.target, state.complete,
                                             state.recovery)));
      }
    }

    method ResumeAdoption(uuid: string, budget: nat) returns (ending: Ending)
      modifies this
      ensures (state, ending) == Resume(old(state), uuid, budget)
    {
      if budget == 0 {
        return Stopped;
      }
      WriteNote();
      if state.phase != Detaching {
        return Finished;
      }
      if budget == 1 {
        return Stopped;
      }
      if state.identity != state.container && state.identity != state.target {
        return Refused("identity");
      }
      state := state.(identity := state.target);
      ending := RunPlan(budget - 2);
      if ending != Finished {
        return;
      }
      if budget - 2 <= |state.plan| {
        return Stopped;
      }
      var planned := |state.plan|;
      state := state.(phase := Pulling, plan := [], index := EMPTY_INDEX, container := state.identity, replica := uuid);
      if budget - 3 <= planned {
        return Stopped;
      }
      WriteNote();
    }

    method BindHost(c: Call) returns (ending: Ending)
      modifies this
      ensures (state, ending) == Bind(old(state), c)
    {
      if c.authority {
        return Refused("authority_cannot_become_mirror");
      }
      if !c.valid {
        return Refused("invalid_host_identity");
      }
      if !c.replaceHost && state.host.Some? && state.host != Some(c.peer) {
        return Refused("different_primary_host");
      }
      ending := ResumeAdoption(c.uuids.0, |state.plan| + 4);
      if ending != Finished {
        return;
      }
      if state.host == Some(c.peer) && state.target == c.container {
        if state.hostReplica != c.replica {
          var index := state.index.(cursors := state.index.cursors - {c.peer}, log := []);
          state := state.(hostReplica := c.replica, index := index);
        }
        WriteNote();
        return;
      }
      var ownFiles := c.ownDisk && state.host.None?;
      if !ownFiles && |c.names| > PLAN_LIMIT {
        return Refused("mirror_plan_failed");
      }
      state := state.(phase := Detaching, plan := if ownFiles then [] else PlanOf(c.names, c.recovery),
                      host := Some(c.peer), hostReplica := c.replica, target := c.container, recovery :=
                        c.recovery, complete := false);
      ending := ResumeAdoption(c.uuids.1, |state.plan| + 4);
    }
  }
}
