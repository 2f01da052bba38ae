/** Becoming a mirror of a host: a committed plan moves everything the container held into
    a recovery area, one entry at a time, and may be interrupted anywhere. */
module Adoption {
  import opened Records
  import opened NamespaceJournal
  import opened Trees
  import opened Replicas

  /** An entry directly inside a section, moved as a whole. */
  datatype Item = FileItem(bytes: Bytes) | FolderItem(contents: Tree)

  type Items = map<Path, Item>

  datatype Move = Move(source: Path, target: Path)

  datatype Phase = Independent | Detaching | Pulling

  /** The public note that tells other programs whose mirror this is. */
  datatype Binding = Binding(host: string, replica: string, container: string, complete: bool, recovery: string)

  datatype Index = Index(rows: map<Path, Row>, cursors: map<string, (int, int)>, log: Log,
                         sequence: nat, counter: nat, receipts: set<string>)

  const EMPTY_INDEX: Index := Index(map[], map[], [], 0, 0, {})

  /** The committed metadata, the index, the files, and the identity the drive shows. */
  datatype State = State(
    phase: Phase, plan: seq<Move>, host: Option<string>, hostReplica: string, target: string, recovery: string,
    complete: bool, container: string, replica: string,
    index: Index, items: Items, identity: string, note: Option<Binding>)

  datatype Ending = Finished | Stopped | Refused(error: string)

  // ---------------------------------------------------------------- moving one entry

  /** Moves one planned entry; one that was moved before counts as moved, and nothing at
      the destination is ever overwritten. */
  function Detach(items: Items, m: Move): Option<Items> {
    if m.source !in items then if m.target in items then Some(items) else None
    else if m.target in items then None
    else Some((items - {m.source})[m.target := items[m.source]])
  }

  function DetachError(items: Items, m: Move): string {
    if m.source in items then "recovery_destination_occupied" else "recovery_entry_missing"
  }

  datatype Moving = Moving(items: Items, ending: Ending)

  /** Runs the plan from its start; `budget` says how many entries it gets to. */
  function DetachAll(items: Items, plan: seq<Move>, budget: nat): Moving
    decreases |plan|
  {
    if plan == [] then Moving(items, Finished)
    else if budget == 0 then Moving(items, Stopped)
    else
      var moved := Detach(items, plan[0]);
      if moved.None? then Moving(items, Refused(DetachError(items, plan[0])))
      else DetachAll(moved.value, plan[1..], budget - 1)
  }

  /** Sources and targets are all different. */
  ghost predicate Apart(plan: seq<Move>) {
    && (forall i, j | 0 <= i < j < |plan| :: plan[i].source != plan[j].source && plan[i].target != plan[j].target)
    && (forall i, j | 0 <= i < |plan| && 0 <= j < |plan| :: plan[i].source != plan[j].target)
  }

  predicate ExactlyOne(items: Items, m: Move) {
    m.source in items <==> m.target !in items
  }

  /** What a planned pair holds, wherever it is. */
  function Held(items: Items, m: Move): Option<Item> {
    if m.source in items then Some(items[m.source]) else if m.target in items then Some(items[m.target]) else None
  }

  ghost predicate Planned(plan: seq<Move>, p: Path) {
    exists i | 0 <= i < |plan| :: p == plan[i].source || p == plan[i].target
  }

  ghost predicate SameItem(a: Items, b: Items, p: Path) {
    (p in a <==> p in b) && (p in a ==> b[p] == a[p])
  }

  /** Whether the plan finishes or not: outside the planned pairs nothing changes, and a
      pair that held one entry still holds that entry, at one of its two places. */
  ghost predicate Conserves(plan: seq<Move>, items: Items, items': Items) {
    && (forall p | !Planned(plan, p) :: SameItem(items, items', p))
    && (forall i | 0 <= i < |plan| :: ExactlyOne(items, plan[i]) ==>
          ExactlyOne(items', plan[i]) && Held(items', plan[i]) == Held(items, plan[i]))
    && (forall i | 0 <= i < |plan| :: !ExactlyOne(items, plan[i]) ==>
          SameItem(items, items', plan[i].source) && SameItem(items, items', plan[i].target))
  }

  /** Every run of the plan, finished, stopped or refused, conserves the entries. */
  lemma {:induction false} DetachConserves(items: Items, plan: seq<Move>, budget: nat)
    requires Apart(plan)
    ensures Conserves(plan, items, DetachAll(items, plan, budget).items)
    decreases |plan|
  {
    if plan != [] && budget > 0 && Detach(items, plan[0]).Some? {
      var next := Detach(items, plan[0]).value;
      DetachConserves(next, plan[1..], budget - 1);
      ConservesFront(items, next, plan, DetachAll(next, plan[1..], budget - 1).items);
    }
  }

  lemma ConservesFront(items: Items, next: Items, plan: seq<Move>, end: Items)
    requires plan != [] && Apart(plan) && Detach(items, plan[0]) == Some(next) && Conserves(plan[1..], next, end)
    ensures Conserves(plan, items, end)
  {
    var m := plan[0];
    assert forall i | 1 <= i < |plan| :: plan[i] == plan[1..][i - 1];
    assert !Planned(plan[1..], m.source) && !Planned(plan[1..], m.target);
    assert SameItem(next, end, m.source) && SameItem(next, end, m.target);
    forall p | !Planned(plan, p) ensures SameItem(items, end, p) {
      assert p != m.source && p != m.target;
      assert !Planned(plan[1..], p);
      assert SameItem(next, end, p);
    }
    forall i | 1 <= i < |plan|
      ensures SameItem(items, next, plan[i].source) && SameItem(items, next, plan[i].target)
    {
    }
  }

  /** The plan runs through exactly when of every pair exactly one place is taken; then
      every entry is at its recovery target. */
  lemma {:induction false} PlanFinishesIff(items: Items, plan: seq<Move>, budget: nat)
    requires Apart(plan) && |plan| <= budget
    ensures DetachAll(items, plan, budget).ending == Finished <==>
              forall i | 0 <= i < |plan| :: ExactlyOne(items, plan[i])
    ensures DetachAll(items, plan, budget).ending != Stopped
    ensures DetachAll(items, plan, budget).ending == Finished ==>
              forall i | 0 <= i < |plan| :: plan[i].source !in DetachAll(items, plan, budget).items
                                            && plan[i].target in DetachAll(items, plan, budget).items
    decreases |plan|
  {
    if plan != [] {
      if Detach(items, plan[0]).Some? {
        var next := Detach(items, plan[0]).value;
        PlanFinishesIff(next, plan[1..], budget - 1);
        DetachConserves(next, plan[1..], budget - 1);
        RestUntouched(items, next, plan, DetachAll(next, plan[1..], budget - 1).items);
      } else {
        assert !ExactlyOne(items, plan[0]);
      }
    }
  }

  lemma RestUntouched(items: Items, next: Items, plan: seq<Move>, end: Items)
    requires plan != [] && Apart(plan) && Detach(items, plan[0]) == Some(next) && Conserves(plan[1..], next, end)
    ensures (forall i | 0 <= i < |plan| :: ExactlyOne(items, plan[i])) <==>
              (forall i | 0 <= i < |plan[1..]| :: ExactlyOne(next, plan[1..][i]))
    ensures plan[0].source !in end && plan[0].target in end
    ensures (forall i | 0 <= i < |plan[1..]| :: plan[1..][i].source !in end && plan[1..][i].target in end)
            ==> forall i | 0 <= i < |plan| :: plan[i].source !in end && plan[i].target in end
  {
    var m := plan[0];
    assert forall i | 1 <= i < |plan| :: plan[i] == plan[1..][i - 1];
    assert !Planned(plan[1..], m.source) && !Planned(plan[1..], m.target);
    assert SameItem(next, end, m.source) && SameItem(next, end, m.target);
    forall i | 1 <= i < |plan| ensures ExactlyOne(items, plan[i]) <==> ExactlyOne(next, plan[i]) {
    }
  }

  // ---------------------------------------------------------------- resuming a plan

  function NoteOf(s: State): Option<Binding> {
    if s.host.None? then s.note else Some(Binding(s.host.value, s.hostReplica, s.target, s.complete, s.recovery))
  }

  function Adopted(s: State, uuid: string): State {
    s.(phase := Pulling, plan := [], index := EMPTY_INDEX, container := s.identity, replica := uuid)
  }

  /** What opening the replica does with a committed plan: note, identity, every entry,
      one transaction, note.  A crash is a `budget` of durable steps that runs out. */
  function Resume(s: State, uuid: string, budget: nat): (State, Ending) {
    if budget == 0 then (s, Stopped)
    else if s.phase != Detaching then (s.(note := NoteOf(s)), Finished)
    else
      var noted := s.(note := NoteOf(s));
      if budget == 1 then (noted, Stopped)
      else if s.identity != s.container && s.identity != s.target then (noted, Refused("identity"))
      else
        var moving := DetachAll(s.items, s.plan, budget - 2);
        var moved := noted.(identity := s.target, items := moving.items);
        if moving.ending != Finished then (moved, moving.ending)
        else if budget - 2 <= |s.plan| then (moved, Stopped)
        else
          var adopted := Adopted(moved, uuid);
          if budget - 3 <= |s.plan| then (adopted, Stopped) else (adopted.(note := NoteOf(adopted)), Finished)
  }

  /** A plan as it was committed: every source is there and every target is free. */
  ghost predicate Fits(s: State) {
    && s.phase == Detaching && Apart(s.plan) && s.identity in {s.container, s.target}
    && (forall i | 0 <= i < |s.plan| :: s.plan[i].source in s.items && s.plan[i].target !in s.items)
  }

  ghost predicate AllMoved(plan: seq<Move>, items: Items) {
    forall i | 0 <= i < |plan| :: plan[i].source !in items && plan[i].target in items
  }

  /** Every state an interrupted adoption can be found in. */
  ghost predicate Midway(s0: State, s: State) {
    && Conserves(s0.plan, s0.items, s.items)
    && (if s.phase == Detaching
        then s == s0.(items := s.items, identity := s.identity, note := s.note)
             && s.identity in {s0.container, s0.target}
        else s == Adopted(s0.(items := s.items, identity := s0.target, note := s.note), s.replica)
             && AllMoved(s0.plan, s.items))
  }

  lemma ConservesChain(plan: seq<Move>, a: Items, b: Items, c: Items)
    requires Conserves(plan, a, b) && Conserves(plan, b, c)
    ensures Conserves(plan, a, c)
  {
    forall p | !Planned(plan, p) ensures SameItem(a, c, p) {
      assert SameItem(a, b, p) && SameItem(b, c, p);
    }
    forall i | 0 <= i < |plan| && !ExactlyOne(a, plan[i])
      ensures SameItem(a, c, plan[i].source) && SameItem(a, c, plan[i].target)
    {
      assert SameItem(a, b, plan[i].source) && SameItem(a, b, plan[i].target);
      assert !ExactlyOne(b, plan[i]);
      assert SameItem(b, c, plan[i].source) && SameItem(b, c, plan[i].target);
    }
  }

  /** Wherever an adoption was stopped, opening again gets on with it: it is never refused,
      it stays in one of those states, and given enough steps it finishes. */
  lemma ResumeFromAnywhere(s0: State, s: State, uuid: string, budget: nat)
    requires Fits(s0) && Midway(s0, s)
    ensures var (s', ending) := Resume(s, uuid, budget);
            && Midway(s0, s') && !ending.Refused?
            && (budget >= |s0.plan| + 4 ==> ending == Finished && s'.phase == Pulling)
  {
    if s.phase == Detaching && budget >= 2 {
      var moving := MovingOn(s0, s, budget - 2);
    }
  }

  lemma MovingOn(s0: State, s: State, budget: nat) returns (moving: Moving)
    requires Fits(s0) && Conserves(s0.plan, s0.items, s.items)
    ensures moving == DetachAll(s.items, s0.plan, budget)
    ensures Conserves(s0.plan, s0.items, moving.items) && !moving.ending.Refused?
    ensures moving.ending == Finished ==> AllMoved(s0.plan, moving.items)
    ensures budget >= |s0.plan| ==> moving.ending == Finished
  {
    moving := DetachAll(s.items, s0.plan, budget);
    assert forall i | 0 <= i < |s0.plan| :: ExactlyOne(s0.items, s0.plan[i]);
    DetachConserves(s.items, s0.plan, budget);
    ConservesChain(s0.plan, s0.items, s.items, moving.items);
    NeverRefused(s.items, s0.plan, budget);
  }

  /** Pairs with exactly one place taken never make the plan refuse. */
  lemma {:induction false} NeverRefused(items: Items, plan: seq<Move>, budget: nat)
    requires Apart(plan) && forall i | 0 <= i < |plan| :: ExactlyOne(items, plan[i])
    ensures !DetachAll(items, plan, budget).ending.Refused?
    ensures DetachAll(items, plan, budget).ending == Finished ==> AllMoved(plan, DetachAll(items, plan, budget).items)
    ensures budget >= |plan| ==> DetachAll(items, plan, budget).ending == Finished
    decreases |plan|
  {
    if plan != [] && budget > 0 {
      var next := Detach(items, plan[0]).value;
      DetachConserves(next, plan[1..], budget - 1);
      RestUntouched(items, next, plan, DetachAll(next, plan[1..], budget - 1).items);
      NeverRefused(next, plan[1..], budget - 1);
    }
  }

  /** Opening again and again, each time interrupted after some number of steps. */
  function Reopened(s: State, uuid: seq<string>, budgets: seq<nat>): State
    requires |uuid| == |budgets|
  {
    if budgets == [] then s else Resume(Reopened(s, uuid[..|uuid| - 1], budgets[..|budgets| - 1]), uuid[|uuid| - 1],
                                        budgets[|budgets| - 1]).0
  }

  /** However often the adoption is interrupted, no entry is lost or overwritten in between,
      and the first opening that is not interrupted puts every entry exactly at its target. */
  lemma {:induction false} CrashSafeAdoption(s0: State, uuid: seq<string>, budgets: seq<nat>, last: string, enough: nat)
    requires Fits(s0) && |uuid| == |budgets| && enough >= |s0.plan| + 4
    ensures Midway(s0, Reopened(s0, uuid, budgets))
    ensures var (s', ending) := Resume(Reopened(s0, uuid, budgets), last, enough);
            && ending == Finished && s'.phase == Pulling && s'.identity == s'.container == s0.target
            && s'.index == EMPTY_INDEX
            && (forall i | 0 <= i < |s0.plan| ::
                  s0.plan[i].source !in s'.items && s0.plan[i].target in s'.items
                  && s'.items[s0.plan[i].target] == s0.items[s0.plan[i].source])
            && (forall p | !Planned(s0.plan, p) :: SameItem(s0.items, s'.items, p))
    decreases |budgets|
  {
    if budgets == [] {
      forall p ensures SameItem(s0.items, s0.items, p) { }
      assert Midway(s0, s0);
    } else {
      var n := |budgets| - 1;
      CrashSafeAdoption(s0, uuid[..n], budgets[..n], last, enough);
      ResumeFromAnywhere(s0, Reopened(s0, uuid[..n], budgets[..n]), uuid[n], budgets[n]);
    }
    ResumeFromAnywhere(s0, Reopened(s0, uuid, budgets), last, enough);
    var s' := Resume(Reopened(s0, uuid, budgets), last, enough).0;
    forall i | 0 <= i < |s0.plan| ensures Held(s'.items, s0.plan[i]) == Some(s0.items[s0.plan[i].source]) {
      assert ExactlyOne(s0.items, s0.plan[i]);
    }
  }

  /** When somebody else changes the files between two openings, the adoption finishes
      exactly when of every planned pair exactly one place is taken: recreating a moved
      entry or deleting one not yet moved holds it up.  Either way it conserves entries. */
  lemma ForeignChangesHoldItUp(s: State, uuid: string, budget: nat)
    requires s.phase == Detaching && Apart(s.plan) && s.identity in {s.container, s.target} && budget >= |s.plan| + 4
    ensures Resume(s, uuid, budget).1 == Finished <==> forall i | 0 <= i < |s.plan| :: ExactlyOne(s.items, s.plan[i])
    ensures Conserves(s.plan, s.items, Resume(s, uuid, budget).0.items)
  {
    PlanFinishesIff(s.items, s.plan, budget - 2);
    DetachConserves(s.items, s.plan, budget - 2);
  }

  // ---------------------------------------------------------------- a recreated entry

  const OLD_PLACE: Path := "files/a"
  const NEW_PLACE: Path := "recovery/a"

  /** A container with one file, about to become a mirror. */
  function Leaving(): State {
    State(Detaching, [Move(OLD_PLACE, NEW_PLACE)], Some("host"), "r", "target", "recovery", false, "own", "o",
          EMPTY_INDEX, map[OLD_PLACE := FileItem([0])], "own", None)
  }

  /** The same container stopped after its file was moved, with a new file under the old name. */
  function Recreated(uuid: string): State {
    var moved := Resume(Leaving(), uuid, 3).0;
    moved.(items := moved.items[OLD_PLACE := FileItem([1])])
  }

  lemma LeavingFits()
    ensures Fits(Leaving()) && OLD_PLACE != NEW_PLACE
  {
    assert OLD_PLACE[0] != NEW_PLACE[0];
  }

  lemma LeavingIsStopped(uuid: string)
    ensures Resume(Leaving(), uuid, 3).1 == Stopped
    ensures var s := Resume(Leaving(), uuid, 3).0;
            s.phase == Detaching && s.plan == Leaving().plan && s.identity == s.target
              && s.items == map[NEW_PLACE := FileItem([0])]
  {
    LeavingFits();
    assert DetachAll(map[NEW_PLACE := FileItem([0])], [], 0).ending == Finished;
    assert Leaving().plan[1..] == [];
    assert (Leaving().items - {OLD_PLACE})[NEW_PLACE := FileItem([0])] == map[NEW_PLACE := FileItem([0])];
  }

  /** The next opening is refused, however long it may work, and leaves both files where they
      are; so is every one after it. */
  lemma RecreatedEntryHoldsUp(uuid: string, budget: nat)
    requires budget >= 3
    ensures Fits(Leaving())
    ensures var (s, ending) := Resume(Recreated(uuid), uuid, budget);
            ending == Refused("recovery_destination_occupied") && s == Recreated(uuid).(note := NoteOf(Recreated(uuid)))
  {
    LeavingFits();
    LeavingIsStopped(uuid);
  }
}
