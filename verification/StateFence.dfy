/** Several stores on one directory of encrypted records: requests queue per store, one
    lock spans a request, and a revocation token fences off what was written before a
    removal, although a removal commits its token without the lock. */
module StateFence {
  import opened Records

  /** The token no removal ever issued. */
  const ZERO: nat := 0

  /** A record is sealed for its key and token; opening it with any other fails. */
  datatype Sealed = Tombstone | Ciphertext(header: nat, key: string, token: nat, master: nat, data: Bytes)

  datatype Operation = Read | Write | Remove

  datatype Request = Request(operation: Operation, key: string, data: Bytes, revision: nat, token: nat)

  datatype Result = Ok(data: Bytes) | Missing | Unavailable

  /** Where a store is with the request it took from its queue. */
  datatype Stage =
    | Free
    | Checked(request: Request)
    | Locked(request: Request)
    | Keying(request: Request, create: bool, file: Option<Sealed>, migrating: bool)
    | Storing(request: Request, master: nat, migrating: bool)
    | Saving(request: Request, master: nat, migrating: bool)
    | Finishing(request: Request, result: Result)

  /** What all stores share.  `issued` and `sealed` only record history: every token ever
      committed, and every value ever sealed, with its key and token. */
  datatype Disk = Disk(tokens: map<string, nat>, records: map<string, Sealed>, master: Option<nat>,
                       legacy: map<string, Bytes>, holder: Option<nat>,
                       issued: set<nat>, sealed: set<(string, nat, Bytes)>)

  datatype Store = Store(revisions: map<string, nat>, observed: map<string, nat>, queue: seq<Request>,
                         removing: Option<Request>, stage: Stage)

  datatype Answer = Answer(operation: Operation, key: string, result: Result)

  function TokenOf(d: Disk, key: string): nat {
    if key in d.tokens then d.tokens[key] else ZERO
  }

  function RevisionOf(s: Store, key: string): nat {
    if key in s.revisions then s.revisions[key] else 0
  }

  /** Neither a later request of this store nor a removal anywhere has overtaken it. */
  predicate Current(d: Disk, s: Store, r: Request) {
    r.revision == RevisionOf(s, r.key) && r.token == TokenOf(d, r.key)
  }

  // ---------------------------------------------------------------- asking

  function AskRead(d: Disk, s: Store, key: string): Store {
    var token := TokenOf(d, key);
    s.(observed := s.observed[key := token], queue := s.queue + [Request(Read, key, [], RevisionOf(s, key), token)])
  }

  /** A write goes out under the token this store observed last. */
  function AskWrite(d: Disk, s: Store, key: string, data: Bytes): Store {
    var token := if key in s.observed then s.observed[key] else TokenOf(d, key);
    var revision := RevisionOf(s, key) + 1;
    s.(observed := s.observed[key := token], revisions := s.revisions[key := revision],
       queue := s.queue + [Request(Write, key, data, revision, token)])
  }

  /** A removal first commits a new token, without the lock; */
  function AskRemove(d: Disk, s: Store, key: string, uuid: nat): (Disk, Store) {
    var revision := RevisionOf(s, key) + 1;
    (d.(tokens := d.tokens[key := uuid], issued := d.issued + {uuid}),
     s.(observed := s.observed[key := uuid], revisions := s.revisions[key := revision],
        removing := Some(Request(Remove, key, [], revision, uuid))))
  }

  /** which may fail: then only this store's earlier requests are overtaken; */
  function FailRemove(s: Store, key: string): Store {
    s.(revisions := s.revisions[key := RevisionOf(s, key) + 1])
  }

  /** then, other processes running in between, it erases the record and queues up; it does
      not ask whether the record could be erased. */
  function Erase(d: Disk, s: Store, fault: bool): (Disk, Store)
    requires s.removing.Some?
  {
    (if fault then d else d.(records := d.records[s.removing.value.key := Tombstone]),
     s.(removing := None, queue := s.queue + [s.removing.value]))
  }

  // ---------------------------------------------------------------- working a request off

  function Pick(d: Disk, s: Store): Store
    requires s.queue != []
  {
    var r := s.queue[0];
    s.(queue := s.queue[1..], stage := if Current(d, s, r) then Checked(r) else Finishing(r, Missing))
  }

  /** The lock is tried; a busy one is waited for, or given up on. */
  function TryLock(d: Disk, s: Store, i: nat, patient: bool): (Disk, Store)
    requires s.stage.Checked?
  {
    var r := s.stage.request;
    if d.holder.None? then (d.(holder := Some(i)), s.(stage := Locked(r)))
    else if patient then (d, s.(queue := [r] + s.queue, stage := Free))
    else (d, s.(stage := Finishing(r, Unavailable)))
  }

  /** What a request that got the lock does first. */
  function Begin(d: Disk, r: Request): (Disk, Stage) {
    match r.operation
    case Remove => (d.(legacy := d.legacy - {r.key}), Finishing(r, Ok([])))
    case Write => (d, Keying(r, true, None, false))
    case Read =>
      if r.key in d.records then
        match d.records[r.key]
        case Tombstone => (d, Finishing(r, Missing))
        case Ciphertext(header, _, _, _, _) =>
          (d, if header != r.token then Finishing(r, Missing) else Keying(r, false, Some(d.records[r.key]), false))
      else if r.token != ZERO || r.key !in d.legacy then (d, Finishing(r, Missing))
      else (d, Keying(r.(data := d.legacy[r.key]), true, None, true))
  }

  /** Opening a record gives its data back only under its own key, token and master key;
      an empty value reads as a failure. */
  function Opened(f: Sealed, r: Request, master: nat): Result {
    if f.Ciphertext? && f.key == r.key && f.token == r.token && f.master == master && f.data != [] then Ok(f.data)
    else Unavailable
  }

  function UseKey(d: Disk, stage: Stage, uuid: nat): (Disk, Stage)
    requires stage.Keying?
  {
    if d.master.None? && !stage.create then (d, Finishing(stage.request, Unavailable))
    else
      var master := if d.master.Some? then d.master.value else uuid;
      (d.(master := Some(master)),
       if stage.file.Some? then Finishing(stage.request, Opened(stage.file.value, stage.request, master))
       else Storing(stage.request, master, stage.migrating))
  }

  function SaveRecord(d: Disk, stage: Stage): (Disk, Stage)
    requires stage.Saving?
  {
    var r := stage.request;
    (d.(records := d.records[r.key := Ciphertext(r.token, r.key, r.token, stage.master, r.data)],
        sealed := d.sealed + {(r.key, r.token, r.data)},
        legacy := if stage.migrating then d.legacy - {r.key} else d.legacy),
     Finishing(r, Ok(if stage.migrating then r.data else [])))
  }

  /** One more step of the request in hand; any of them may fail. */
  function Work(d: Disk, s: Store, uuid: nat, fault: bool): (Disk, Store)
    requires s.stage.Locked? || s.stage.Keying? || s.stage.Storing? || s.stage.Saving?
  {
    if fault then (d, s.(stage := Finishing(s.stage.request, Unavailable)))
    else match s.stage
      case Locked(r) => var (d', stage) := Begin(d, r); (d', s.(stage := stage))
      case Keying(_, _, _, _) => var (d', stage) := UseKey(d, s.stage, uuid); (d', s.(stage := stage))
      case Storing(r, master, migrating) =>
        (d, s.(stage := if Current(d, s, r) then Saving(r, master, migrating) else Finishing(r, Missing)))
      case Saving(_, _, _) => var (d', stage) := SaveRecord(d, s.stage); (d', s.(stage := stage))
  }

  /** The lock goes, and a request that was overtaken answers that nothing is there. */
  function Finish(d: Disk, s: Store, i: nat): (Disk, Store, Answer)
    requires s.stage.Finishing?
  {
    var r := s.stage.request;
    (if d.holder == Some(i) then d.(holder := None) else d, s.(stage := Free),
     Answer(r.operation, r.key, if Current(d, s, r) then s.stage.result else Missing))
  }

  const NEW_STORE: Store := Store(map[], map[], [], None, Free)

  /** A store's process ends: its memory goes, and the lock if it held it. */
  function Crash(d: Disk, i: nat): (Disk, Store) {
    (if d.holder == Some(i) then d.(holder := None) else d, NEW_STORE)
  }

  // ---------------------------------------------------------------- all stores together

  datatype World = World(disk: Disk, stores: seq<Store>)

  datatype Step =
    | AsksRead(i: nat, key: string)
    | AsksWrite(i: nat, key: string, data: Bytes)
    | AsksRemove(i: nat, key: string, uuid: nat)
    | FailsRemove(i: nat, key: string)
    | Erases(i: nat, fault: bool)
    | Picks(i: nat)
    | TriesLock(i: nat, patient: bool)
    | Works(i: nat, uuid: nat, fault: bool)
    | Finishes(i: nat)
    | Crashes(i: nat)

  /** A store in the middle of a removal does nothing else first; tokens are never reused. */
  predicate Enabled(w: World, step: Step) {
    step.i < |w.stores| && var s := w.stores[step.i];
    match step
    case AsksRead(_, _) => s.removing.None?
    case AsksWrite(_, _, _) => s.removing.None?
    case AsksRemove(_, _, uuid) => s.removing.None? && uuid !in w.disk.issued && uuid != ZERO
    case FailsRemove(_, _) => s.removing.None?
    case Erases(_, _) => s.removing.Some?
    case Picks(_) => s.removing.None? && s.stage == Free && s.queue != []
    case TriesLock(_, _) => s.removing.None? && s.stage.Checked?
    case Works(_, _, _) =>
      s.removing.None? && (s.stage.Locked? || s.stage.Keying? || s.stage.Storing? || s.stage.Saving?)
    case Finishes(_) => s.removing.None? && s.stage.Finishing?
    case Crashes(_) => true
  }

  function Moved(w: World, step: Step): (Disk, Store)
    requires Enabled(w, step)
  {
    var d, s := w.disk, w.stores[step.i];
    match step
    case AsksRead(_, key) => (d, AskRead(d, s, key))
    case AsksWrite(_, key, data) => (d, AskWrite(d, s, key, data))
    case AsksRemove(_, key, uuid) => AskRemove(d, s, key, uuid)
    case FailsRemove(_, key) => (d, FailRemove(s, key))
    case Erases(_, fault) => Erase(d, s, fault)
    case Picks(_) => (d, Pick(d, s))
    case TriesLock(i, patient) => TryLock(d, s, i, patient)
    case Works(_, uuid, fault) => Work(d, s, uuid, fault)
    case Finishes(i) => (Finish(d, s, i).0, Finish(d, s, i).1)
    case Crashes(i) => Crash(d, i)
  }

  function Next(w: World, step: Step): World
    requires Enabled(w, step)
  {
    var (d, s) := Moved(w, step);
    World(d, w.stores[step.i := s])
  }

  /** The answer a step gives, if it gives one. */
  function Answered(w: World, step: Step): Option<Answer>
    requires Enabled(w, step)
  {
    match step case Finishes(i) => Some(Finish(w.disk, w.stores[i], i).2) case _ => None
  }

  // ---------------------------------------------------------------- what always holds

  /** A file holds what was sealed for its key under the token in its header. */
  ghost predicate FileOk(d: Disk, key: string, f: Sealed) {
    f.Ciphertext? ==> f.header == f.token && f.key == key && (key, f.token, f.data) in d.sealed
  }

  ghost predicate StageOk(d: Disk, i: nat, stage: Stage) {
    && (stage.Locked? || stage.Keying? || stage.Storing? || stage.Saving? ==> d.holder == Some(i))
    && (d.holder == Some(i) ==> !stage.Free? && !stage.Checked?)
    && (stage.Keying? && stage.file.Some? ==> FileOk(d, stage.request.key, stage.file.value))
    && (stage.Finishing? && stage.request.operation == Read && stage.result.Ok? ==>
          (stage.request.key, stage.request.token, stage.result.data) in d.sealed)
    && (stage.Keying? ==> (stage.request.operation == Read ==> stage.file.Some? || stage.migrating))
    && (stage.Storing? || stage.Saving? ==> (stage.request.operation == Read ==> stage.migrating))
  }

  ghost predicate Inv(w: World) {
    && (forall key | key in w.disk.records :: FileOk(w.disk, key, w.disk.records[key]))
    && (forall key | key in w.disk.tokens :: w.disk.tokens[key] in w.disk.issued)
    && ZERO !in w.disk.issued
    && (forall i | 0 <= i < |w.stores| :: StageOk(w.disk, i, w.stores[i].stage))
    && (w.disk.holder.Some? ==> w.disk.holder.value < |w.stores|)
  }

  // ---------------------------------------------------------------- every step keeps it

  ghost predicate DiskOk(d: Disk) {
    && (forall key | key in d.records :: FileOk(d, key, d.records[key]))
    && (forall key | key in d.tokens :: d.tokens[key] in d.issued)
    && ZERO !in d.issued
  }

  /** What one store's step leaves for the others: history grows, and the lock is taken
      only when it is free and given back only by its holder. */
  ghost predicate Fair(d: Disk, d': Disk, i: nat) {
    && d.sealed <= d'.sealed && d.issued <= d'.issued
    && (d'.holder == d.holder || (d.holder.None? && d'.holder == Some(i)) || (d.holder == Some(i) && d'.holder.None?))
  }

  lemma FairForOthers(d: Disk, d': Disk, i: nat, j: nat, stage: Stage)
    requires Fair(d, d', i) && i != j && StageOk(d, j, stage)
    ensures StageOk(d', j, stage)
  {
  }

  lemma BeginKeeps(d: Disk, r: Request, i: nat)
    requires DiskOk(d) && d.holder == Some(i)
    ensures var (d', stage) := Begin(d, r); DiskOk(d') && Fair(d, d', i) && StageOk(d', i, stage)
  {
    var (d', stage) := Begin(d, r);
    assert d'.records == d.records && d'.sealed == d.sealed;
  }

  lemma UseKeyKeeps(d: Disk, stage: Stage, uuid: nat, i: nat)
    requires DiskOk(d) && stage.Keying? && StageOk(d, i, stage)
    ensures var (d', stage') := UseKey(d, stage, uuid); DiskOk(d') && Fair(d, d', i) && StageOk(d', i, stage')
  {
    var (d', stage') := UseKey(d, stage, uuid);
    assert d'.records == d.records && d'.sealed == d.sealed;
  }

  lemma SaveKeeps(d: Disk, stage: Stage, i: nat)
    requires DiskOk(d) && stage.Saving? && StageOk(d, i, stage)
    ensures var (d', stage') := SaveRecord(d, stage); DiskOk(d') && Fair(d, d', i) && StageOk(d', i, stage')
  {
    var (d', _) := SaveRecord(d, stage);
    forall key | key in d'.records ensures FileOk(d', key, d'.records[key]) {
      if key != stage.request.key { assert FileOk(d, key, d.records[key]); }
    }
  }

  lemma WorkKeeps(d: Disk, s: Store, uuid: nat, fault: bool, i: nat)
    requires DiskOk(d) && StageOk(d, i, s.stage)
    requires (s.stage.Locked? || s.stage.Keying? || s.stage.Storing? || s.stage.Saving?)
    ensures var (d', s') := Work(d, s, uuid, fault); DiskOk(d') && Fair(d, d', i) && StageOk(d', i, s'.stage)
  {
    if !fault {
      match s.stage
      case Locked(r) => BeginKeeps(d, r, i);
      case Keying(_, _, _, _) => UseKeyKeeps(d, s.stage, uuid, i);
      case Storing(_, _, _) =>
      case Saving(_, _, _) => SaveKeeps(d, s.stage, i);
    }
  }

  lemma RemoveKeeps(d: Disk, s: Store, key: string, uuid: nat, i: nat)
    requires DiskOk(d) && uuid != ZERO && StageOk(d, i, s.stage)
    ensures var (d', s') := AskRemove(d, s, key, uuid); DiskOk(d') && Fair(d, d', i) && StageOk(d', i, s'.stage)
  {
    var (d', _) := AskRemove(d, s, key, uuid);
    forall k | k in d'.records ensures FileOk(d', k, d'.records[k]) { assert FileOk(d, k, d.records[k]); }
  }

  lemma EraseKeeps(d: Disk, s: Store, fault: bool, i: nat)
    requires DiskOk(d) && s.removing.Some? && StageOk(d, i, s.stage)
    ensures var (d', s') := Erase(d, s, fault); DiskOk(d') && Fair(d, d', i) && StageOk(d', i, s'.stage)
  {
    var (d', _) := Erase(d, s, fault);
    forall k | k in d'.records ensures FileOk(d', k, d'.records[k]) {
      if fault || k != s.removing.value.key { assert FileOk(d, k, d.records[k]); }
    }
  }

  lemma LockKeeps(d: Disk, s: Store, i: nat, patient: bool)
    requires DiskOk(d) && s.stage.Checked? && StageOk(d, i, s.stage)
    ensures var (d', s') := TryLock(d, s, i, patient); DiskOk(d') && Fair(d, d', i) && StageOk(d', i, s'.stage)
  {
    var (d', _) := TryLock(d, s, i, patient);
    assert d'.records == d.records && d'.sealed == d.sealed;
  }

  lemma ReleaseKeeps(d: Disk, i: nat)
    requires DiskOk(d)
    ensures var d' := if d.holder == Some(i) then d.(holder := None) else d;
            DiskOk(d') && Fair(d, d', i) && StageOk(d', i, Free)
  {
    var d' := if d.holder == Some(i) then d.(holder := None) else d;
    assert d'.records == d.records && d'.sealed == d.sealed;
  }

  lemma MovedKeeps(w: World, step: Step)
    requires Inv(w) && Enabled(w, step)
    ensures var (d', s') := Moved(w, step); DiskOk(d') && Fair(w.disk, d', step.i) && StageOk(d', step.i, s'.stage)
  {
    var d, s := w.disk, w.stores[step.i];
    match step
    case AsksRead(_, _) =>
    case AsksWrite(_, _, _) =>
    case AsksRemove(i, key, uuid) => RemoveKeeps(d, s, key, uuid, i);
    case FailsRemove(_, _) =>
    case Erases(i, fault) => EraseKeeps(d, s, fault, i);
    case Picks(_) =>
    case TriesLock(i, patient) => LockKeeps(d, s, i, patient);
    case Works(i, uuid, fault) => WorkKeeps(d, s, uuid, fault, i);
    case Finishes(i) => ReleaseKeeps(d, i);
    case Crashes(i) => ReleaseKeeps(d, i);
  }

  lemma StepKeepsInv(w: World, step: Step)
    requires Inv(w) && Enabled(w, step)
    ensures Inv(Next(w, step)) && Fair(w.disk, Next(w, step).disk, step.i)
  {
    MovedKeeps(w, step);
    var w' := Next(w, step);
    forall j | 0 <= j < |w'.stores| ensures StageOk(w'.disk, j, w'.stores[j].stage) {
      if j != step.i { FairForOthers(w.disk, w'.disk, step.i, j, w.stores[j].stage); }
    }
  }

  /** A read that answers with data answers with something sealed for its key under the
      token in force at that moment. */
  lemma AnswersAreCurrent(w: World, step: Step)
    requires Inv(w) && Enabled(w, step) && Answered(w, step).Some?
    ensures var a := Answered(w, step).value;
            a.operation == Read && a.result.Ok? ==> (a.key, TokenOf(w.disk, a.key), a.result.data) in w.disk.sealed
  {
  }

  /** Only one store at a time works between taking the lock and finishing. */
  lemma OneAtATime(w: World, i: nat, j: nat)
    requires Inv(w) && i < |w.stores| && j < |w.stores|
    requires var a, b := w.stores[i].stage, w.stores[j].stage;
             (a.Locked? || a.Keying? || a.Storing? || a.Saving?) && (b.Locked? || b.Keying? || b.Storing? || b.Saving?)
    ensures i == j
  {
    assert StageOk(w.disk, i, w.stores[i].stage) && StageOk(w.disk, j, w.stores[j].stage);
  }

  // ---------------------------------------------------------------- runs

  ghost predicate Initial(w: World) {
    && w.disk.records == map[] && w.disk.tokens == map[] && w.disk.issued == {} && w.disk.sealed == {}
    && w.disk.holder.None?
    && forall i | 0 <= i < |w.stores| :: w.stores[i] == NEW_STORE
  }

  ghost predicate Run(worlds: seq<World>, steps: seq<Step>) {
    && |worlds| == |steps| + 1 && Initial(worlds[0])
    && forall k | 0 <= k < |steps| :: Stepped(worlds, steps, k)
  }

  ghost predicate Stepped(worlds: seq<World>, steps: seq<Step>, k: nat)
    requires k < |steps| && |worlds| == |steps| + 1
  {
    Enabled(worlds[k], steps[k]) && worlds[k + 1] == Next(worlds[k], steps[k])
  }

  lemma {:induction false} RunKeepsInv(worlds: seq<World>, steps: seq<Step>, k: nat)
    requires Run(worlds, steps) && k <= |steps|
    ensures Inv(worlds[k])
  {
    if k > 0 {
      RunKeepsInv(worlds, steps, k - 1);
      assert Stepped(worlds, steps, k - 1);
      StepKeepsInv(worlds[k - 1], steps[k - 1]);
    }
  }

  lemma TokenStep(w: World, step: Step, key: string)
    requires Enabled(w, step)
    ensures var w' := Next(w, step);
            if step.AsksRemove? && step.key == key then TokenOf(w'.disk, key) == step.uuid
            else TokenOf(w'.disk, key) == TokenOf(w.disk, key)
    ensures w.disk.issued <= Next(w, step).disk.issued
  {
  }

  lemma {:induction false} IssuedGrows(worlds: seq<World>, steps: seq<Step>, a: nat, b: nat)
    requires Run(worlds, steps) && a <= b <= |steps|
    ensures worlds[a].disk.issued <= worlds[b].disk.issued
  {
    if a < b {
      IssuedGrows(worlds, steps, a, b - 1);
      assert Stepped(worlds, steps, b - 1);
      TokenStep(worlds[b - 1], steps[b - 1], "");
    }
  }

  lemma TokenWasIssued(w: World, key: string)
    requires Inv(w)
    ensures TokenOf(w.disk, key) in w.disk.issued || TokenOf(w.disk, key) == ZERO
  {
  }

  lemma RunToken(worlds: seq<World>, steps: seq<Step>, k: nat, key: string)
    requires Run(worlds, steps) && k < |steps|
    ensures var t := TokenOf(worlds[k + 1].disk, key);
            t == TokenOf(worlds[k].disk, key) || (t !in worlds[k].disk.issued && t != ZERO)
  {
    assert Stepped(worlds, steps, k);
    TokenStep(worlds[k], steps[k], key);
  }

  /** From some moment on a key's token is the one it had then or one issued later. */
  lemma {:induction false} TokensMoveOn(worlds: seq<World>, steps: seq<Step>, a: nat, b: nat, key: string)
    requires Run(worlds, steps) && a <= b <= |steps|
    ensures var t := TokenOf(worlds[b].disk, key);
            t == TokenOf(worlds[a].disk, key) || (t !in worlds[a].disk.issued && t != ZERO)
  {
    if a < b {
      TokensMoveOn(worlds, steps, a, b - 1, key);
      RunToken(worlds, steps, b - 1, key);
      IssuedGrows(worlds, steps, a, b - 1);
    }
  }

  /** The fence: after a removal committed its token, every read that answers with data
      answers with something sealed under a token that was in force at no moment before
      the removal, however late a write under an older token lands. */
  lemma NothingOldIsRead(worlds: seq<World>, steps: seq<Step>, removed: nat, read: nat, before: nat)
    requires Run(worlds, steps) && before <= removed < read < |steps| && Enabled(worlds[read], steps[read])
    requires steps[removed].AsksRemove? && Answered(worlds[read], steps[read]).Some?
    ensures var a, key := Answered(worlds[read], steps[read]).value, steps[removed].key;
            a.operation == Read && a.key == key && a.result.Ok? ==>
              var token := TokenOf(worlds[read].disk, key);
              (key, token, a.result.data) in worlds[read].disk.sealed && token != TokenOf(worlds[before].disk, key)
  {
    var key := steps[removed].key;
    RunKeepsInv(worlds, steps, read);
    RunKeepsInv(worlds, steps, before);
    assert Stepped(worlds, steps, read) && Stepped(worlds, steps, removed);
    AnswersAreCurrent(worlds[read], steps[read]);
    TokensMoveOn(worlds, steps, removed + 1, read, key);
    TokenStep(worlds[removed], steps[removed], key);
    TokenWasIssued(worlds[before], key);
    IssuedGrows(worlds, steps, before, removed);
    IssuedGrows(worlds, steps, before, removed + 1);
  }

  // ---------------------------------------------------------------- tokens in hand

  /** The keys and tokens a store could still seal something under. */
  function Hands(s: Store): set<(string, nat)> {
    (set r | r in s.queue :: (r.key, r.token))
    + (set k | k in s.observed :: (k, s.observed[k]))
    + (if s.removing.Some? then {(s.removing.value.key, s.removing.value.token)} else {})
    + (if s.stage.Free? then {} else {(s.stage.request.key, s.stage.request.token)})
  }

  /** A store only ever takes up the token that is in force. */
  lemma HandsStep(w: World, step: Step, i: nat, key: string, token: nat)
    requires Enabled(w, step) && i < |w.stores| && (key, token) in Hands(Next(w, step).stores[i])
    ensures (key, token) in Hands(w.stores[i]) || token == TokenOf(Next(w, step).disk, key)
  {
  }

  /** Every token in a store's hands was in force at some moment so far. */
  lemma {:induction false} HandsWereInForce(worlds: seq<World>, steps: seq<Step>, k: nat, i: nat, key: string,
                                            token: nat)
    returns (j: nat)
    requires Run(worlds, steps) && k <= |steps| && i < |worlds[k].stores| && (key, token) in Hands(worlds[k].stores[i])
    ensures j <= k && TokenOf(worlds[j].disk, key) == token
  {
    assert Hands(NEW_STORE) == {};
    j := 0;
    if k > 0 {
      assert Stepped(worlds, steps, k - 1);
      HandsStep(worlds[k - 1], steps[k - 1], i, key, token);
      if (key, token) in Hands(worlds[k - 1].stores[i]) {
        j := HandsWereInForce(worlds, steps, k - 1, i, key, token);
      } else {
        j := k;
      }
    }
  }

  /** So whatever any store asked for, observed or was working on before a removal can
      only seal under tokens that no later successful read is sealed under. */
  lemma NothingInHandIsRead(worlds: seq<World>, steps: seq<Step>, removed: nat, read: nat, i: nat, token: nat)
    requires Run(worlds, steps) && removed < read < |steps| && steps[removed].AsksRemove?
    requires i < |worlds[removed].stores| && (steps[removed].key, token) in Hands(worlds[removed].stores[i])
    ensures token != TokenOf(worlds[read].disk, steps[removed].key)
  {
    var key := steps[removed].key;
    assert Stepped(worlds, steps, removed);
    var j := HandsWereInForce(worlds, steps, removed, i, key, token);
    RunKeepsInv(worlds, steps, j);
    TokenWasIssued(worlds[j], key);
    TokensMoveOn(worlds, steps, removed + 1, read, key);
    TokenStep(worlds[removed], steps[removed], key);
    IssuedGrows(worlds, steps, j, removed);
    IssuedGrows(worlds, steps, j, removed + 1);
  }

  // ---------------------------------------------------------------- two limits

  /** What was written under the token in force reads back, exactly when it is not empty. */
  lemma ReadsBackIff(d: Disk, key: string, token: nat, data: Bytes, master: nat, revision: nat, uuid: nat)
    requires d.master == Some(master)
    ensures var saved := SaveRecord(d, Saving(Request(Write, key, data, revision, token), master, false)).0;
            var begun := Begin(saved, Request(Read, key, [], revision, token));
            && begun.1.Keying?
            && var read := Finishing(Request(Read, key, [], revision, token), Ok(data));
               UseKey(begun.0, begun.1, uuid).1 == read <==> data != []
  {
  }

  /** Only a save by the holder of the lock and the second half of a removal change a record. */
  lemma RecordsChangeOnlyBy(w: World, step: Step, key: string)
    requires Inv(w) && Enabled(w, step)
    ensures var d, d' := w.disk, Next(w, step).disk;
            (key in d'.records) != (key in d.records) || (key in d.records && d'.records[key] != d.records[key]) ==>
              || (step.Works? && w.stores[step.i].stage.Saving? && w.stores[step.i].stage.request.key == key
                  && d.holder == Some(step.i))
              || (step.Erases? && !step.fault && w.stores[step.i].removing.value.key == key
                  && d'.records[key] == Tombstone)
  {
    assert StageOk(w.disk, step.i, w.stores[step.i].stage);
  }

  function TwoStores(): World {
    World(Disk(map[], map[], None, map[], None, {}, {}), [NEW_STORE, NEW_STORE])
  }

  /** Store 0 removes, and before it erases the record store 1 observes the new token and
      writes under it; then store 0 erases. */
  const RACE: seq<Step> := [AsksRemove(0, "k", 7), AsksWrite(1, "k", [1]), Picks(1), TriesLock(1, true),
                            Works(1, 9, false), Works(1, 9, false), Works(1, 9, false), Works(1, 9, false), Finishes(1),
                              Erases(0, false)]

  function Played(w: World, steps: seq<Step>): Option<World> {
    if steps == [] then Some(w)
    else
      var before := Played(w, steps[..|steps| - 1]);
      if before.None? || !Enabled(before.value, steps[|steps| - 1]) then None
      else Some(Next(before.value, steps[|steps| - 1]))
  }

  lemma PlayedNext(w: World, steps: seq<Step>, k: nat)
    requires k < |steps| && Played(w, steps[..k]).Some? && Enabled(Played(w, steps[..k]).value, steps[k])
    ensures Played(w, steps[..k + 1]) == Some(Next(Played(w, steps[..k]).value, steps[k]))
  {
    assert steps[..k + 1][..k] == steps[..k];
  }

  lemma RaceUntilSaved() returns (w: World)
    ensures Played(TwoStores(), RACE[..8]) == Some(w)
    ensures var r := Request(Write, "k", [1], 1, 7);
            w.disk.records == map["k" := Ciphertext(7, "k", 7, 9, [1])] && w.disk.tokens == map["k" := 7]
            && w.disk.holder == Some(1) && w.stores == [w.stores[0], w.stores[1]]
            && w.stores[0].removing == Some(Request(Remove, "k", [], 1, 7))
            && w.stores[1].stage == Finishing(r, Ok([])) && w.stores[1].revisions == map["k" := 1]
            && w.stores[1].removing.None?
  {
    assert RACE[..0] == [];
    w := TwoStores();
    var k := 0;
    while k < 8
      invariant 0 <= k <= 8 && Played(TwoStores(), RACE[..k]) == Some(w)
      invariant |w.stores| == 2
      invariant RaceAt(w, k)
    {
      RaceGoesOn(w, k);
      PlayedNext(TwoStores(), RACE, k);
      w := Next(w, RACE[k]);
      k := k + 1;
    }
  }

  lemma RaceGoesOn(w: World, k: nat)
    requires k < 8 && |w.stores| == 2 && RaceAt(w, k)
    ensures Enabled(w, RACE[k]) && |Next(w, RACE[k]).stores| == 2 && RaceAt(Next(w, RACE[k]), k + 1)
  {
    if k < 4 { RaceBegins(w, k); } else { RaceGetsSaved(w, k); }
  }

  lemma RaceBegins(w: World, k: nat)
    requires k < 4 && |w.stores| == 2 && RaceAt(w, k)
    ensures Enabled(w, RACE[k]) && |Next(w, RACE[k]).stores| == 2 && RaceAt(Next(w, RACE[k]), k + 1)
  {
  }

  lemma RaceGetsSaved(w: World, k: nat)
    requires 4 <= k < 8 && |w.stores| == 2 && RaceAt(w, k)
    ensures Enabled(w, RACE[k]) && |Next(w, RACE[k]).stores| == 2 && RaceAt(Next(w, RACE[k]), k + 1)
  {
  }

  ghost predicate RaceAt(w: World, k: nat)
    requires |w.stores| == 2
  {
    var r := Request(Write, "k", [1], 1, 7);
    var remover, writer := w.stores[0], w.stores[1];
    if k == 0 then w == TwoStores()
    else
      && w.disk.tokens == map["k" := 7] && remover.removing == Some(Request(Remove, "k", [], 1, 7))
      && writer.removing.None?
      && w.disk.issued == {7}
      && (if k == 1 then writer == NEW_STORE else writer.revisions == map["k" := 1])
      && (k == 2 ==> writer.queue == [r] && writer.stage == Free)
      && (k == 3 ==> writer.stage == Checked(r)) && (k == 4 ==> writer.stage == Locked(r))
      && (k == 5 ==> writer.stage == Keying(r, true, None, false))
      && (k == 6 ==> writer.stage == Storing(r, 9, false)) && (k == 7 ==> writer.stage == Saving(r, 9, false))
      && (k == 8 ==> writer.stage == Finishing(r, Ok([])))
      && (if k <= 3 then w.disk.holder.None? else w.disk.holder == Some(1))
      && (k <= 5 ==> w.disk.master.None?)
      && (if k < 8 then w.disk.records == map[] else w.disk.records == map["k" := Ciphertext(7, "k", 7, 9, [1])])
  }

  /** The fence protects what must not be read; it does not protect what was written after
      it: a write under the new token can be acknowledged and then erased, because a
      removal erases the record later than it commits its token, and without the lock. */
  lemma AcknowledgedWriteCanBeErased()
    ensures var saved := Played(TwoStores(), RACE[..8]);
            && saved.Some? && Enabled(saved.value, RACE[8])
            && Answered(saved.value, RACE[8]) == Some(Answer(Write, "k", Ok([])))
            && (var told := Next(saved.value, RACE[8]);
                && told.disk.records["k"] == Ciphertext(7, "k", 7, 9, [1]) && Enabled(told, RACE[9])
                && Next(told, RACE[9]).disk.records["k"] == Tombstone
                && TokenOf(Next(told, RACE[9]).disk, "k") == TokenOf(told.disk, "k"))
  {
    var w := RaceUntilSaved();
  }
}
