/** What becomes of a write after it was acknowledged: over all runs of several stores on one
    directory, exactly when a later read gives it back. */
module WriteDurability {
  import opened Records
  import opened StateFence

  // ---------------------------------------------------------------- who writes a record

  /** A store saves a value under `key`. */
  predicate Saves(w: World, step: Step, key: string) {
    && Enabled(w, step) && step.Works? && !step.fault
    && w.stores[step.i].stage.Saving? && w.stores[step.i].stage.request.key == key
  }

  /** The second half of a removal erases the record. */
  predicate ErasesRecord(w: World, step: Step, key: string) {
    Enabled(w, step) && step.Erases? && !step.fault && w.stores[step.i].removing.value.key == key
  }

  predicate Touches(w: World, step: Step, key: string) {
    Saves(w, step, key) || ErasesRecord(w, step, key)
  }

  /** What such a step leaves in the record. */
  function Left(w: World, step: Step, key: string): Sealed {
    if Saves(w, step, key) then
      var stage := w.stores[step.i].stage;
      Ciphertext(stage.request.token, key, stage.request.token, stage.master, stage.request.data)
    else Tombstone
  }

  function RecordOf(d: Disk, key: string): Option<Sealed> {
    if key in d.records then Some(d.records[key]) else None
  }

  lemma TouchStep(w: World, step: Step, key: string)
    requires Enabled(w, step)
    ensures RecordOf(Next(w, step).disk, key)
            == if Touches(w, step, key) then Some(Left(w, step, key)) else RecordOf(w.disk, key)
  {
  }

  ghost predicate Touched(worlds: seq<World>, steps: seq<Step>, k: nat, key: string)
    requires k < |steps| && |worlds| == |steps| + 1
  {
    Touches(worlds[k], steps[k], key)
  }

  /** The last step before `c` that wrote the record. */
  ghost function LastTouch(worlds: seq<World>, steps: seq<Step>, a: nat, c: nat, key: string): (l: nat)
    requires |worlds| == |steps| + 1 && a < c <= |steps| && Touched(worlds, steps, a, key)
    ensures a <= l < c && Touched(worlds, steps, l, key)
    ensures forall k | l < k < c :: !Touched(worlds, steps, k, key)
    decreases c
  {
    if Touched(worlds, steps, c - 1, key) then c - 1 else LastTouch(worlds, steps, a, c - 1, key)
  }

  /** A record holds what the last step that wrote it left. */
  lemma {:induction false} RecordIsLastTouch(worlds: seq<World>, steps: seq<Step>, a: nat, c: nat, key: string)
    requires Run(worlds, steps) && a < c <= |steps| && Touched(worlds, steps, a, key)
    ensures var l := LastTouch(worlds, steps, a, c, key);
            RecordOf(worlds[c].disk, key) == Some(Left(worlds[l], steps[l], key))
    decreases c
  {
    assert Stepped(worlds, steps, c - 1);
    TouchStep(worlds[c - 1], steps[c - 1], key);
    if !Touched(worlds, steps, c - 1, key) { RecordIsLastTouch(worlds, steps, a, c - 1, key); }
  }

  // ---------------------------------------------------------------- one master key

  predicate MasterOkIn(d: Disk, stage: Stage) {
    stage.Storing? || stage.Saving? ==> d.master == Some(stage.master)
  }

  /** Every record is sealed, and every save under way seals, with the one master key. */
  ghost predicate OneMaster(w: World) {
    && (forall key | key in w.disk.records && w.disk.records[key].Ciphertext? ::
          w.disk.master == Some(w.disk.records[key].master))
    && (forall i | 0 <= i < |w.stores| :: MasterOkIn(w.disk, w.stores[i].stage))
  }

  lemma MasterStays(w: World, step: Step)
    requires Enabled(w, step)
    ensures w.disk.master.Some? ==> Next(w, step).disk.master == w.disk.master
  {
  }

  lemma StepKeepsMaster(w: World, step: Step)
    requires Inv(w) && OneMaster(w) && Enabled(w, step)
    ensures OneMaster(Next(w, step))
  {
    var w' := Next(w, step);
    MasterStays(w, step);
    forall j | 0 <= j < |w'.stores| ensures MasterOkIn(w'.disk, w'.stores[j].stage) {
      assert MasterOkIn(w.disk, w.stores[j].stage);
    }
    forall key | key in w'.disk.records && w'.disk.records[key].Ciphertext?
      ensures w'.disk.master == Some(w'.disk.records[key].master)
    {
      TouchStep(w, step, key);
      assert MasterOkIn(w.disk, w.stores[step.i].stage);
    }
  }

  lemma {:induction false} RunKeepsMaster(worlds: seq<World>, steps: seq<Step>, k: nat)
    requires Run(worlds, steps) && k <= |steps|
    ensures OneMaster(worlds[k])
  {
    if k > 0 {
      RunKeepsMaster(worlds, steps, k - 1);
      RunKeepsInv(worlds, steps, k - 1);
      assert Stepped(worlds, steps, k - 1);
      StepKeepsMaster(worlds[k - 1], steps[k - 1]);
    }
  }

  // ---------------------------------------------------------------- a read

  /** What a read of a record answers, when nothing fails and nothing overtakes it. */
  function Opens(f: Sealed, token: nat): Result {
    if f.Tombstone? || f.token != token then Missing else if f.data == [] then Unavailable else Ok(f.data)
  }

  /** Store `j` looks at the record of the read it has the lock for. */
  ghost predicate LooksAt(w: World, step: Step, j: nat, r: Request) {
    Enabled(w, step) && step.Works? && step.i == j && !step.fault && w.stores[j].stage == Locked(r)
      && r.operation == Read
  }

  /** From there on the store's work does not fail, and it does not end. */
  predicate Quiet(step: Step, j: nat) {
    step.i == j ==> !step.Finishes? && !step.Crashes? && (step.Works? ==> !step.fault)
  }

  /** Where a read of `f` may be after it looked. */
  predicate Reading(w: World, j: nat, r: Request, f: Sealed) {
    && j < |w.stores|
    && (f.Ciphertext? ==> w.disk.master == Some(f.master))
    && (w.stores[j].stage == Finishing(r, Opens(f, r.token))
        || (f.Ciphertext? && f.token == r.token && w.stores[j].stage == Keying(r, false, Some(f), false)))
  }

  lemma ReadStarts(w: World, step: Step, j: nat, r: Request, f: Sealed)
    requires Inv(w) && OneMaster(w) && LooksAt(w, step, j, r) && RecordOf(w.disk, r.key) == Some(f)
    ensures Reading(Next(w, step), j, r, f) && (f.Ciphertext? ==> f.key == r.key)
  {
    assert FileOk(w.disk, r.key, f);
  }

  lemma ReadGoesOn(w: World, step: Step, j: nat, r: Request, f: Sealed)
    requires Enabled(w, step) && Reading(w, j, r, f) && Quiet(step, j) && (f.Ciphertext? ==> f.key == r.key)
    ensures Reading(Next(w, step), j, r, f)
  {
    MasterStays(w, step);
  }

  lemma {:induction false} ReadArrives(worlds: seq<World>, steps: seq<Step>, c: nat, b: nat, j: nat, r: Request,
                                       f: Sealed)
    requires Run(worlds, steps) && c < b <= |steps| && LooksAt(worlds[c], steps[c], j, r)
    requires RecordOf(worlds[c].disk, r.key) == Some(f)
    requires forall k | c < k < b :: Quiet(steps[k], j)
    ensures Reading(worlds[b], j, r, f) && (f.Ciphertext? ==> f.key == r.key)
    decreases b
  {
    assert Stepped(worlds, steps, b - 1);
    if b == c + 1 {
      RunKeepsInv(worlds, steps, c);
      RunKeepsMaster(worlds, steps, c);
      ReadStarts(worlds[c], steps[c], j, r, f);
    } else {
      ReadArrives(worlds, steps, c, b - 1, j, r, f);
      ReadGoesOn(worlds[b - 1], steps[b - 1], j, r, f);
    }
  }

  /** A read that looks at `c` and ends at `b`, undisturbed and not overtaken. */
  ghost predicate ReadsBetween(worlds: seq<World>, steps: seq<Step>, c: nat, b: nat, j: nat, r: Request)
    requires |worlds| == |steps| + 1
  {
    && c < b < |steps| && LooksAt(worlds[c], steps[c], j, r)
    && (forall k | c < k < b :: Quiet(steps[k], j))
    && Enabled(worlds[b], steps[b]) && steps[b] == Finishes(j) && Current(worlds[b].disk, worlds[b].stores[j], r)
  }

  /** In every run: a read that is neither disturbed nor overtaken answers with what the last
      step left that wrote the record before it looked. */
  lemma ReadsTheLastTouch(worlds: seq<World>, steps: seq<Step>, a: nat, c: nat, b: nat, j: nat, r: Request)
    requires Run(worlds, steps) && a < c && ReadsBetween(worlds, steps, c, b, j, r) && Touched(worlds, steps, a, r.key)
    ensures var l := LastTouch(worlds, steps, a, c, r.key);
            Answered(worlds[b], steps[b]) == Some(Answer(Read, r.key, Opens(Left(worlds[l], steps[l], r.key), r.token)))
  {
    var l := LastTouch(worlds, steps, a, c, r.key);
    RecordIsLastTouch(worlds, steps, a, c, r.key);
    ReadArrives(worlds, steps, c, b, j, r, Left(worlds[l], steps[l], r.key));
  }

  // ---------------------------------------------------------------- an acknowledged write

  /** A write is told to have succeeded. */
  ghost predicate Acknowledges(w: World, step: Step, r: Request) {
    && Enabled(w, step) && step.Finishes? && w.stores[step.i].stage.Finishing? && w.stores[step.i].stage.request == r
    && r.operation == Write && Answered(w, step) == Some(Answer(Write, r.key, Ok([])))
  }

  /** The step saves this request. */
  predicate SavesRequest(w: World, step: Step, r: Request) {
    Saves(w, step, r.key) && w.stores[step.i].stage.request == r
  }

  lemma SucceededStep(w: World, step: Step, i: nat, r: Request)
    requires Enabled(w, step) && i < |w.stores| && r.operation == Write
    requires Next(w, step).stores[i].stage == Finishing(r, Ok([]))
    ensures w.stores[i].stage == Finishing(r, Ok([])) || (step.i == i && SavesRequest(w, step, r))
  {
  }

  /** Success is told only after the request was saved, by the same store. */
  lemma {:induction false} SuccessWasSaved(worlds: seq<World>, steps: seq<Step>, k: nat, i: nat, r: Request)
    returns (a: nat)
    requires Run(worlds, steps) && k <= |steps| && i < |worlds[k].stores|
    requires r.operation == Write && worlds[k].stores[i].stage == Finishing(r, Ok([]))
    ensures a < k && SavesRequest(worlds[a], steps[a], r) && steps[a].i == i
    ensures forall n | a < n <= k :: i < |worlds[n].stores| && worlds[n].stores[i].stage == Finishing(r, Ok([]))
  {
    a := 0;
    if k > 0 {
      assert Stepped(worlds, steps, k - 1);
      SucceededStep(worlds[k - 1], steps[k - 1], i, r);
      if worlds[k - 1].stores[i].stage == Finishing(r, Ok([])) {
        a := SuccessWasSaved(worlds, steps, k - 1, i, r);
      } else {
        a := k - 1;
      }
    }
  }

  /** The record was last written with these data under this token. */
  predicate StillHolds(w: World, step: Step, r: Request) {
    Saves(w, step, r.key) && w.stores[step.i].stage.request.token == r.token
      && w.stores[step.i].stage.request.data == r.data
  }

  /** In every run: an acknowledged write has saved its data, and a later read under the same
      token gives them back exactly when they are not empty and the last step that wrote
      the record, the erasing half of a removal included, left these data in it. */
  lemma AcknowledgedWriteReadsBackIff(worlds: seq<World>, steps: seq<Step>, told: nat, w: Request, c: nat, b: nat,
                                      j: nat, r: Request)
    returns (a: nat)
    requires Run(worlds, steps) && told < c && ReadsBetween(worlds, steps, c, b, j, r)
    requires Acknowledges(worlds[told], steps[told], w) && r.key == w.key && r.token == w.token
    ensures a < told && SavesRequest(worlds[a], steps[a], w) && Touched(worlds, steps, a, w.key)
    ensures var l := LastTouch(worlds, steps, a, c, w.key);
            Answered(worlds[b], steps[b]) == Some(Answer(Read, w.key, Ok(w.data)))
            <==> w.data != [] && StillHolds(worlds[l], steps[l], w)
  {
    a := SuccessWasSaved(worlds, steps, told, steps[told].i, w);
    ReadsTheLastTouch(worlds, steps, a, c, b, j, r);
  }

  // ---------------------------------------------------------------- what a caller can see

  /** Some store is between the two halves of a removal of `key`. */
  ghost predicate Removing(w: World, key: string) {
    exists i :: 0 <= i < |w.stores| && RemovesNow(w.stores[i], key)
  }

  predicate RemovesNow(s: Store, key: string) {
    s.removing.Some? && s.removing.value.key == key
  }

  lemma RemovingStep(w: World, step: Step, key: string)
    requires Enabled(w, step) && !Removing(w, key) && !(step.AsksRemove? && step.key == key)
    ensures !Removing(Next(w, step), key) && !ErasesRecord(w, step, key)
  {
    var w' := Next(w, step);
    assert !RemovesNow(w.stores[step.i], key);
    forall i | 0 <= i < |w'.stores| ensures !RemovesNow(w'.stores[i], key) {
      assert !RemovesNow(w.stores[i], key);
    }
  }

  ghost predicate StartsRemoval(steps: seq<Step>, k: nat, key: string)
    requires k < |steps|
  {
    steps[k].AsksRemove? && steps[k].key == key
  }

  /** While a key keeps its token no removal of it begins. */
  lemma SameTokenNoRemoval(worlds: seq<World>, steps: seq<Step>, x: nat, k: nat, y: nat, key: string)
    requires Run(worlds, steps) && x <= k < y <= |steps| && TokenOf(worlds[x].disk, key) == TokenOf(worlds[y].disk, key)
    ensures !StartsRemoval(steps, k, key)
  {
    RunKeepsInv(worlds, steps, x);
    assert Stepped(worlds, steps, k);
    TokenStep(worlds[k], steps[k], key);
    TokenWasIssued(worlds[x], key);
    TokensMoveOn(worlds, steps, k + 1, y, key);
    IssuedGrows(worlds, steps, x, k);
    IssuedGrows(worlds, steps, x, k + 1);
  }

  lemma {:induction false} NobodyRemoves(worlds: seq<World>, steps: seq<Step>, a: nat, k: nat, key: string)
    requires Run(worlds, steps) && a <= k <= |steps| && !Removing(worlds[a], key)
    requires forall n | a <= n < k :: !StartsRemoval(steps, n, key)
    ensures !Removing(worlds[k], key)
    decreases k
  {
    if a < k {
      NobodyRemoves(worlds, steps, a, k - 1, key);
      assert Stepped(worlds, steps, k - 1) && !StartsRemoval(steps, k - 1, key);
      RemovingStep(worlds[k - 1], steps[k - 1], key);
    }
  }

  /** The token a store saves under was in force at that moment or before. */
  lemma SavedUnder(worlds: seq<World>, steps: seq<Step>, a: nat, r: Request) returns (x: nat)
    requires Run(worlds, steps) && a < |steps| && SavesRequest(worlds[a], steps[a], r)
    ensures x <= a && TokenOf(worlds[x].disk, r.key) == r.token
  {
    assert (r.key, r.token) in Hands(worlds[a].stores[steps[a].i]);
    x := HandsWereInForce(worlds, steps, a, steps[a].i, r.key, r.token);
  }

  lemma NothingTouches(worlds: seq<World>, steps: seq<Step>, a: nat, c: nat, y: nat, r: Request)
    requires Run(worlds, steps) && a < c <= y <= |steps| && SavesRequest(worlds[a], steps[a], r)
    requires TokenOf(worlds[y].disk, r.key) == r.token && !Removing(worlds[a], r.key)
    requires forall k | a < k < c :: !Saves(worlds[k], steps[k], r.key)
    ensures forall k | a < k < c :: !Touched(worlds, steps, k, r.key)
  {
    var x := SavedUnder(worlds, steps, a, r);
    forall n | a <= n < c ensures !StartsRemoval(steps, n, r.key) { SameTokenNoRemoval(worlds, steps, x, n, y, r.key); }
    forall k | a < k < c ensures !Touched(worlds, steps, k, r.key) {
      NobodyRemoves(worlds, steps, a, k, r.key);
      assert Stepped(worlds, steps, k) && !StartsRemoval(steps, k, r.key);
      RemovingStep(worlds[k], steps[k], r.key);
    }
  }

  /** What a caller can rely on: a write that is acknowledged, whose save met no removal of its
      key under way and was not saved over, is read back under the same token exactly when
      it is not empty. */
  lemma UndisturbedWriteReadsBackIff(worlds: seq<World>, steps: seq<Step>, told: nat, w: Request, c: nat, b: nat,
                                     j: nat, r: Request)
    returns (a: nat)
    requires Run(worlds, steps) && told < c && ReadsBetween(worlds, steps, c, b, j, r)
    requires Acknowledges(worlds[told], steps[told], w) && r.key == w.key && r.token == w.token
    ensures a < told && SavesRequest(worlds[a], steps[a], w)
    ensures !Removing(worlds[a], w.key) && (forall k | a < k < c :: !Saves(worlds[k], steps[k], w.key)) ==>
              (Answered(worlds[b], steps[b]) == Some(Answer(Read, w.key, Ok(w.data))) <==> w.data != [])
  {
    a := AcknowledgedWriteReadsBackIff(worlds, steps, told, w, c, b, j, r);
    if !Removing(worlds[a], w.key) && forall k | a < k < c :: !Saves(worlds[k], steps[k], w.key) {
      NothingTouches(worlds, steps, a, c, b, w);
      assert LastTouch(worlds, steps, a, c, w.key) == a;
    }
  }

  /** And if the record was erased last, the write is gone, although its token is in force. */
  lemma ErasedWriteIsGone(worlds: seq<World>, steps: seq<Step>, a: nat, c: nat, b: nat, j: nat, r: Request)
    requires Run(worlds, steps) && a < c && ReadsBetween(worlds, steps, c, b, j, r) && Touched(worlds, steps, a, r.key)
    requires var l := LastTouch(worlds, steps, a, c, r.key); ErasesRecord(worlds[l], steps[l], r.key)
    ensures Answered(worlds[b], steps[b]) == Some(Answer(Read, r.key, Missing))
  {
    ReadsTheLastTouch(worlds, steps, a, c, b, j, r);
  }
}
