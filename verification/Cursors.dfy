/** A synchronization round as a state machine: what the saved cursors promise over all
    runs, with stops, restarts, restored hosts, refreshes in the middle of a transfer and
    early pushes, although both directions share the fields `entries` and `through`. */
module Cursors {
  import opened Records

  /** An entry of a round: a change of the host, or a local proposal. */
  datatype Item = Change(position: nat) | Proposal(path: Path, version: Version, sequence: nat)

  datatype LocalRow = LocalRow(version: Version, sequence: nat, pending: bool)

  datatype Mode =
    | Idle
    | Describing
    | Paging(after: nat, upper: nat)
    | Importing
    | Announcing(push: bool)
    | Pulling
    | Pushing

  datatype Round = Round(mode: Mode, entries: seq<Item>, index: nat, pulled: nat, pushed: nat, through: nat,
                         outgoing: seq<Item>, pushThrough: nat, early: bool, acknowledged: bool)

  /** `host` lists the paths of the changes of the host replica the mirror is bound to;
      `moved` says that this host has meanwhile been restored as another replica;
      `merged` and `completed` record what was merged here and completed there since the
      binding; the rest is the mirror's database and the round in memory. */
  datatype State = State(host: seq<Path>, moved: bool, completed: set<(Path, Version)>,
                         rows: map<Path, LocalRow>, sequence: nat, merged: set<nat>,
                         savedPulled: nat, savedPushed: nat, bootstrapping: bool, round: Round)

  datatype Effect = TakesHost(version: Version) | KeepsEdit | ProposesFolder(version: Version)

  datatype Step =
    | HostCommits(path: Path)
    | HostRestored
    | Edited(path: Path, version: Version)     // a scan or a look finds new contents
    | Begin
    | Stop
    | Described(restored: seq<Path>)
    | PageArrived(next: nat)
    | Imported
    | Announced(ordered: seq<Item>)
    | Copied(path: Path, version: Version)     // a merge saves a conflict copy
    | Merged(effect: Effect)
    | PullEnds
    | EarlyPush(items: seq<Item>)
    | Completed
    | Acknowledged
    | PushEnds
    | Refreshed

  const NO_ROUND: Round := Round(Idle, [], 0, 0, 0, 0, [], 0, false, false)

  // ---------------------------------------------------------------- what a step does

  predicate NewestUpTo(host: seq<Path>, i: nat, upper: nat) {
    i < upper <= |host| && forall j | i < j < upper :: host[j] != host[i]
  }

  /** The changes in `(after, next]` that are their path's newest up to `upper`. */
  function ChangesIn(host: seq<Path>, after: nat, next: nat, upper: nat): seq<Item>
    decreases next - after
  {
    if after >= next then []
    else (if NewestUpTo(host, after, upper) then [Change(after)] else []) + ChangesIn(host, after + 1, next, upper)
  }

  function Limit(s: State): nat {
    if s.round.mode.Paging? && s.round.mode.upper > 0 then s.round.mode.upper else |s.host|
  }

  ghost predicate ListsPending(s: State, items: seq<Item>) {
    && (forall x | x in items :: x.Proposal? && x.path in s.rows
                                 && s.rows[x.path] == LocalRow(x.version, x.sequence, true)
                                 && s.round.pushed < x.sequence <= s.sequence)
    && (forall p | p in s.rows && s.rows[p].pending && s.round.pushed < s.rows[p].sequence <= s.sequence ::
          Proposal(p, s.rows[p].version, s.rows[p].sequence) in items)
  }

  /** Saving a version keeps the row's sequence when the version stands. */
  function SavedRow(s: State, path: Path, version: Version, pending: bool): LocalRow {
    if path in s.rows && s.rows[path].version == version then LocalRow(version, s.rows[path].sequence, pending)
    else LocalRow(version, s.sequence + 1, pending)
  }

  function WithRow(s: State, path: Path, row: LocalRow): State {
    s.(rows := s.rows[path := row], sequence := if row.sequence > s.sequence then row.sequence else s.sequence)
  }

  function Affected(s: State, path: Path, effect: Effect): State {
    match effect
    case TakesHost(version) => WithRow(s, path, SavedRow(s, path, version, false))
    case KeepsEdit => s
    case ProposesFolder(version) => WithRow(s, path, SavedRow(s, path, version, true))
  }

  function Max(a: nat, b: nat): nat {
    if a > b then a else b
  }

  /** Cursors only ever grow in the database. */
  function Saved(s: State): State {
    s.(savedPulled := Max(s.savedPulled, s.round.pulled), savedPushed := Max(s.savedPushed, s.round.pushed))
  }

  function Restarted(r: Round): Round {
    r.(mode := Paging(r.pulled, 0), entries := [], index := 0)
  }

  /** The path of the entry a pull has come to. */
  function PathOf(s: State): Path
    requires s.round.index < |s.round.entries| && s.round.entries[s.round.index].Change?
    requires s.round.entries[s.round.index].position < |s.host|
  {
    s.host[s.round.entries[s.round.index].position]
  }

  ghost predicate Enabled(s: State, step: Step) {
    var r := s.round;
    match step
    case HostCommits(_) => !s.moved
    case HostRestored => true
    case Edited(path, version) => path in s.rows ==> version != s.rows[path].version
    case Begin => r.mode == Idle
    case Stop => r.mode != Idle
    case Described(_) => r.mode == Describing
    case PageArrived(next) =>
      r.mode.Paging? && !s.moved && r.mode.after <= next <= Limit(s) && (next < Limit(s) ==> next > r.mode.after)
    case Imported => r.mode == Importing
    case Announced(ordered) =>
      r.mode.Announcing? && multiset(ordered) == multiset(if r.mode.push then r.outgoing else r.entries)
    case Merged(effect) =>
      r.mode == Pulling && r.index < |r.entries| && r.entries[r.index].Change? && r.entries[r.index].position < |s.host|
                           && (effect.KeepsEdit? ==> PathOf(s) in s.rows && s.rows[PathOf(s)].pending)
    case Copied(_, _) => r.mode == Pulling
    case PullEnds => r.mode == Pulling && r.index >= |r.entries|
    case EarlyPush(items) => r.mode == Pulling && !s.bootstrapping && forall x | x in items :: x in r.outgoing
    case Completed => r.mode == Pushing && r.index < |r.entries| && r.entries[r.index].Proposal?
    case Acknowledged => r.mode == Pushing && r.index >= |r.entries|
    case PushEnds => r.mode == Pushing && r.index >= |r.entries| && (r.early || r.acknowledged)
    case Refreshed => r.mode == Pulling || r.mode == Pushing
  }

  /** Announcing lists the local proposals after the push cursor, unless the mirror is
      still being filled for the first time. */
  ghost predicate Announces(s: State, s': State, push: bool) {
    && s' == s.(round := s.round.(mode := Announcing(push), outgoing := s'.round.outgoing,
                                  pushThrough := s'.round.pushThrough))
    && (if s.bootstrapping then s'.round.outgoing == [] && s'.round.pushThrough == s.round.pushed
        else ListsPending(s, s'.round.outgoing) && s'.round.pushThrough == s.sequence)
  }

  function AfterPull(s: State): State {
    var pulled := s.round.(pulled := s.round.through);
    Saved(s.(round := pulled)).(round := pulled.(entries := [], index := 0))
  }

  function AfterPush(s: State): State {
    var r := s.round;
    if r.early then s.(round := Restarted(r).(early := false))
    else
      var pushed := Saved(s.(round := r.(pushed := r.through)));
      pushed.(round := if r.entries != [] then Restarted(pushed.round) else NO_ROUND)
  }

  ghost predicate Next(s: State, step: Step, s': State)
    requires Enabled(s, step)
  {
    var r := s.round;
    match step
    case HostCommits(path) => s' == s.(host := s.host + [path])
    case HostRestored => s' == s.(moved := true)
    case Edited(path, version) => s' == WithRow(s, path, SavedRow(s, path, version, true))
    case Begin => s' == s.(round := NO_ROUND.(mode := Describing))
    case Stop => s' == s.(round := NO_ROUND)
    case Described(restored) =>
      var bound := if s.moved then s.(host := restored, moved := false, merged := {}, completed := {}, savedPulled := 0,
                                      savedPushed := 0) else s;
      s' == bound.(round := Restarted(r.(pulled := bound.savedPulled, pushed := bound.savedPushed, early := false)))
    case PageArrived(next) =>
      var limit := Limit(s);
      s' == Saved(s).(round := r.(entries := r.entries + ChangesIn(s.host, r.mode.after, next, limit), through := limit,
                                  mode := if next < limit then Paging(next, limit) else Importing))
    case Imported => Announces(s, s', false)
    case Announced(ordered) =>
      s' == s.(round := if r.mode.push
               then r.(mode := Pushing, entries := ordered, through := r.pushThrough, index := 0)
                        else r.(mode := Pulling, entries := ordered, index := 0))
    case Merged(effect) =>
      var i := r.entries[r.index].position;
      s' == Affected(s, PathOf(s), effect).(merged := s.merged + {i}, round := r.(index := r.index + 1))
    case Copied(path, version) => s' == WithRow(s, path, SavedRow(s, path, version, true))
    case PullEnds =>
      var done := AfterPull(s);
      if s.bootstrapping && !(r.through == r.pulled && r.entries == []) then s' == done.(round := Restarted(done.round))
      else Announces(done.(bootstrapping := false), s', true)
    case EarlyPush(items) => s' == s.(round := r.(mode := Pushing, entries := items, index := 0, early := true))
    case Completed =>
      var x := r.entries[r.index];
      s' == s.(completed := s.completed + {(x.path, x.version)}, round := r.(index := r.index + 1))
    case Acknowledged => s' == s.(round := r.(acknowledged := true))
    case PushEnds => s' == AfterPush(s)
    case Refreshed => s' == s.(round := Restarted(r).(outgoing := [], early := false))
  }

  // ---------------------------------------------------------------- what is promised

  /** Of every path, the newest change up to `cursor` has been merged. */
  ghost predicate PullSafe(s: State, cursor: nat) {
    cursor <= |s.host| && forall i: nat | NewestUpTo(s.host, i, cursor) :: i in s.merged
  }

  /** Every local proposal up to `cursor` has been completed by the host. */
  ghost predicate PushSafe(s: State, cursor: nat) {
    cursor <= s.sequence && forall p | p in s.rows && s.rows[p].pending && s.rows[p].sequence <= cursor ::
      (p, s.rows[p].version) in s.completed
  }

  /** The entries hold every path's newest change from the pull cursor to `next`. */
  ghost predicate Gathered(s: State, next: nat, upper: nat) {
    && s.round.pulled <= next <= upper <= |s.host|
    && (forall i | s.round.pulled <= i < next && NewestUpTo(s.host, i, upper) :: Change(i) in s.round.entries)
    && (forall x | x in s.round.entries :: x.Change? && x.position < |s.host|)
  }

  /** The items hold every local proposal from the push cursor to `upper`. */
  ghost predicate Covers(s: State, items: seq<Item>, upper: nat) {
    && s.round.pushed <= upper <= s.sequence
    && (forall p | p in s.rows && s.rows[p].pending && s.round.pushed < s.rows[p].sequence <= upper ::
          Proposal(p, s.rows[p].version, s.rows[p].sequence) in items)
  }

  ghost predicate RoundOk(s: State) {
    var r := s.round;
    && (r.mode != Idle && r.mode != Describing ==> r.pulled == s.savedPulled && r.pushed == s.savedPushed)
    && (forall x | x in r.outgoing :: x.Proposal?)
    && match r.mode
       case Idle => true
       case Describing => true
       case Paging(after, upper) =>
         !r.early && (if upper == 0 then r.entries == [] && after == r.pulled else Gathered(s, after, upper))
       case Importing => !r.early && Gathered(s, r.through, r.through)
       case Announcing(push) =>
         !r.early && (if push then Covers(s, r.outgoing, r.pushThrough) else Gathered(s, r.through, r.through))
       case Pulling =>
         !r.early && Gathered(s, r.through, r.through) && r.index <= |r.entries|
         && (forall k | 0 <= k < r.index :: r.entries[k].position in s.merged)
       case Pushing =>
         (forall x | x in r.entries :: x.Proposal?)
         && (!r.early ==> Covers(s, r.entries, r.through) && r.index <= |r.entries|
                          && forall k | 0 <= k < r.index :: (r.entries[k].path, r.entries[k].version) in s.completed)
  }

  /** What holds whatever is proposed again. */
  ghost predicate Sound(s: State) {
    && PullSafe(s, s.savedPulled) && s.savedPushed <= s.sequence
    && (forall p | p in s.rows :: 0 < s.rows[p].sequence <= s.sequence)
    && RoundOk(s)
  }

  ghost predicate Inv(s: State) {
    Sound(s) && PushSafe(s, s.savedPushed)
  }

  /** A confirmed row at or before the push cursor becomes a proposal under the version it
      has, which the host has not completed: it keeps its sequence, and no push lists it. */
  predicate Reproposed(s: State, path: Path, version: Version) {
    && path in s.rows && !s.rows[path].pending && s.rows[path].version == version
    && s.rows[path].sequence <= s.savedPushed && (path, version) !in s.completed
  }

  /** The steps on which a proposal slips behind the push cursor. */
  ghost predicate Slips(s: State, step: Step)
    requires Enabled(s, step)
  {
    match step
    case Copied(path, version) => Reproposed(s, path, version)
    case Merged(effect) => effect.ProposesFolder? && Reproposed(s, PathOf(s), effect.version)
    case _ => false
  }

  // ---------------------------------------------------------------- every step keeps it

  lemma {:induction false} ChangesInAll(host: seq<Path>, after: nat, next: nat, upper: nat)
    requires next <= upper <= |host|
    ensures forall i | after <= i < next && NewestUpTo(host, i, upper) ::
              Change(i) in ChangesIn(host, after, next, upper)
    ensures forall x | x in ChangesIn(host, after, next, upper) :: x.Change? && x.position < |host|
    decreases next - after
  {
    if after < next { ChangesInAll(host, after + 1, next, upper); }
  }

  lemma GrownHost(s: State, path: Path, i: nat, upper: nat)
    requires upper <= |s.host|
    ensures NewestUpTo(s.host + [path], i, upper) <==> NewestUpTo(s.host, i, upper)
  {
    if i < upper {
      assert forall j | i <= j < upper :: (s.host + [path])[j] == s.host[j];
    }
  }

  lemma HostCommitsKeeps(s: State, path: Path)
    requires Sound(s)
    ensures Sound(s.(host := s.host + [path]))
  {
    var s' := s.(host := s.host + [path]);
    forall i: nat, upper: nat | upper <= |s.host|
      ensures NewestUpTo(s'.host, i, upper) <==> NewestUpTo(s.host, i, upper)
    {
      GrownHost(s, path, i, upper);
    }
  }

  /** Outside a pull a row gets a new sequence; during one nothing is collected yet. */
  predicate RowFits(s: State, row: LocalRow) {
    0 < row.sequence <= s.sequence + 1 && (row.sequence > s.sequence || s.round.mode == Pulling)
  }

  lemma RowKeepsSound(s: State, path: Path, row: LocalRow)
    requires Sound(s) && RowFits(s, row)
    ensures Sound(WithRow(s, path, row))
  {
    var s' := WithRow(s, path, row);
    assert forall i, upper :: NewestUpTo(s'.host, i, upper) == NewestUpTo(s.host, i, upper);
  }

  /** Saving a proposal keeps the push cursor safe exactly when it does not slip. */
  lemma ProposalKeepsPushIff(s: State, path: Path, version: Version)
    requires Inv(s)
    ensures PushSafe(WithRow(s, path, SavedRow(s, path, version, true)), s.savedPushed) <==>
              !Reproposed(s, path, version)
  {
    var row := SavedRow(s, path, version, true);
    var s' := WithRow(s, path, row);
    if Reproposed(s, path, version) { assert s'.rows[path] == row; }
  }

  lemma ConfirmationKeepsPush(s: State, path: Path, version: Version)
    requires Inv(s)
    ensures PushSafe(WithRow(s, path, SavedRow(s, path, version, false)), s.savedPushed)
  {
  }

  lemma EffectKeepsSound(s: State, path: Path, effect: Effect)
    requires Sound(s) && s.round.mode == Pulling
    ensures Sound(Affected(s, path, effect))
    ensures var s' := Affected(s, path, effect); s' == s.(rows := s'.rows, sequence := s'.sequence)
  {
    match effect
    case TakesHost(version) => RowKeepsSound(s, path, SavedRow(s, path, version, false));
    case KeepsEdit =>
    case ProposesFolder(version) => RowKeepsSound(s, path, SavedRow(s, path, version, true));
  }

  lemma MergedKeeps(s: State)
    requires Sound(s) && s.round.mode == Pulling && s.round.index < |s.round.entries|
    requires s.round.entries[s.round.index].Change?
    ensures Sound(s.(merged := s.merged + {s.round.entries[s.round.index].position},
                     round := s.round.(index := s.round.index + 1)))
  {
  }

  lemma PageKeeps(s: State, next: nat, s': State)
    requires Sound(s) && Enabled(s, PageArrived(next)) && Next(s, PageArrived(next), s')
    ensures Sound(s')
  {
    var limit := Limit(s);
    ChangesInAll(s.host, s.round.mode.after, next, limit);
    var extra := ChangesIn(s.host, s.round.mode.after, next, limit);
    assert Saved(s) == s;
    assert s'.round.entries == s.round.entries + extra;
    forall i | s.round.pulled <= i < next && NewestUpTo(s.host, i, limit) ensures Change(i) in s'.round.entries { }
    forall x | x in s'.round.entries ensures x in s.round.entries || x in extra { }
  }

  lemma Reordered(a: seq<Item>, b: seq<Item>)
    requires multiset(a) == multiset(b)
    ensures forall x :: x in a <==> x in b
  {
    forall x ensures x in a <==> x in b {
      assert x in a <==> x in multiset(a);
      assert x in b <==> x in multiset(b);
    }
  }

  lemma PullEndIsSafe(s: State)
    requires Sound(s) && s.round.mode == Pulling && s.round.index >= |s.round.entries|
    ensures PullSafe(s, s.round.through) && s.round.through >= s.savedPulled
  {
    var r := s.round;
    forall i: nat | NewestUpTo(s.host, i, r.through) ensures i in s.merged {
      if i < r.pulled {
        assert NewestUpTo(s.host, i, s.savedPulled);
      } else {
        assert Change(i) in r.entries;
        var k :| 0 <= k < |r.entries| && r.entries[k] == Change(i);
      }
    }
  }

  lemma PushEndMoves(s: State)
    requires Sound(s) && s.round.mode == Pushing && s.round.index >= |s.round.entries| && !s.round.early
    ensures s.savedPushed <= s.round.through <= s.sequence
    ensures PushSafe(s, s.savedPushed) ==> PushSafe(s, s.round.through)
  {
    var r := s.round;
    if PushSafe(s, s.savedPushed) {
      forall p | p in s.rows && s.rows[p].pending && s.rows[p].sequence <= r.through
        ensures (p, s.rows[p].version) in s.completed
      {
        if s.rows[p].sequence > r.pushed {
          var x := Proposal(p, s.rows[p].version, s.rows[p].sequence);
          assert x in r.entries;
          var k :| 0 <= k < |r.entries| && r.entries[k] == x;
        }
      }
    }
  }

  lemma AnnouncesKeeps(s: State, s': State, push: bool)
    requires Announces(s, s', push)
    requires PullSafe(s, s.savedPulled) && s.savedPushed <= s.sequence
    requires (forall p | p in s.rows :: 0 < s.rows[p].sequence <= s.sequence)
    requires s.round.pulled == s.savedPulled && s.round.pushed == s.savedPushed && !s.round.early
    requires push || Gathered(s, s.round.through, s.round.through)
    ensures Sound(s') && (PushSafe(s, s.savedPushed) <==> PushSafe(s', s'.savedPushed))
  {
  }

  lemma PullEndsKeeps(s: State, s': State)
    requires Sound(s) && Enabled(s, PullEnds) && Next(s, PullEnds, s')
    ensures Sound(s') && (PushSafe(s, s.savedPushed) <==> PushSafe(s', s'.savedPushed))
  {
    PullEndIsSafe(s);
    var done := AfterPull(s);
    assert done.savedPulled == s.round.through && done.savedPushed == s.savedPushed;
    if !(s.bootstrapping && !(s.round.through == s.round.pulled && s.round.entries == [])) {
      AnnouncesKeeps(done.(bootstrapping := false), s', true);
    }
  }

  lemma PushEndsKeeps(s: State)
    requires Sound(s) && Enabled(s, PushEnds)
    ensures Sound(AfterPush(s)) && (PushSafe(s, s.savedPushed) ==> PushSafe(AfterPush(s), AfterPush(s).savedPushed))
  {
    if !s.round.early { PushEndMoves(s); }
  }

  lemma DescribedKeeps(s: State, restored: seq<Path>, s': State)
    requires Sound(s) && Enabled(s, Described(restored)) && Next(s, Described(restored), s')
    ensures Sound(s') && (PushSafe(s, s.savedPushed) ==> PushSafe(s', s'.savedPushed))
  {
  }

  lemma AnnouncedKeeps(s: State, ordered: seq<Item>, s': State)
    requires Sound(s) && Enabled(s, Announced(ordered)) && Next(s, Announced(ordered), s')
    ensures Sound(s')
  {
    Reordered(ordered, if s.round.mode.push then s.round.outgoing else s.round.entries);
  }

  lemma OutsideKeeps(s: State, step: Step, s': State)
    requires Sound(s) && Enabled(s, step) && Next(s, step, s')
    requires step.HostCommits? || step.HostRestored? || step.Edited? || step.Begin? || step.Stop? || step.Described?
    ensures Sound(s')
  {
    match step
    case HostCommits(path) => HostCommitsKeeps(s, path);
    case Edited(path, version) => RowKeepsSound(s, path, SavedRow(s, path, version, true));
    case Described(restored) => DescribedKeeps(s, restored, s');
    case _ =>
  }

  lemma MergeKeeps(s: State, effect: Effect, s': State)
    requires Sound(s) && Enabled(s, Merged(effect)) && Next(s, Merged(effect), s')
    ensures Sound(s')
  {
    MergedKeeps(s);
    EffectKeepsSound(s.(merged := s'.merged, round := s'.round), PathOf(s), effect);
  }

  lemma PushingKeeps(s: State, step: Step, s': State)
    requires Sound(s) && Enabled(s, step) && Next(s, step, s')
    requires step.EarlyPush? || step.Completed? || step.Acknowledged? || step.Refreshed?
    ensures Sound(s')
  {
  }

  lemma PullingKeeps(s: State, step: Step, s': State)
    requires Sound(s) && Enabled(s, step) && Next(s, step, s')
    requires step.PageArrived? || step.Imported? || step.Announced? || step.Copied? || step.Merged? || step.PullEnds?
    ensures Sound(s')
  {
    match step
    case PageArrived(next) => PageKeeps(s, next, s');
    case Imported => AnnouncesKeeps(s, s', false);
    case Announced(ordered) => AnnouncedKeeps(s, ordered, s');
    case Copied(path, version) => RowKeepsSound(s, path, SavedRow(s, path, version, true));
    case Merged(effect) => MergeKeeps(s, effect, s');
    case PullEnds => PullEndsKeeps(s, s');
  }

  /** Every step, a slipping one too, keeps what the pull and the round promise. */
  lemma StepKeepsSound(s: State, step: Step, s': State)
    requires Sound(s) && Enabled(s, step) && Next(s, step, s')
    ensures Sound(s')
  {
    match step
    case PageArrived(_) => PullingKeeps(s, step, s');
    case Imported => PullingKeeps(s, step, s');
    case Announced(_) => PullingKeeps(s, step, s');
    case Copied(_, _) => PullingKeeps(s, step, s');
    case Merged(_) => PullingKeeps(s, step, s');
    case PullEnds => PullingKeeps(s, step, s');
    case PushEnds => PushEndsKeeps(s);
    case EarlyPush(_) => PushingKeeps(s, step, s');
    case Completed => PushingKeeps(s, step, s');
    case Acknowledged => PushingKeeps(s, step, s');
    case Refreshed => PushingKeeps(s, step, s');
    case _ => OutsideKeeps(s, step, s');
  }

  lemma SavingKeepsPushIff(s: State, step: Step, s': State)
    requires Inv(s) && Enabled(s, step) && Next(s, step, s') && (step.Edited? || step.Copied? || step.Merged?)
    ensures PushSafe(s', s'.savedPushed) <==> !Slips(s, step)
  {
    match step
    case Edited(path, version) => ProposalKeepsPushIff(s, path, version);
    case Copied(path, version) => ProposalKeepsPushIff(s, path, version);
    case Merged(effect) =>
      match effect {
        case TakesHost(version) => ConfirmationKeepsPush(s, PathOf(s), version);
        case KeepsEdit =>
        case ProposesFolder(version) => ProposalKeepsPushIff(s, PathOf(s), version);
      }
  }

  lemma OtherStepsKeepPush(s: State, step: Step, s': State)
    requires Inv(s) && Enabled(s, step) && Next(s, step, s') && !step.Edited? && !step.Copied? && !step.Merged?
    ensures PushSafe(s', s'.savedPushed)
  {
    match step
    case Imported => AnnouncesKeeps(s, s', false);
    case PullEnds => PullEndsKeeps(s, s');
    case PushEnds => PushEndsKeeps(s);
    case Described(restored) => DescribedKeeps(s, restored, s');
    case _ =>
  }

  /** From a state in which the promises hold they hold on after a step exactly when it does
      not slip. */
  lemma StepKeepsInvIff(s: State, step: Step, s': State)
    requires Inv(s) && Enabled(s, step) && Next(s, step, s')
    ensures Sound(s') && (Inv(s') <==> !Slips(s, step))
  {
    StepKeepsSound(s, step, s');
    if step.Edited? || step.Copied? || step.Merged? {
      SavingKeepsPushIff(s, step, s');
    } else {
      OtherStepsKeepPush(s, step, s');
    }
  }

  // ---------------------------------------------------------------- runs

  /** A mirror that has just been bound. */
  ghost predicate Initial(s: State) {
    && s.completed == {} && s.merged == {} && s.savedPulled == s.savedPushed == 0 && s.round == NO_ROUND
    && forall p | p in s.rows :: 0 < s.rows[p].sequence <= s.sequence
  }

  ghost predicate Run(states: seq<State>, steps: seq<Step>) {
    && |states| == |steps| + 1 && Initial(states[0])
    && forall k | 0 <= k < |steps| :: Stepped(states[k], steps[k], states[k + 1])
  }

  ghost predicate Stepped(s: State, step: Step, s': State) {
    Enabled(s, step) && Next(s, step, s')
  }

  lemma {:induction false} RunKeepsSound(states: seq<State>, steps: seq<Step>, k: nat)
    requires Run(states, steps) && k <= |steps|
    ensures Sound(states[k])
  {
    if k > 0 {
      RunKeepsSound(states, steps, k - 1);
      StepKeepsSound(states[k - 1], steps[k - 1], states[k]);
    }
  }

  /** No step before the `k`-th slips. */
  ghost predicate NoneSlips(states: seq<State>, steps: seq<Step>, k: nat)
    requires Run(states, steps) && k <= |steps|
  {
    forall i | 0 <= i < k :: !SlipsAt(states, steps, i)
  }

  ghost predicate SlipsAt(states: seq<State>, steps: seq<Step>, i: nat)
    requires Run(states, steps) && i < |steps|
  {
    assert Stepped(states[i], steps[i], states[i + 1]);
    Slips(states[i], steps[i])
  }

  ghost predicate AllPushSafe(states: seq<State>, k: nat)
    requires k < |states|
  {
    forall i | 0 <= i <= k :: PushSafeAt(states, i)
  }

  ghost predicate PushSafeAt(states: seq<State>, i: nat)
    requires i < |states|
  {
    PushSafe(states[i], states[i].savedPushed)
  }

  lemma {:induction false} PushIsSafeIff(states: seq<State>, steps: seq<Step>, k: nat)
    requires Run(states, steps) && k <= |steps|
    ensures AllPushSafe(states, k) <==> NoneSlips(states, steps, k)
  {
    if k == 0 {
      assert PushSafeAt(states, 0);
    } else {
      PushIsSafeIff(states, steps, k - 1);
      RunKeepsSound(states, steps, k - 1);
      assert AllPushSafe(states, k) <==> AllPushSafe(states, k - 1) && PushSafeAt(states, k);
      assert NoneSlips(states, steps, k) <==> NoneSlips(states, steps, k - 1) && !SlipsAt(states, steps, k - 1);
      if AllPushSafe(states, k - 1) {
        assert PushSafeAt(states, k - 1);
        StepKeepsInvIff(states[k - 1], steps[k - 1], states[k]);
      }
    }
  }

  predicate Rebinds(s: State, step: Step) {
    step.Described? && s.moved
  }

  lemma StepMovesForward(s: State, step: Step, s': State)
    requires Stepped(s, step, s') && !Rebinds(s, step)
    ensures s.savedPulled <= s'.savedPulled && s.savedPushed <= s'.savedPushed
  {
  }

  /** In every run, whatever is interleaved: the saved pull cursor never passes a change of
      the host that is not merged; neither cursor goes back except when the mirror binds to
      a restored host and both start over; and the saved push cursor never passes a proposal
      the host has not completed exactly when no step makes a confirmed row behind it a
      proposal again under the version it has. */
  lemma CursorsAreSafe(states: seq<State>, steps: seq<Step>, k: nat)
    requires Run(states, steps) && k <= |steps|
    ensures PullSafe(states[k], states[k].savedPulled)
    ensures AllPushSafe(states, k) <==> NoneSlips(states, steps, k)
    ensures k < |steps| ==>
              if Rebinds(states[k], steps[k]) then states[k + 1].savedPulled == states[k + 1].savedPushed == 0
              else states[k].savedPulled <= states[k + 1].savedPulled
                   && states[k].savedPushed <= states[k + 1].savedPushed
  {
    RunKeepsSound(states, steps, k);
    PushIsSafeIff(states, steps, k);
    if k < |steps| && !Rebinds(states[k], steps[k]) {
      StepMovesForward(states[k], steps[k], states[k + 1]);
    }
  }

  // ---------------------------------------------------------------- a run that slips

  const OLD_FOLDER: Version := OtherVersion("folder")

  /** A mirror with one confirmed folder. */
  const SETTLED: State := State(["files/d"], false, {}, map["files/d" := LocalRow(OLD_FOLDER, 1, false)], 1, {}, 0, 0,
                                false, NO_ROUND)

  /** A round without anything to pull or push, and then one in which the host's change of
      the folder makes the mirror propose it again. */
  const SLIP: seq<Step> := [
    Begin, Described([]), PageArrived(1), Imported, Announced([Change(0)]), Merged(TakesHost(OLD_FOLDER)), PullEnds,
    Announced([]), Acknowledged, PushEnds,
    HostCommits("files/d"), Begin, Described([]), PageArrived(2), Imported, Announced([Change(1)]),
    Merged(ProposesFolder(OLD_FOLDER))]

  /** The states of that run. */
  function SlipState(k: nat): State {
    var first := SETTLED;
    var pulled := first.(merged := {0}, savedPulled := 1);
    var pushed := pulled.(savedPushed := 1);
    var second := pushed.(host := ["files/d", "files/d"]);
    var r, q := NO_ROUND, NO_ROUND.(pulled := 1, pushed := 1);
    if k == 0 then first
    else if k == 1 then first.(round := r.(mode := Describing))
    else if k == 2 then first.(round := r.(mode := Paging(0, 0)))
    else if k == 3 then first.(round := r.(mode := Importing, entries := [Change(0)], through := 1))
    else if k == 4 then first.(round := r.(mode := Announcing(false), entries := [Change(0)], through := 1,
                                           pushThrough := 1))
    else if k == 5 then first.(round := r.(mode := Pulling, entries := [Change(0)], through := 1, pushThrough := 1))
    else if k == 6 then first.(merged := {0}, round := r.(mode := Pulling, entries := [Change(0)], index := 1,
                                                          through := 1, pushThrough := 1))
    else if k == 7 then pulled.(round := r.(mode := Announcing(true), pulled := 1, through := 1, pushThrough := 1))
    else if k == 8 then pulled.(round := r.(mode := Pushing, pulled := 1, through := 1, pushThrough := 1))
    else if k == 9 then pulled.(round := r.(mode := Pushing, pulled := 1, through := 1, pushThrough := 1,
                                            acknowledged := true))
    else if k == 10 then pushed
    else if k == 11 then second
    else if k == 12 then second.(round := r.(mode := Describing))
    else if k == 13 then second.(round := q.(mode := Paging(1, 0)))
    else if k == 14 then second.(round := q.(mode := Importing, entries := [Change(1)], through := 2))
    else if k == 15 then second.(round := q.(mode := Announcing(false), entries := [Change(1)], through := 2,
                                             pushThrough := 1))
    else if k == 16 then second.(round := q.(mode := Pulling, entries := [Change(1)], through := 2, pushThrough := 1))
    else second.(merged := {0, 1}, rows := map["files/d" := LocalRow(OLD_FOLDER, 1, true)],
                 round := q.(mode := Pulling, entries := [Change(1)], index := 1, through := 2, pushThrough := 1))
  }

  lemma SlipFirstRound(k: nat)
    requires k < 6
    ensures Stepped(SlipState(k), SLIP[k], SlipState(k + 1))
  {
    assert ChangesIn(["files/d"], 0, 1, 1) == [Change(0)];
  }

  lemma SlipFirstPush(k: nat)
    requires 6 <= k < 11
    ensures Stepped(SlipState(k), SLIP[k], SlipState(k + 1))
  {
  }

  lemma SlipSecondStart(k: nat)
    requires 11 <= k < 14
    ensures Stepped(SlipState(k), SLIP[k], SlipState(k + 1))
  {
    assert ChangesIn(["files/d", "files/d"], 1, 2, 2) == [Change(1)];
  }

  lemma SlipSecondPull(k: nat)
    requires 14 <= k < 17
    ensures Stepped(SlipState(k), SLIP[k], SlipState(k + 1))
  {
  }

  /** In this run the push cursor has passed the folder's proposal, which the host has not
      completed, and the last step is one that slips. */
  lemma CursorCanPassAProposal()
    ensures var states := seq(18, k requires 0 <= k < 18 => SlipState(k));
            && Run(states, SLIP) && SlipsAt(states, SLIP, 16)
            && !PushSafe(states[17], states[17].savedPushed)
            && states[17].rows["files/d"].pending && states[17].rows["files/d"].sequence <= states[17].savedPushed
  {
    var states := seq(18, k requires 0 <= k < 18 => SlipState(k));
    forall k | 0 <= k < 17 ensures Stepped(states[k], SLIP[k], states[k + 1]) {
      if k < 6 {
        SlipFirstRound(k);
      } else if k < 11 {
        SlipFirstPush(k);
      } else if k < 14 {
        SlipSecondStart(k);
      } else {
        SlipSecondPull(k);
      }
    }
    assert states[17].rows["files/d"].pending;
  }
}
