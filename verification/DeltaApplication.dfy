/** The compacted delta of a journal, applied to a mirror, carries it from the namespace at
    one revision to the namespace at a later one. */
module DeltaApplication {
  import opened Records
  import opened Paths
  import opened NamespaceJournal
  import opened JournalPages
  import opened Trees
  import opened Replicas
  import opened Merges
  import opened Ordering
  import opened HostVersions
  import opened Deltas
  import opened Layouts
  import opened TreeApplication
  import opened ConflictNames

  /** The namespace a log describes. */
  function NamespaceOf(log: Log): Namespace {
    map p | p in Snapshot(log) :: Project(Snapshot(log)[p])
  }

  function Projected(rows: seq<Revision>): seq<Entry> {
    seq(|rows|, i requires 0 <= i < |rows| => Project(rows[i]))
  }

  lemma TwiceThere<T>(s: seq<T>, i: nat, j: nat)
    requires i < j < |s| && s[i] == s[j]
    ensures multiset(s)[s[i]] >= 2
  {
    assert s == s[..j] + s[j..];
    assert s[..j][i] == s[i] && s[j..][0] == s[j];
  }

  lemma OnceThere<T>(s: seq<T>, k: nat)
    requires k < |s| && forall i | 0 <= i < |s| && i != k :: s[i] != s[k]
    ensures multiset(s)[s[k]] == 1
  {
    assert s == s[..k] + [s[k]] + s[k + 1..];
    assert s[k] !in s[..k] && s[k] !in s[k + 1..];
  }

  /** A rearranged delta still names each path once. */
  lemma RearrangedOnce(rows: seq<Revision>, delta: seq<Entry>)
    requires NamedOnce(rows) && multiset(delta) == multiset(Projected(rows))
    ensures Once(delta)
  {
    forall i, j | 0 <= i < j < |delta| ensures delta[i].content.path != delta[j].content.path {
      var k := IsARow(rows, delta, i);
      var l := IsARow(rows, delta, j);
      if delta[i].content.path == delta[j].content.path {
        assert rows[k].Path() == rows[l].Path() && k == l;
        TwiceThere(delta, i, j);
        forall n | 0 <= n < |rows| && n != k ensures Projected(rows)[n] != Projected(rows)[k] {
          assert rows[n].Path() != rows[k].Path();
        }
        OnceThere(Projected(rows), k);
      }
    }
  }

  lemma IsARow(rows: seq<Revision>, delta: seq<Entry>, i: nat) returns (k: nat)
    requires multiset(delta) == multiset(Projected(rows)) && i < |delta|
    ensures k < |rows| && delta[i] == Project(rows[k])
  {
    assert delta[i] in multiset(delta);
    assert delta[i] in Projected(rows);
    k :| 0 <= k < |rows| && Projected(rows)[k] == delta[i];
  }

  lemma {:induction false} OverlayNamed(m: map<Path, Revision>, rows: seq<Revision>, k: nat)
    requires NamedOnce(rows) && k < |rows|
    ensures rows[k].Path() in Overlay(m, rows) && Overlay(m, rows)[rows[k].Path()] == rows[k]
    decreases |rows|
  {
    if k == 0 {
      OverlayLookup(m[rows[0].Path() := rows[0]], rows[1..], rows[0].Path());
    } else {
      OverlayNamed(m[rows[0].Path() := rows[0]], rows[1..], k - 1);
    }
  }

  /** Where the rearranged delta leaves one path. */
  lemma ThroughAt(m: map<Path, Revision>, rows: seq<Revision>, delta: seq<Entry>, p: Path)
    requires NamedOnce(rows) && Once(delta) && multiset(delta) == multiset(Projected(rows))
    ensures var n := Through(map q | q in m :: Project(m[q]), delta);
            && (p in n <==> p in Overlay(m, rows)) && (p in n ==> n[p] == Project(Overlay(m, rows)[p]))
  {
    var i := MixedAt(map q | q in m :: Project(m[q]), delta, 0, p);
    OverlayLookup(m, rows, p);
    if i >= 0 {
      var k := IsARow(rows, delta, i);
      OverlayNamed(m, rows, k);
    } else {
      forall e | e in rows ensures e.Path() != p {
        var k :| 0 <= k < |rows| && rows[k] == e;
        assert Projected(rows)[k] in multiset(delta);
        assert Project(e) in delta;
      }
    }
  }

  /** However the delta of `(after, through]` is rearranged, overlaying it on the namespace
      at `after` gives the namespace at `through`. */
  lemma DeltaLeadsThrough(log: Log, after: nat, through: nat, delta: seq<Entry>)
    requires after <= through <= |log|
    requires multiset(delta) == multiset(Projected(Select(log, false, after, through)))
    ensures Once(delta)
    ensures Through(NamespaceOf(log[..after]), delta) == NamespaceOf(log[..through])
  {
    var rows := Select(log, false, after, through);
    SelectNamesOnce(log, after, through);
    RearrangedOnce(rows, delta);
    DeltaEqualsReplay(log, after, through);
    forall p { ThroughAt(Snapshot(log[..after]), rows, delta, p); }
  }

  lemma {:induction false} SelectIsInLog(log: Log, after: nat, through: nat, k: nat)
    requires after <= through <= |log| && k < |Select(log, false, after, through)|
    ensures Select(log, false, after, through)[k] in log
  {
    var i := SelectedRows(log, false, after, through, k);
  }

  /** Every entry of the delta is one the mirror's journal vouches for. */
  lemma DeltaIsFromHost(s: Replica, peer: string, log: Log, after: nat, through: nat, delta: seq<Entry>, i: nat)
    requires s.host == Some(peer) && WellFormed(s.log, s.ledger) && log <= s.log && after <= through <= |log|
    requires multiset(delta) == multiset(Projected(Select(log, false, after, through))) && i < |delta|
    ensures FromHost(s, peer, delta[i]) && s.ledger.physical(delta[i].content.path)
  {
    var rows := Select(log, false, after, through);
    var k := IsARow(rows, delta, i);
    SelectIsInLog(log, after, through, k);
    var n :| 0 <= n < |log| && log[n] == rows[k];
    assert s.log[n] == rows[k] && rows[k] in s.log;
    WellFormedAt(s.log, n, s.ledger);
  }

  /** A full mirror with no edits of its own, whose rows and tree are the authority's namespace
      at `after` and which has imported the journal up to `through`, about to pull the
      compacted delta between them in any arrangement that keeps the structure, such as the
      order of the round or its re-sorting by priority.  The namespace at `through` is a tree. */
  ghost predicate Synchronizes(env: Env, s: Replica, peer: string, after: nat, through: nat, delta: seq<Entry>,
                               payload: Entry -> Bytes)
  {
    && s.host == Some(peer) && after <= through <= |s.log|
    && Holding(s, Unedited(NamespaceOf(s.log[..after]))) && IsTree(NamespaceOf(s.log[..through]))
    && multiset(delta) == multiset(Projected(Select(s.log, false, after, through))) && Arranged(delta)
    && (forall p | s.ledger.physical(p) :: '/' in p)
    && s.sequence + 2 * |delta| <= MAX_COUNTER
    && (forall e | e in delta :: Sendable(s, peer, e, payload(e)))
  }

  lemma SynchronizesPulls(env: Env, s: Replica, peer: string, after: nat, through: nat, delta: seq<Entry>,
                          payload: Entry -> Bytes)
    requires Synchronizes(env, s, peer, after, through, delta, payload)
    ensures AboutToPull(env, s, NamespaceOf(s.log[..after]), peer, delta, payload)
    ensures Through(NamespaceOf(s.log[..after]), delta) == NamespaceOf(s.log[..through])
  {
    DeltaLeadsThrough(s.log, after, through, delta);
    forall i | 0 <= i < |delta| ensures FromHost(s, peer, delta[i]) && s.ledger.physical(delta[i].content.path) {
      DeltaIsFromHost(s, peer, s.log, after, through, delta, i);
    }
  }

  /** From tree to tree, whatever names the delta contains: the pull completes exactly when no
      entry is refused by what the mirror has at that moment, and the mirror then has what
      the delta makes of its namespace.  It agrees with the host at an entry's path exactly
      when no newer copy overruled the entry and none was put there later, and at any other
      path exactly when no copy was put there. */
  lemma TreeToTree(env: Env, s: Replica, peer: string, after: nat, through: nat, delta: seq<Entry>,
                   payload: Entry -> Bytes)
    requires Synchronizes(env, s, peer, after, through, delta, payload)
    ensures var end, m := PullAll(env, s, peer, delta, payload, |delta|), NamespaceOf(s.log[..after]);
            var l, n := After(env, m, delta, |delta|), NamespaceOf(s.log[..through]);
            && (end.reply == Complete <==> NoneStopped(env, s.ledger.physical, m, delta, |delta|))
            && (end.reply == Complete ==> Holding(end.state, l))
            && (forall k | 0 <= k < |delta| :: Agrees(l, n, delta[k].content.path) <==> TakenOver(env, m, delta, k))
            && (forall p | Unnamed(delta, p) :: Agrees(l, n, p) <==> NothingCopiedTo(env, m, delta, p))
  {
    var m := NamespaceOf(s.log[..after]);
    SynchronizesPulls(env, s, peer, after, through, delta, payload);
    DeltaIsAppliedIff(env, s, m, peer, delta, payload);
    forall k | 0 <= k < |delta|
      ensures Agrees(After(env, m, delta, |delta|), Through(m, delta), delta[k].content.path)
              <==> TakenOver(env, m, delta, k)
    {
      NamedAgreesIff(env, m, delta, k);
    }
    forall p | Unnamed(delta, p)
      ensures Agrees(After(env, m, delta, |delta|), Through(m, delta), p) <==> NothingCopiedTo(env, m, delta, p)
    {
      UnnamedAgreesIff(env, m, delta, p);
    }
  }

  ghost predicate Unnamed(delta: seq<Entry>, p: Path) {
    forall i | 0 <= i < |delta| :: delta[i].content.path != p
  }

  ghost predicate NothingCopiedTo(env: Env, m: Namespace, delta: seq<Entry>, p: Path) {
    forall i | 0 <= i < |delta| :: !CopiesTo(env, m, delta, i, p)
  }

  /** The same for deltas that keep the names of copies apart, told by the delta and the two
      namespaces alone: the pull completes exactly when no deletion lies below a file that
      stays in its way and every copy's name serves, and it then ends in agreement at an
      entry's path exactly when no folder leaves a copy there whose clock is ahead. */
  lemma PlainTreeToTree(env: Env, s: Replica, peer: string, after: nat, through: nat, delta: seq<Entry>,
                        payload: Entry -> Bytes)
    requires Synchronizes(env, s, peer, after, through, delta, payload)
    requires NamesApart(env, NamespaceOf(s.log[..after]), delta)
    ensures var end, m := PullAll(env, s, peer, delta, payload, |delta|), NamespaceOf(s.log[..after]);
            var l, n := After(env, m, delta, |delta|), NamespaceOf(s.log[..through]);
            && (end.reply == Complete
                <==> forall k | 0 <= k < |delta| :: !StopsPlainly(env, s.ledger.physical, m, delta, k))
            && (end.reply == Complete ==> && Holding(end.state, l) && AgreesPlainly(env, l, m, n, delta))
  {
    var m := NamespaceOf(s.log[..after]);
    SynchronizesPulls(env, s, peer, after, through, delta, payload);
    DeltaIsAppliedIff(env, s, m, peer, delta, payload);
    forall k | 0 <= k < |delta|
      ensures Stopped(env, s.ledger.physical, m, delta, k) <==> StopsPlainly(env, s.ledger.physical, m, delta, k)
    {
      StoppedIff(env, s.ledger.physical, m, delta, k);
    }
    if NoneStopped(env, s.ledger.physical, m, delta, |delta|) {
      EndsInAgreement(env, s.ledger.physical, m, delta);
    }
  }

  /** Where the mirror ends in agreement. */
  ghost predicate AgreesPlainly(env: Env, l: Layout, m: Namespace, n: Namespace, delta: seq<Entry>) {
    && (forall k | 0 <= k < |delta| :: Agrees(l, n, delta[k].content.path) <==> NotOverruled(env, m, delta, k))
    && (forall p | Unnamed(delta, p) :: Agrees(l, n, p) <==> !KeepsCopyAt(env, m, delta, p))
  }

  lemma EndsInAgreement(env: Env, physical: Path -> bool, m: Namespace, delta: seq<Entry>)
    requires Leads(m, delta) && NamesApart(env, m, delta) && NoneStopped(env, physical, m, delta, |delta|)
    ensures AgreesPlainly(env, After(env, m, delta, |delta|), m, Through(m, delta), delta)
  {
    forall k | 0 <= k < |delta|
      ensures Agrees(After(env, m, delta, |delta|), Through(m, delta), delta[k].content.path)
              <==> NotOverruled(env, m, delta, k)
    {
      NamedAgreesPlainly(env, physical, m, delta, k);
    }
    forall p | Unnamed(delta, p)
      ensures Agrees(After(env, m, delta, |delta|), Through(m, delta), p) <==> !KeepsCopyAt(env, m, delta, p)
    {
      UnnamedAgreesPlainly(env, m, delta, p);
    }
  }
}
