/** The journal a host has once it committed some records, one after the other. */
module ExampleLogs {
  import opened Records
  import opened Paths
  import opened NamespaceJournal

  const LEDGER: Ledger := Ledger("space", "host", Physical)

  function LogOf(recs: seq<Record>): Log {
    if recs == [] then []
    else Committed(LogOf(recs[..|recs| - 1]), LEDGER, recs[|recs| - 1], NoVersion, NoRevision).0
  }

  /** Valid records, no two of one version. */
  ghost predicate AllNew(recs: seq<Record>) {
    && |recs| <= 100
    && (forall i | 0 <= i < |recs| :: ValidRecord(recs[i], Physical))
    && (forall i, j | 0 <= i < j < |recs| :: recs[i].version != recs[j].version)
  }

  ghost predicate Matches(log: Log, recs: seq<Record>) {
    |log| == |recs| && forall i | 0 <= i < |recs| :: log[i].body.entry == recs[i]
  }

  ghost predicate HoldsAll(log: Log, recs: seq<Record>) {
    WellFormed(log, LEDGER) && Matches(log, recs)
  }

  lemma IsNew(log: Log, recs: seq<Record>, r: Record)
    requires HoldsAll(log, recs) && forall i | 0 <= i < |recs| :: recs[i].version != r.version
    ensures var prior := LatestOf(log, r.content.path); prior.Some? ==> prior.value.body.entry.version != r.version
  {
    LatestIsMember(log, r.content.path);
    if LatestOf(log, r.content.path).Some? {
      var i :| 0 <= i < |log| && log[i] == LatestOf(log, r.content.path).value;
    }
  }

  lemma OneMore(log: Log, recs: seq<Record>, r: Record, log': Log)
    requires Matches(log, recs) && log <= log' && |log'| == |log| + 1 && log'[|log|].body.entry == r
    ensures Matches(log', recs + [r])
  {
  }

  lemma Appended(log: Log, recs: seq<Record>, r: Record)
    requires HoldsAll(log, recs) && |recs| < 100 && ValidRecord(r, Physical)
    requires forall i | 0 <= i < |recs| :: recs[i].version != r.version
    ensures HoldsAll(Committed(log, LEDGER, r, NoVersion, NoRevision).0, recs + [r])
  {
    IsNew(log, recs, r);
    NewRecordIsAppended(log, LEDGER, r, NoVersion, NoRevision);
    OneMore(log, recs, r, Committed(log, LEDGER, r, NoVersion, NoRevision).0);
  }

  lemma Shorter(recs: seq<Record>, before: seq<Record>, r: Record)
    requires AllNew(recs) && recs == before + [r]
    ensures AllNew(before) && ValidRecord(r, Physical)
    ensures forall i | 0 <= i < |before| :: before[i].version != r.version
  {
    assert recs[|before|] == r && forall i | 0 <= i < |before| :: recs[i] == before[i];
  }

  lemma LogOfLonger(recs: seq<Record>, r: Record)
    ensures LogOf(recs + [r]) == Committed(LogOf(recs), LEDGER, r, NoVersion, NoRevision).0
  {
    assert (recs + [r])[..|recs|] == recs;
  }

  lemma {:induction false} LogHoldsAll(recs: seq<Record>)
    requires AllNew(recs)
    ensures HoldsAll(LogOf(recs), recs)
  {
    if recs != [] {
      var before, r := recs[..|recs| - 1], recs[|recs| - 1];
      assert recs == before + [r];
      Shorter(recs, before, r);
      LogHoldsAll(before);
      Appended(LogOf(before), before, r);
      LogOfLonger(before, r);
    }
  }
}
