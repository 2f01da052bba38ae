/** The pages in which a mirror lists its own proposals. */
module MirrorChanges {
  import opened Records
  import opened NamespaceJournal
  import opened Replicas

  datatype ListPage = ListPage(entries: seq<Row>, next: nat, through: nat, more: bool)

  predicate Proposed(row: Row) {
    !row.entry.IsConfirmed()
  }

  /** The rows of a table, in the order of their sequences. */
  ghost predicate InSequence(rows: seq<Row>) {
    forall i, j | 0 <= i < j < |rows| :: rows[i].sequence < rows[j].sequence
  }

  function InRange(rows: seq<Row>, after: nat, through: nat): seq<Row> {
    if rows == [] then []
    else (if after < rows[0].sequence <= through then [rows[0]] else []) + InRange(rows[1..], after, through)
  }

  function Proposals(rows: seq<Row>): seq<Row> {
    if rows == [] then [] else (if Proposed(rows[0]) then [rows[0]] else []) + Proposals(rows[1..])
  }

  /** How many rows a page looks at; `limited` when the next proposal did not fit. */
  datatype Look = Look(taken: nat, limited: bool)

  function Fill(rows: seq<Row>, weigh: Row -> nat, slots: nat, room: nat): (l: Look)
    ensures l.taken <= |rows| && l.taken <= slots
    ensures l.limited ==> l.taken < |rows| && l.taken < slots
  {
    if rows == [] || slots == 0 then Look(0, false)
    else if !Proposed(rows[0]) then var l := Fill(rows[1..], weigh, slots - 1, room); l.(taken := l.taken + 1)
    else if weigh(rows[0]) > room then Look(0, true)
    else var l := Fill(rows[1..], weigh, slots - 1, room - weigh(rows[0])); l.(taken := l.taken + 1)
  }

  /** One page; a `through` of 0 asks for everything up to the current sequence. */
  function MirrorPage(rows: seq<Row>, weigh: Row -> nat, sequence: nat, after: nat, through: nat): Option<ListPage> {
    var limit := if through == 0 then sequence else through;
    if after > limit || limit > sequence then None
    else
      var range := InRange(rows, after, limit);
      var l := Fill(range, weigh, PAGE_ENTRIES, PAGE_BYTES);
      var last := if l.taken == 0 then after else range[l.taken - 1].sequence;
      var more := l.limited || (l.taken == PAGE_ENTRIES && last < limit);
      Some(ListPage(Proposals(range[..l.taken]), if more then last else limit, limit, more))
  }

  lemma {:induction false} RangeIsInside(rows: seq<Row>, after: nat, through: nat)
    ensures forall r | r in InRange(rows, after, through) :: r in rows && after < r.sequence <= through
    ensures InSequence(rows) ==> InSequence(InRange(rows, after, through))
  {
    if rows != [] {
      RangeIsInside(rows[1..], after, through);
      var rest := InRange(rows[1..], after, through);
      if InSequence(rows) {
        forall j | 0 <= j < |rest| ensures rows[0].sequence < rest[j].sequence {
          assert rest[j] in rest && rest[j] in rows[1..];
        }
      }
    }
  }

  /** What lies beyond a row of the range comes after it. */
  lemma {:induction false} RangeAfter(rows: seq<Row>, after: nat, through: nat, k: nat)
    requires InSequence(rows) && 0 < k <= |InRange(rows, after, through)|
    ensures InRange(rows, InRange(rows, after, through)[k - 1].sequence, through) == InRange(rows, after, through)[k..]
  {
    var rest := InRange(rows[1..], after, through);
    if after < rows[0].sequence <= through {
      assert InRange(rows, after, through) == [rows[0]] + rest;
      if k == 1 {
        RangeFrom(rows[1..], rows[0].sequence, after, through);
      } else {
        RangeAfter(rows[1..], after, through, k - 1);
        Later(rows, after, through, k - 2);
      }
    } else {
      assert InRange(rows, after, through) == rest;
      RangeAfter(rows[1..], after, through, k);
      Later(rows, after, through, k - 1);
    }
  }

  lemma Later(rows: seq<Row>, after: nat, through: nat, k: nat)
    requires rows != [] && InSequence(rows) && k < |InRange(rows[1..], after, through)|
    ensures rows[0].sequence < InRange(rows[1..], after, through)[k].sequence
  {
    var rest := InRange(rows[1..], after, through);
    RangeIsInside(rows[1..], after, through);
    assert rest[k] in rest && rest[k] in rows[1..];
  }

  /** When every row lies beyond `from`, starting there or earlier makes no difference. */
  lemma {:induction false} RangeFrom(rows: seq<Row>, from: nat, after: nat, through: nat)
    requires after <= from && forall r | r in rows :: r.sequence > from
    ensures InRange(rows, from, through) == InRange(rows, after, through)
  {
    if rows != [] { RangeFrom(rows[1..], from, after, through); }
  }

  lemma {:induction false} ProposalsSplit(a: seq<Row>, b: seq<Row>)
    ensures Proposals(a + b) == Proposals(a) + Proposals(b)
  {
    if a == [] {
      assert a + b == b;
    } else {
      assert (a + b)[1..] == a[1..] + b;
      ProposalsSplit(a[1..], b);
    }
  }

  lemma {:induction false} EmptyRange(rows: seq<Row>, through: nat)
    ensures InRange(rows, through, through) == []
  {
    if rows != [] { EmptyRange(rows[1..], through); }
  }

  /** Cutting a range after `k` rows cuts its proposals. */
  lemma CutRange(rows: seq<Row>, after: nat, through: nat, k: nat)
    requires InSequence(rows) && after <= through && k <= |InRange(rows, after, through)|
    ensures var range := InRange(rows, after, through);
            var next := if k == 0 then after else range[k - 1].sequence;
            && after <= next <= through && (k > 0 ==> after < next)
            && Proposals(range[..k]) + Proposals(InRange(rows, next, through)) == Proposals(range)
  {
    var range := InRange(rows, after, through);
    RangeIsInside(rows, after, through);
    ProposalsSplit(range[..k], range[k..]);
    assert range[..k] + range[k..] == range;
    if k > 0 {
      RangeAfter(rows, after, through, k);
      assert range[k - 1] in range;
    }
  }

  /** Rows left over mean that the last one taken is not the last of the range. */
  lemma LeftOver(rows: seq<Row>, after: nat, through: nat, k: nat)
    requires InSequence(rows) && 0 < k < |InRange(rows, after, through)|
    ensures InRange(rows, after, through)[k - 1].sequence < through
  {
    var range := InRange(rows, after, through);
    RangeIsInside(rows, after, through);
    assert range[k] in range;
  }

  lemma NothingLeft(rows: seq<Row>, after: nat, through: nat, k: nat)
    requires InSequence(rows) && k == |InRange(rows, after, through)|
    ensures Proposals(InRange(rows, after, through)[..k]) + Proposals(InRange(rows, through, through))
            == Proposals(InRange(rows, after, through))
  {
    EmptyRange(rows, through);
    assert InRange(rows, after, through)[..k] == InRange(rows, after, through);
  }

  /** A page and the list after its `next` are the whole list; while there is more, the
      cursor moves, because a single proposal always fits a page. */
  lemma PageSplits(rows: seq<Row>, weigh: Row -> nat, sequence: nat, after: nat, through: nat)
    requires InSequence(rows) && after <= through <= sequence && through > 0
    requires forall r | r in rows :: weigh(r) <= PAGE_BYTES
    ensures var page := MirrorPage(rows, weigh, sequence, after, through).value;
            && page.through == through && after <= page.next <= through
            && (if page.more then after < page.next else page.next == through)
            && page.entries + Proposals(InRange(rows, page.next, through)) == Proposals(InRange(rows, after, through))
  {
    var range := InRange(rows, after, through);
    var l := Fill(range, weigh, PAGE_ENTRIES, PAGE_BYTES);
    RangeIsInside(rows, after, through);
    if range != [] { assert range[0] in range; }
    FillStops(range, weigh, PAGE_ENTRIES, PAGE_BYTES);
    CutRange(rows, after, through, l.taken);
    if 0 < l.taken < |range| {
      LeftOver(rows, after, through, l.taken);
    } else if l.taken == |range| {
      NothingLeft(rows, after, through, l.taken);
    }
  }

  lemma {:induction false} FillStops(rows: seq<Row>, weigh: Row -> nat, slots: nat, room: nat)
    ensures var l := Fill(rows, weigh, slots, room); !l.limited ==> l.taken == |rows| || l.taken == slots
    ensures slots > 0 && rows != [] && weigh(rows[0]) <= room ==> Fill(rows, weigh, slots, room).taken > 0
  {
    if rows != [] && slots > 0 {
      if !Proposed(rows[0]) {
        FillStops(rows[1..], weigh, slots - 1, room);
      } else if weigh(rows[0]) <= room {
        FillStops(rows[1..], weigh, slots - 1, room - weigh(rows[0]));
      }
    }
  }

  lemma ProposalsNext(range: seq<Row>, k: nat)
    requires k < |range|
    ensures Proposals(range[..k + 1]) == Proposals(range[..k]) + if Proposed(range[k]) then [range[k]] else []
  {
    assert range[..k + 1] == range[..k] + [range[k]];
    ProposalsSplit(range[..k], [range[k]]);
  }

  /** What a page takes in all when it has taken `k` rows. */
  function Rest(range: seq<Row>, weigh: Row -> nat, k: nat, bytes: nat): Look
    requires k <= |range| && k <= PAGE_ENTRIES && bytes <= PAGE_BYTES
  {
    var l := Fill(range[k..], weigh, PAGE_ENTRIES - k, PAGE_BYTES - bytes);
    l.(taken := l.taken + k)
  }

  lemma RestStep(range: seq<Row>, weigh: Row -> nat, k: nat, bytes: nat)
    requires k < |range| && k < PAGE_ENTRIES && bytes <= PAGE_BYTES
    ensures Rest(range, weigh, k, bytes)
            == if !Proposed(range[k]) then Rest(range, weigh, k + 1, bytes)
               else if bytes + weigh(range[k]) > PAGE_BYTES then Look(k, true)
               else Rest(range, weigh, k + 1, bytes + weigh(range[k]))
  {
    assert range[k..][1..] == range[k + 1..];
  }

  /** A mirror's table and the loop that collects its outgoing proposals. */
  class Table {
    var rows: seq<Row>
    var sequence: nat
    const weigh: Row -> nat

    constructor (rows: seq<Row>, sequence: nat, weigh: Row -> nat)
      ensures this.rows == rows && this.sequence == sequence && this.weigh == weigh
    {
      this.rows, this.sequence, this.weigh := rows, sequence, weigh;
    }

    method Changes(after: nat, through: nat) returns (page: Option<ListPage>)
      ensures page == MirrorPage(rows, weigh, sequence, after, through)
    {
      var limit := if through == 0 then sequence else through;
      if after > limit || limit > sequence {
        return None;
      }
      var range := InRange(rows, after, limit);
      var k, limited, entries := Walk(range);
      var next := if k == 0 then after else range[k - 1].sequence;
      var more := limited || (k == PAGE_ENTRIES && next < limit);
      page := Some(ListPage(entries, if more then next else limit, limit, more));
    }

    /** Passes over confirmed rows and takes proposals while they fit. */
    method Walk(range: seq<Row>) returns (k: nat, limited: bool, entries: seq<Row>)
      ensures k <= |range| && Look(k, limited) == Fill(range, weigh, PAGE_ENTRIES, PAGE_BYTES)
      ensures entries == Proposals(range[..k])
    {
      var bytes: nat := 0;
      k, limited, entries := 0, false, [];
      assert range[..0] == [] && range[0..] == range;
      while k < |range| && k < PAGE_ENTRIES
        invariant 0 <= k <= |range| && k <= PAGE_ENTRIES && bytes <= PAGE_BYTES && !limited
        invariant entries == Proposals(range[..k])
        invariant Rest(range, weigh, k, bytes) == Fill(range, weigh, PAGE_ENTRIES, PAGE_BYTES)
      {
        RestStep(range, weigh, k, bytes);
        ProposalsNext(range, k);
        if Proposed(range[k]) {
          var length := weigh(range[k]);
          if bytes + length > PAGE_BYTES {
            limited := true;
            break;
          }
          entries := entries + [range[k]];
          bytes := bytes + length;
        }
        k := k + 1;
      }
    }

    /** Page after page: exactly the proposals after the push cursor, each once, in the
        order of their sequences. */
    method CollectOutgoing(pushed: nat) returns (outgoing: seq<Row>, upper: nat)
      requires InSequence(rows) && pushed <= sequence && forall r | r in rows :: weigh(r) <= PAGE_BYTES
      ensures upper == sequence && outgoing == Proposals(InRange(rows, pushed, sequence))
    {
      var cursor := pushed;
      outgoing, upper := [], 0;
      if sequence == 0 {
        EmptyRange(rows, 0);
        return [], 0;
      }
      while true
        invariant pushed <= cursor <= sequence && (upper == 0 || upper == sequence)
        invariant outgoing + Proposals(InRange(rows, cursor, sequence)) == Proposals(InRange(rows, pushed, sequence))
        decreases sequence - cursor
      {
        PageSplits(rows, weigh, sequence, cursor, sequence);
        var page := Changes(cursor, upper);
        assert page == MirrorPage(rows, weigh, sequence, cursor, sequence);
        upper, cursor := page.value.through, page.value.next;
        outgoing := outgoing + page.value.entries;
        if !page.value.more {
          EmptyRange(rows, sequence);
          break;
        }
      }
    }
  }
}
