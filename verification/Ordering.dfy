/** The order in which a round applies entries: folders from the top, then deletions from
    the bottom, then files from the smallest. */
module Ordering {
  import opened Records
  import opened Paths

  function Stage(kind: Kind): int {
    match kind case Directory => 0 case Deleted => 1 case File => 2
  }

  /** The comparison the entries are sorted with. */
  predicate Before(a: Content, b: Content) {
    if Stage(a.kind) != Stage(b.kind) then Stage(a.kind) < Stage(b.kind)
    else if a.kind == File && a.size != b.size then a.size < b.size
    else if Depth(a.path) != Depth(b.path) then
      if a.kind == Deleted then Depth(a.path) > Depth(b.path) else Depth(a.path) < Depth(b.path)
    else PathLess(a.path, b.path)
  }

  /** A strict total order on entries with distinct paths. */
  lemma BeforeIsStrictTotal(a: Content, b: Content, c: Content)
    ensures !(Before(a, b) && Before(b, a))
    ensures a.path != b.path ==> Before(a, b) || Before(b, a)
    ensures Before(a, b) && Before(b, c) ==> Before(a, c)
  {
    PathLessTotal(a.path, b.path);
    if PathLess(a.path, b.path) && PathLess(b.path, c.path) {
      PathLessTransitive(a.path, b.path, c.path);
    }
  }

  /** Folders come before everything below them, deletions after the deletions below
      them, and a file or a deletion never before a folder. */
  lemma StructureFirst(a: Content, b: Content)
    ensures a.kind == Directory && Below(b.path, a.path) ==> Before(a, b)
    ensures a.kind == Deleted && b.kind == Deleted && Below(b.path, a.path) ==> Before(b, a)
    ensures a.kind != File && b.kind == File ==> Before(a, b)
  {
    if Below(b.path, a.path) {
      BelowIsDeeper(b.path, a.path);
    }
  }

  ghost predicate Distinct(s: seq<Content>) {
    forall i, j | 0 <= i < j < |s| :: s[i].path != s[j].path
  }

  ghost predicate Ordered(s: seq<Content>) {
    forall i, j | 0 <= i < j < |s| :: Before(s[i], s[j])
  }

  // ---------------------------------------------------------------- sorting

  function Insert(x: Content, s: seq<Content>): (r: seq<Content>)
    ensures multiset(r) == multiset(s) + multiset{x}
  {
    if s == [] then [x]
    else if Before(x, s[0]) then [x] + s
    else assert s == [s[0]] + s[1..]; [s[0]] + Insert(x, s[1..])
  }

  function Sorted(s: seq<Content>): (r: seq<Content>)
    ensures multiset(r) == multiset(s)
  {
    if s == [] then [] else assert s == [s[0]] + s[1..]; Insert(s[0], Sorted(s[1..]))
  }

  lemma SameElements(a: seq<Content>, b: seq<Content>, x: Content)
    requires multiset(a) == multiset(b)
    ensures x in a <==> x in b
  {
    assert x in multiset(a) <==> x in a;
    assert x in multiset(b) <==> x in b;
  }

  lemma {:induction false} InsertOrders(x: Content, s: seq<Content>)
    requires Ordered(s) && forall y | y in s :: y.path != x.path
    ensures Ordered(Insert(x, s))
  {
    if s != [] {
      BeforeIsStrictTotal(x, s[0], s[0]);
      if Before(x, s[0]) {
        forall y | y in s ensures Before(x, y) {
          BeforeIsStrictTotal(x, s[0], y);
        }
      } else {
        InsertOrders(x, s[1..]);
        var rest := Insert(x, s[1..]);
        forall j | 0 <= j < |rest| ensures Before(s[0], rest[j]) {
          assert rest[j] in multiset(rest);
          assert rest[j] == x || rest[j] in s[1..];
        }
      }
    }
  }

  lemma {:induction false} SortedOrders(s: seq<Content>)
    requires Distinct(s)
    ensures Ordered(Sorted(s))
  {
    if s != [] {
      SortedOrders(s[1..]);
      forall y | y in Sorted(s[1..]) ensures y.path != s[0].path {
        SameElements(Sorted(s[1..]), s[1..], y);
      }
      InsertOrders(s[0], Sorted(s[1..]));
    }
  }

  lemma SameFirst(a: seq<Content>, b: seq<Content>)
    requires Ordered(a) && Ordered(b) && multiset(a) == multiset(b) && a != []
    ensures b != [] && a[0] == b[0]
  {
    SameElements(a, b, a[0]);
    SameElements(a, b, b[0]);
    BeforeIsStrictTotal(a[0], b[0], a[0]);
  }

  lemma SameRest(a: seq<Content>, b: seq<Content>)
    requires a != [] && b != [] && a[0] == b[0] && multiset(a) == multiset(b)
    ensures multiset(a[1..]) == multiset(b[1..])
  {
    assert a == [a[0]] + a[1..] && b == [b[0]] + b[1..];
    assert multiset(a[1..]) == multiset(a) - multiset{a[0]};
    assert multiset(b[1..]) == multiset(b) - multiset{b[0]};
  }

  /** However the library sorts: entries with distinct paths have exactly one ordered
      arrangement. */
  lemma {:induction false} OneOrder(a: seq<Content>, b: seq<Content>)
    requires Ordered(a) && Ordered(b) && multiset(a) == multiset(b)
    ensures a == b
  {
    if a != [] {
      SameFirst(a, b);
      SameRest(a, b);
      OneOrder(a[1..], b[1..]);
      assert a == [a[0]] + a[1..] && b == [b[0]] + b[1..];
    }
  }

  // ---------------------------------------------------------------- re-sorting by priority

  /** The entries of one priority, in their order. */
  function OfPriority(s: seq<Content>, priority: Content -> int, n: int): seq<Content> {
    if s == [] then [] else (if priority(s[0]) == n then [s[0]] else []) + OfPriority(s[1..], priority, n)
  }

  /** The stable sort by priorities `from` to 5. */
  function Stable(s: seq<Content>, priority: Content -> int, from: nat): seq<Content>
    requires from <= 6
    decreases 6 - from
  {
    if from == 6 then [] else OfPriority(s, priority, from) + Stable(s, priority, from + 1)
  }

  /** Folders have priority 0, deletions 1 and files something from 2 to 5. */
  predicate Suits(kind: Kind, n: int) {
    match kind case Directory => n == 0 case Deleted => n == 1 case File => 2 <= n <= 5
  }

  ghost predicate ByKind(priority: Content -> int) {
    forall c: Content :: Suits(c.kind, priority(c))
  }

  lemma {:induction false} OfPriorityKeepsOrder(s: seq<Content>, priority: Content -> int, n: int, i: nat, j: nat)
    returns (k: nat, l: nat)
    requires i < j < |OfPriority(s, priority, n)|
    ensures k < l < |s| && OfPriority(s, priority, n)[i] == s[k] && OfPriority(s, priority, n)[j] == s[l]
    ensures priority(s[k]) == n && priority(s[l]) == n
  {
    if priority(s[0]) == n {
      if i == 0 {
        k := 0;
        l := OfPriorityHas(s[1..], priority, n, j - 1);
        l := l + 1;
      } else {
        k, l := OfPriorityKeepsOrder(s[1..], priority, n, i - 1, j - 1);
        k, l := k + 1, l + 1;
      }
    } else {
      k, l := OfPriorityKeepsOrder(s[1..], priority, n, i, j);
      k, l := k + 1, l + 1;
    }
  }

  lemma {:induction false} OfPriorityHas(s: seq<Content>, priority: Content -> int, n: int, i: nat) returns (k: nat)
    requires i < |OfPriority(s, priority, n)|
    ensures k < |s| && OfPriority(s, priority, n)[i] == s[k] && priority(s[k]) == n
  {
    if priority(s[0]) == n {
      if i == 0 {
        k := 0;
      } else {
        k := OfPriorityHas(s[1..], priority, n, i - 1);
        k := k + 1;
      }
    } else {
      k := OfPriorityHas(s[1..], priority, n, i);
      k := k + 1;
    }
  }

  /** Two entries of the re-sorted list come from two of the original one, either of a
      lower and a higher priority or in their old order. */
  lemma {:induction false} StablePair(s: seq<Content>, priority: Content -> int, from: nat, i: nat, j: nat)
    returns (k: nat, l: nat)
    requires from <= 6 && i < j < |Stable(s, priority, from)|
    ensures k < |s| && l < |s| && Stable(s, priority, from)[i] == s[k] && Stable(s, priority, from)[j] == s[l]
    ensures from <= priority(s[k]) && (priority(s[k]) < priority(s[l]) || (priority(s[k]) == priority(s[l]) && k < l))
    decreases 6 - from
  {
    var first := OfPriority(s, priority, from);
    assert from < 6 && Stable(s, priority, from) == first + Stable(s, priority, from + 1);
    if j < |first| {
      k, l := OfPriorityKeepsOrder(s, priority, from, i, j);
    } else if |first| <= i {
      k, l := StablePair(s, priority, from + 1, i - |first|, j - |first|);
    } else {
      k := OfPriorityHas(s, priority, from, i);
      l := StableHas(s, priority, from + 1, j - |first|);
    }
  }

  lemma {:induction false} StableHas(s: seq<Content>, priority: Content -> int, from: nat, i: nat) returns (k: nat)
    requires from <= 6 && i < |Stable(s, priority, from)|
    ensures k < |s| && Stable(s, priority, from)[i] == s[k] && from <= priority(s[k])
    decreases 6 - from
  {
    var first := OfPriority(s, priority, from);
    if i < |first| {
      k := OfPriorityHas(s, priority, from, i);
    } else {
      k := StableHas(s, priority, from + 1, i - |first|);
    }
  }

  lemma {:induction false} OfPriorityAll(s: seq<Content>, priority: Content -> int, n: int, x: Content)
    ensures multiset(OfPriority(s, priority, n))[x] == if priority(x) == n then multiset(s)[x] else 0
  {
    if s != [] {
      OfPriorityAll(s[1..], priority, n, x);
      assert s == [s[0]] + s[1..];
    }
  }

  lemma {:induction false} StableAll(s: seq<Content>, priority: Content -> int, from: nat, x: Content)
    requires from <= 6
    ensures multiset(Stable(s, priority, from))[x] == if from <= priority(x) <= 5 then multiset(s)[x] else 0
    decreases 6 - from
  {
    if from < 6 {
      OfPriorityAll(s, priority, from, x);
      StableAll(s, priority, from + 1, x);
    }
  }

  /** Re-sorting by priority loses and repeats no entry. */
  lemma PriorityKeepsEntries(s: seq<Content>, priority: Content -> int)
    requires ByKind(priority)
    ensures multiset(Stable(s, priority, 0)) == multiset(s)
  {
    forall x ensures multiset(Stable(s, priority, 0))[x] == multiset(s)[x] {
      StableAll(s, priority, 0, x);
    }
  }

  predicate Structured(a: Content, b: Content) {
    && Stage(a.kind) <= Stage(b.kind)
    && !(b.kind == Directory && Below(a.path, b.path))
    && !(a.kind == Deleted && b.kind == Deleted && Below(b.path, a.path))
  }

  lemma PairStructured(a: Content, b: Content, m: int, n: int)
    requires Suits(a.kind, m) && Suits(b.kind, n) && (m < n || (m == n && Before(a, b)))
    ensures Structured(a, b)
  {
    StructureFirst(a, b);
    StructureFirst(b, a);
    BeforeIsStrictTotal(a, b, a);
  }

  /** Re-sorting an ordered list by priority keeps folders before everything below them,
      deletions after the deletions below them, and files last. */
  lemma PriorityKeepsStructure(s: seq<Content>, priority: Content -> int, i: nat, j: nat)
    requires Ordered(s) && ByKind(priority) && i < j < |Stable(s, priority, 0)|
    ensures Structured(Stable(s, priority, 0)[i], Stable(s, priority, 0)[j])
  {
    var k, l := StablePair(s, priority, 0, i, j);
    PairStructured(s[k], s[l], priority(s[k]), priority(s[l]));
  }
}
