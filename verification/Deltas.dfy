/** Namespaces, and what a delta makes of one, entry by entry. */
module Deltas {
  import opened Records
  import opened Paths
  import opened Replicas
  import opened Ordering

  /** The newest entry of every path. */
  type Namespace = map<Path, Entry>

  predicate Is(m: Namespace, p: Path, kind: Kind) {
    p in m && m[p].content.kind == kind
  }

  predicate Alive(m: Namespace, p: Path) {
    p in m && m[p].content.kind != Deleted
  }

  /** Every live entry lies in live folders. */
  ghost predicate IsTree(m: Namespace) {
    forall p, a | Alive(m, p) && a in Ancestors(p) :: Is(m, a, Directory)
  }

  /** The namespace after the first `k` entries. */
  function Mixed(m: Namespace, delta: seq<Entry>, k: nat): Namespace
    requires k <= |delta|
  {
    if k == 0 then m else Mixed(m, delta, k - 1)[delta[k - 1].content.path := delta[k - 1]]
  }

  function Through(m: Namespace, delta: seq<Entry>): Namespace {
    Mixed(m, delta, |delta|)
  }

  ghost predicate Once(delta: seq<Entry>) {
    forall i, j | 0 <= i < j < |delta| :: delta[i].content.path != delta[j].content.path
  }

  /** The delta as `order` leaves it. */
  ghost predicate InOrder(delta: seq<Entry>) {
    forall i, j | 0 <= i < j < |delta| :: Before(delta[i].content, delta[j].content)
  }

  lemma {:induction false} MixedNamed(m: Namespace, delta: seq<Entry>, k: nat, i: nat)
    requires Once(delta) && i < k <= |delta|
    ensures var p := delta[i].content.path; p in Mixed(m, delta, k) && Mixed(m, delta, k)[p] == delta[i]
  {
    if i < k - 1 { MixedNamed(m, delta, k - 1, i); }
  }

  lemma {:induction false} MixedOther(m: Namespace, delta: seq<Entry>, k: nat, p: Path)
    requires k <= |delta| && forall i | 0 <= i < k :: delta[i].content.path != p
    ensures p in Mixed(m, delta, k) <==> p in m
    ensures p in m ==> Mixed(m, delta, k)[p] == m[p]
  {
    if k > 0 { MixedOther(m, delta, k - 1, p); }
  }

  /** Where a path stands halfway: named before `k`, named later, or not named. */
  lemma MixedAt(m: Namespace, delta: seq<Entry>, k: nat, p: Path) returns (i: int)
    requires Once(delta) && k <= |delta|
    ensures -1 <= i < |delta|
    ensures i < 0 ==> forall j | 0 <= j < |delta| :: delta[j].content.path != p
    ensures i >= 0 ==> delta[i].content.path == p && p in Through(m, delta) && Through(m, delta)[p] == delta[i]
    ensures 0 <= i < k ==> p in Mixed(m, delta, k) && Mixed(m, delta, k)[p] == delta[i]
    ensures i < 0 || i >= k ==> (p in Mixed(m, delta, k) <==> p in m) && (p in m ==> Mixed(m, delta, k)[p] == m[p])
    ensures i < 0 ==> (p in Through(m, delta) <==> p in m) && (p in m ==> Through(m, delta)[p] == m[p])
  {
    if j :| 0 <= j < |delta| && delta[j].content.path == p {
      i := j;
      MixedNamed(m, delta, |delta|, i);
      if i < k { MixedNamed(m, delta, k, i); } else { MixedOther(m, delta, k, p); }
    } else {
      i := -1;
      MixedOther(m, delta, k, p);
      MixedOther(m, delta, |delta|, p);
    }
  }

  /** No entry comes before one that the structure wants first. */
  ghost predicate Arranged(delta: seq<Entry>) {
    forall i, j | 0 <= i < j < |delta| :: Structured(delta[i].content, delta[j].content)
  }

  function Contents(delta: seq<Entry>): seq<Content> {
    seq(|delta|, i requires 0 <= i < |delta| => delta[i].content)
  }

  /** What `order` leaves is arranged, */
  lemma InOrderIsArranged(delta: seq<Entry>)
    requires InOrder(delta)
    ensures Arranged(delta)
  {
    forall i, j | 0 <= i < j < |delta| ensures Structured(delta[i].content, delta[j].content) {
      InOrderIsStructured(delta[i].content, delta[j].content);
    }
  }

  lemma InOrderIsStructured(a: Content, b: Content)
    requires Before(a, b)
    ensures Structured(a, b)
  {
    StructureFirst(a, b);
    StructureFirst(b, a);
    BeforeIsStrictTotal(a, b, a);
  }

  /** and so is what `orderDownloads` makes of it. */
  lemma DownloadsAreArranged(ordered: seq<Entry>, delta: seq<Entry>, priority: Content -> int)
    requires InOrder(ordered) && ByKind(priority) && Contents(delta) == Stable(Contents(ordered), priority, 0)
    ensures Arranged(delta)
  {
    forall i, j | 0 <= i < j < |delta| ensures Structured(delta[i].content, delta[j].content) {
      assert Contents(delta)[i] == delta[i].content && Contents(delta)[j] == delta[j].content;
      PriorityKeepsStructure(Contents(ordered), priority, i, j);
    }
  }

  /** What makes a delta one that leads to a tree. */
  ghost predicate Leads(m: Namespace, delta: seq<Entry>) {
    && Once(delta) && Arranged(delta) && IsTree(Through(m, delta))
    && (forall i | 0 <= i < |delta| :: '/' in delta[i].content.path)
  }

  lemma InTurn(delta: seq<Entry>, k: nat, i: int)
    requires Arranged(delta) && k < |delta|
    ensures k < i < |delta| ==> Structured(delta[k].content, delta[i].content)
  {
  }

  /** Folders above an entry are there when its turn comes. */
  lemma FoldersComeFirst(m: Namespace, delta: seq<Entry>, k: nat, a: Path)
    requires Leads(m, delta) && k < |delta| && delta[k].content.kind != Deleted && a in Ancestors(delta[k].content.path)
    ensures Is(Mixed(m, delta, k), a, Directory)
  {
    var p := delta[k].content.path;
    MixedNamed(m, delta, |delta|, k);
    assert Alive(Through(m, delta), p) && Is(Through(m, delta), a, Directory);
    var i := MixedAt(m, delta, k, a);
    AncestorsAreTheFoldersAbove(p, a);
    InTurn(delta, k, i);
  }

  /** Nothing lives below an entry that is no folder when its turn comes. */
  lemma NothingLivesBelow(m: Namespace, delta: seq<Entry>, k: nat, q: Path)
    requires Leads(m, delta) && k < |delta| && delta[k].content.kind != Directory && Below(q, delta[k].content.path)
    ensures !Alive(Mixed(m, delta, k), q) && !Alive(Through(m, delta), q)
  {
    var p := delta[k].content.path;
    MixedNamed(m, delta, |delta|, k);
    AncestorsAreTheFoldersAbove(q, p);
    assert p in Ancestors(q) && !Is(Through(m, delta), p, Directory);
    assert !Alive(Through(m, delta), q);
    var i := MixedAt(m, delta, k, q);
    InTurn(delta, k, i);
  }

  /** A file that stays in the way of a deletion below it. */
  predicate Blocks(m: Namespace, delta: seq<Entry>, a: Path) {
    Is(m, a, File) && !Is(Through(m, delta), a, Directory)
  }

  lemma BlockedWhenLookedUp(m: Namespace, delta: seq<Entry>, k: nat, a: Path)
    requires Leads(m, delta) && k < |delta| && delta[k].content.kind == Deleted && a in Ancestors(delta[k].content.path)
    ensures Is(Mixed(m, delta, k), a, File) <==> Blocks(m, delta, a)
  {
    var p := delta[k].content.path;
    AncestorsAreTheFoldersAbove(p, a);
    var i := MixedAt(m, delta, k, a);
    if i > k {
      assert Structured(delta[k].content, delta[i].content);
    } else if 0 <= i < k {
      assert Structured(delta[i].content, delta[k].content);
    }
  }
}
