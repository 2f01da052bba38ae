/** The records replicas exchange: paths, contents, versions, revisions and clocks.

    SHA-256 is modelled as an injective constructor, so two digests are equal exactly
    when their inputs are.  A string that is not the digest of anything the model
    knows is a separate constructor. */
module Records {

  datatype Option<+T> = None | Some(value: T)

  type Path = string
  newtype byte = x: int | 0 <= x < 256
  type Bytes = seq<byte>

  const MAX_COUNTER: int := 9007199254740991
  const MAX_CLOCK: int := 64

  datatype Kind = File | Directory | Deleted

  datatype Digest = NoDigest | Sha256(bytes: Bytes) | OtherDigest(text: string)

  /** Replica identifier to counter; an absent identifier counts as 0. */
  type Clock = map<string, int>

  /** The part of an entry its version is the digest of. */
  datatype Content = Content(path: Path, kind: Kind, size: int, hash: Digest, clock: Clock)

  datatype Version = NoVersion | VersionOf(content: Content) | OtherVersion(text: string)

  datatype Record = Record(content: Content, version: Version)

  datatype RevisionId = NoRevision | RevisionDigest(body: RevisionBody) | OtherRevision(text: string)

  datatype RevisionBody = RevisionBody(
    space: string, authority: string, sequence: int, previous: RevisionId,
    parents: seq<RevisionId>, entry: Record, proposal: Version)

  datatype Revision = Revision(id: RevisionId, body: RevisionBody) {
    function Path(): Path { body.entry.content.path }
  }

  function Versioned(c: Content): Record {
    Record(c, VersionOf(c))
  }

  predicate ContentEqual(a: Content, b: Content) {
    a.kind == b.kind && a.hash == b.hash && a.size == b.size
  }

  function Reading(c: Clock, k: string): int {
    if k in c then c[k] else 0
  }

  datatype Order = Equal | Greater | Less | Concurrent

  /** Compares two vector clocks over the union of their keys. */
  function Compare(incoming: Clock, local: Clock): Order {
    var keys := incoming.Keys + local.Keys;
    var greater := exists k | k in keys :: Reading(incoming, k) > Reading(local, k);
    var less := exists k | k in keys :: Reading(incoming, k) < Reading(local, k);
    if greater && less then Concurrent else if greater then Greater else if less then Less else Equal
  }

  /** `a`, raised to every larger reading of `b`. */
  function Joined(a: Clock, b: Clock): Clock {
    a + map k | k in b && b[k] > Reading(a, k) :: b[k]
  }

  /** The join is the least clock at or above both; on clocks of positive counters,
      as every valid record carries, it dominates or equals each of them. */
  lemma JoinedIsLeastUpperBound(a: Clock, b: Clock, u: Clock)
    requires forall k | k in a :: a[k] > 0
    requires forall k | k in b :: b[k] > 0
    ensures Compare(Joined(a, b), a) in {Equal, Greater}
    ensures Compare(Joined(a, b), b) in {Equal, Greater}
    ensures (forall k :: Reading(a, k) <= Reading(u, k) && Reading(b, k) <= Reading(u, k))
              ==> forall k :: Reading(Joined(a, b), k) <= Reading(u, k)
    ensures Joined(a, b).Keys == a.Keys + b.Keys
  {
    var j := Joined(a, b);
    assert forall k :: Reading(j, k) == if Reading(b, k) > Reading(a, k) then Reading(b, k) else Reading(a, k);
    assert forall k :: k in b ==> k in j;
  }

  /** Comparison is antisymmetric in its direction and agrees with pointwise order. */
  lemma CompareMirrored(a: Clock, b: Clock)
    ensures Compare(a, b) == Greater <==> Compare(b, a) == Less
    ensures Compare(a, b) == Concurrent <==> Compare(b, a) == Concurrent
    ensures Compare(a, b) == Equal <==> forall k :: Reading(a, k) == Reading(b, k)
    ensures Compare(a, b) in {Equal, Greater} <==> forall k :: Reading(a, k) >= Reading(b, k)
  {
    forall k ensures k in a.Keys + b.Keys || Reading(a, k) == Reading(b, k) == 0 { }
    assert a.Keys + b.Keys == b.Keys + a.Keys;
  }

  /** The nine section keys, in display order. */
  const SECTIONS: set<string> := {"files", "photos", "asset-library", "generation-history", "models",
                                  "thinking-space", "forked", "published", "deleted"}

  predicate ValidContent(c: Content) {
    && 0 <= c.size <= MAX_COUNTER
    && (if c.kind == File then c.hash != NoDigest else c.size == 0 && c.hash == NoDigest)
    && 0 < |c.clock| <= MAX_CLOCK
    && forall k | k in c.clock :: 0 < c.clock[k] <= MAX_COUNTER
  }
}
