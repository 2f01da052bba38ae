/** The receiving end of a download as an object, and what is ever installed. */
module TransferStore {
  import opened Records
  import opened Paths
  import opened Trees
  import opened Replicas
  import opened Merges
  import opened MergeSafety
  import opened Transfer

  /** The fields a round keeps for the file it is downloading, and the staged part. */
  class Receiver {
    const size: nat
    var offset: nat
    var pending: int
    var received: map<nat, Bytes>
    var part: Bytes
    var failed: bool

    ghost function View(): Download
      reads this
    {
      Download(size, offset, pending, received, part, failed)
    }

    constructor (size: nat, part: Bytes)
      ensures View() == Download(size, |part|, 0, map[], part, false)
    {
      this.size, this.offset, this.pending, this.received, this.part, this.failed :=
        size, |part|, 0, map[], part, false;
    }

    /** Opens a window and says where its chunks start. */
    method OpenWindow(window: nat) returns (positions: seq<nat>)
      requires offset <= size && window > 0
      modifies this`pending
      ensures View() == Open(old(View()), window)
      ensures |positions| == Asked(size, offset, window)
      ensures forall i | 0 <= i < |positions| :: positions[i] == Start(offset, i)
    {
      pending := Asked(size, offset, window);
      positions := [];
      var i := 0;
      while i < pending
        invariant 0 <= i == |positions| <= pending
        invariant forall j | 0 <= j < i :: positions[j] == Start(offset, j)
      {
        positions := positions + [offset + i * CHUNK];
        i := i + 1;
      }
    }

    method Append(position: int, bytes: Bytes) returns (ok: bool)
      modifies this`part
      ensures ok <==> TakeChunk(old(part), size, position, bytes).Some?
      ensures part == if ok then TakeChunk(old(part), size, position, bytes).value else old(part)
    {
      if position < 0 || |bytes| > CHUNK || position > size - |bytes| || position > |part| {
        return false;
      }
      if position < |part| {
        if position + |bytes| > |part| {
          return false;
        }
        return part[position..position + |bytes|] == bytes;
      }
      part := part + bytes;
      ok := true;
    }

    method Finish()
      modifies this`failed, this`pending, this`received
      ensures View() == Fail(old(View()))
    {
      failed, pending, received := true, 0, map[];
    }

    /** A reply: checked, buffered, and everything contiguous appended. */
    method Receive(position: nat, bytes: Bytes, right: bool)
      modifies this
      ensures View() == Arrive(old(View()), position, bytes, right)
    {
      if failed {
        return;
      }
      if !right || |bytes| != ChunkSize(size, position) {
        Finish();
        return;
      }
      received := received[position := bytes];
      pending := pending - 1;
      AppendArrived();
    }

    /** Moves the buffered chunk at the offset into the part. */
    method TakeNext() returns (ok: bool)
      requires offset in received
      modifies this`received, this`offset, this`part
      ensures ok <==> Step(old(View())).Some?
      ensures View() == if ok then Step(old(View())).value else old(View())
    {
      ok := Append(offset, received[offset]);
      if ok {
        received := received - {offset};
        if offset < size {
          offset := offset + ChunkSize(size, offset);
        }
      }
    }

    method AppendArrived()
      modifies this
      ensures View() == Drain(old(View()))
    {
      ghost var buffered := View();
      while offset in received
        invariant Drain(View()) == Drain(buffered)
        decreases received.Keys
      {
        var ok := TakeNext();
        if !ok {
          Finish();
          return;
        }
      }
    }
  }

  // ---------------------------------------------------------------- what is installed

  /** A file appears at an entry's path, or changes there, only with exactly the announced
      size and digest: a short, long or corrupt part is never installed. */
  lemma OnlyWholeFilesAreInstalled(env: Env, s: Replica, peer: string, incoming: Entry, commit: bool)
    requires Inv(s)
    ensures var s', path := Merge(env, s, peer, incoming, commit).state, incoming.content.path;
            IsDoc(s'.tree, path) && !(path in s.tree && s'.tree[path] == s.tree[path]) ==>
              Sha256(s'.tree[path].bytes) == incoming.content.hash && |s'.tree[path].bytes| == incoming.content.size
              && PartKey(peer, incoming) in s.parts && s'.tree[path].bytes == s.parts[PartKey(peer, incoming)]
  {
    var seen, end := MergeFromSeen(env, s, peer, incoming, commit);
    if Refresh(s, incoming.content.path, CauseOf(incoming)).Some? {
      FreshInstall(env, seen, peer, incoming, commit, CauseOf(incoming));
    }
  }

  /** The file at `path` is as it was, or the whole staged part. */
  ghost predicate WholeOrSame(s: Replica, s': Replica, peer: string, incoming: Entry) {
    var path, key := incoming.content.path, PartKey(peer, incoming);
    IsDoc(s'.tree, path) && !(path in s.tree && s'.tree[path] == s.tree[path]) ==>
      Whole(s, peer, incoming) && s'.tree[path].bytes == s.parts[key]
  }

  lemma FreshInstall(env: Env, s: Replica, peer: string, incoming: Entry, commit: bool, cause: Proposal)
    requires Inv(s) && Fresh(s, incoming.content.path)
    ensures WholeOrSame(s, MergeFresh(env, s, peer, incoming, commit, cause).state, peer, incoming)
  {
    var route, end := FreshEnding(env, s, peer, incoming, commit, cause);
    if route.Carry? {
      ApplyInstall(env, s, peer, incoming, Relate(s, incoming), route.decision, cause);
    }
  }

  lemma ApplyInstall(env: Env, s: Replica, peer: string, incoming: Entry, relation: Relation, d: Decision,
                     cause: Proposal)
    requires Ready(env, s, peer, incoming, relation, d)
    ensures WholeOrSame(s, Apply(env, s, peer, incoming, d, cause).state, peer, incoming)
  {
    var path := incoming.content.path;
    ConflictPathDiffers(path, env.tag(LoserOf(s, incoming, d).version));
    var kept, made, end := ApplyStages(env, s, peer, incoming, d, cause);
    if kept.None? {
      UnkeptEffect(env, s, peer, incoming, relation, d);
    } else {
      KeptEffect(env, s, peer, incoming, relation, d, cause);
      if made.Some? && d.incomingWins && !d.same {
        MaterializeKeeps(kept.value, peer, incoming, LocalRow(s, path));
      }
    }
  }
}
