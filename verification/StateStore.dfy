/** One store of encrypted records as an object over the directory it shares with others. */
module StateStore {
  import opened Records
  import F = StateFence

  /** The shared directory: the files every store reads and writes. */
  class Directory {
    var disk: F.Disk

    constructor ()
      ensures disk == F.Disk(map[], map[], None, map[], None, {}, {})
    {
      disk := F.Disk(map[], map[], None, map[], None, {}, {});
    }
  }

  class GroupSessionStore {
    const number: nat
    const shared: Directory
    var revisions: map<string, nat>
    var observed: map<string, nat>
    var pending: seq<F.Request>
    var removing: Option<F.Request>
    var stage: F.Stage

    ghost function View(): F.Store
      reads this
    {
      F.Store(revisions, observed, pending, removing, stage)
    }

    constructor (number: nat, shared: Directory)
      ensures this.number == number && this.shared == shared && View() == F.NEW_STORE
    {
      this.number, this.shared := number, shared;
      revisions, observed, pending, removing, stage := map[], map[], [], None, F.Free;
    }

    method Revision(key: string) returns (revision: nat)
      ensures revision == F.RevisionOf(View(), key)
    {
      revision := if key in revisions then revisions[key] else 0;
    }

    method IsCurrent(r: F.Request) returns (current: bool)
      ensures current <==> F.Current(shared.disk, View(), r)
    {
      var revision := Revision(r.key);
      current := r.revision == revision && r.token == F.TokenOf(shared.disk, r.key);
    }

    method Read(key: string)
      modifies this
      ensures View() == F.AskRead(shared.disk, old(View()), key)
    {
      var token := F.TokenOf(shared.disk, key);
      var revision := Revision(key);
      observed := observed[key := token];
      pending := pending + [F.Request(F.Read, key, [], revision, token)];
    }

    method Write(key: string, data: Bytes)
      modifies this
      ensures View() == F.AskWrite(shared.disk, old(View()), key, data)
    {
      if key !in observed {
        observed := observed[key := F.TokenOf(shared.disk, key)];
      }
      var revision := Revision(key);
      revisions := revisions[key := revision + 1];
      pending := pending + [F.Request(F.Write, key, data, revision + 1, observed[key])];
      assert old(View()).observed[key := observed[key]] == observed;
    }

    /** A removal commits its token first; when that fails, nothing was removed. */
    method CommitRemoval(key: string, uuid: nat, fault: bool) returns (ok: bool)
      requires removing.None?
      modifies this, shared
      ensures ok == !fault
      ensures (shared.disk, View())
              == if fault then (old(shared.disk), F.FailRemove(old(View()), key))
                 else F.AskRemove(old(shared.disk), old(View()), key, uuid)
    {
      var revision := Revision(key);
      revisions := revisions[key := revision + 1];
      if fault {
        return false;
      }
      shared.disk := shared.disk.(tokens := shared.disk.tokens[key := uuid], issued := shared.disk.issued + {uuid});
      observed := observed[key := uuid];
      removing := Some(F.Request(F.Remove, key, [], revision + 1, uuid));
      ok := true;
    }

    /** A tombstone that cannot be written is passed over. */
    method EraseRecord(fault: bool)
      requires removing.Some?
      modifies this, shared
      ensures (shared.disk, View()) == F.Erase(old(shared.disk), old(View()), fault)
    {
      var r := removing.value;
      if !fault {
        shared.disk := shared.disk.(records := shared.disk.records[r.key := F.Tombstone]);
      }
      pending := pending + [r];
      removing := None;
    }

    method TakeNext()
      requires pending != [] && stage == F.Free
      modifies this
      ensures View() == F.Pick(shared.disk, old(View()))
    {
      var r := pending[0];
      var current := IsCurrent(r);
      pending := pending[1..];
      stage := if current then F.Checked(r) else F.Finishing(r, F.Missing);
    }

    method Lock(patient: bool)
      requires stage.Checked?
      modifies this, shared
      ensures (shared.disk, View()) == F.TryLock(old(shared.disk), old(View()), number, patient)
    {
      var r := stage.request;
      if shared.disk.holder.None? {
        shared.disk := shared.disk.(holder := Some(number));
        stage := F.Locked(r);
      } else if patient {
        pending := [r] + pending;
        stage := F.Free;
      } else {
        stage := F.Finishing(r, F.Unavailable);
      }
    }

    method Start()
      requires stage.Locked?
      modifies this, shared
      ensures (shared.disk, View()) == F.Work(old(shared.disk), old(View()), 0, false)
    {
      var r := stage.request;
      if r.operation == F.Remove {
        shared.disk := shared.disk.(legacy := shared.disk.legacy - {r.key});
        stage := F.Finishing(r, F.Ok([]));
      } else if r.operation == F.Write {
        stage := F.Keying(r, true, None, false);
      } else if r.key in shared.disk.records {
        var file := shared.disk.records[r.key];
        if file.Tombstone? || file.header != r.token {
          stage := F.Finishing(r, F.Missing);
        } else {
          stage := F.Keying(r, false, Some(file), false);
        }
      } else if r.token != F.ZERO || r.key !in shared.disk.legacy {
        stage := F.Finishing(r, F.Missing);
      } else {
        stage := F.Keying(r.(data := shared.disk.legacy[r.key]), true, None, true);
      }
    }

    method WithKey(uuid: nat)
      requires stage.Keying?
      modifies this, shared
      ensures (shared.disk, View()) == F.Work(old(shared.disk), old(View()), uuid, false)
    {
      var r := stage.request;
      if shared.disk.master.None? {
        if !stage.create {
          stage := F.Finishing(r, F.Unavailable);
          return;
        }
        shared.disk := shared.disk.(master := Some(uuid));
      }
      var master := shared.disk.master.value;
      stage := if stage.file.Some? then F.Finishing(r, F.Opened(stage.file.value, r, master))
        else F.Storing(r, master, stage.migrating);
    }

    method CheckBeforeSaving()
      requires stage.Storing?
      modifies this
      ensures (shared.disk, View()) == F.Work(old(shared.disk), old(View()), 0, false)
    {
      var current := IsCurrent(stage.request);
      stage := if current then F.Saving(stage.request, stage.master, stage.migrating)
        else F.Finishing(stage.request, F.Missing);
    }

    method Save()
      requires stage.Saving?
      modifies this, shared
      ensures (shared.disk, View()) == F.Work(old(shared.disk), old(View()), 0, false)
    {
      var r := stage.request;
      var record := F.Ciphertext(r.token, r.key, r.token, stage.master, r.data);
      shared.disk := shared.disk.(records := shared.disk.records[r.key := record],
                                  sealed := shared.disk.sealed + {(r.key, r.token, r.data)});
      if stage.migrating {
        shared.disk := shared.disk.(legacy := shared.disk.legacy - {r.key});
      }
      stage := F.Finishing(r, F.Ok(if stage.migrating then r.data else []));
    }

    method Finish() returns (answer: F.Answer)
      requires stage.Finishing?
      modifies this, shared
      ensures (shared.disk, View(), answer) == F.Finish(old(shared.disk), old(View()), number)
    {
      var r, result := stage.request, stage.result;
      if shared.disk.holder == Some(number) {
        shared.disk := shared.disk.(holder := None);
      }
      var current := IsCurrent(r);
      answer := F.Answer(r.operation, r.key, if current then result else F.Missing);
      stage := F.Free;
    }
  }
}
