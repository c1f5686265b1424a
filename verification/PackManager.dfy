/** SnapshotManager: Apply, Remove, Rollback and RollbackPack as sequences of
    single disk writes, any of which may fail or be the last one before a crash. */
module PackManager {
  import opened Wrappers
  import opened PackDisk

  /** What happens to one write: it works, it fails with nothing changed, it takes
      effect and still reports an error (rename done, directory sync failed), or
      the process dies before it. */
  datatype Fault = Works | Fails | FailsLate | Crash

  /** `Unclean`: committed, but the transaction record could not be removed. */
  datatype Outcome = Done | Refused(reason: Reason) | Unclean | Crashed

  /** How an operation that means `spec` on `before` may leave the directory.
      `after` is the settled directory, `commits` the number of commit records
      that reached the disk; a refusal may follow one that an abort has taken back. */
  ghost predicate Atomic(o: Outcome, before: Disk, spec: Result<Disk, Reason>, after: Disk, commits: int)
  {
    match o
    case Done => spec.Ok? && after == spec.value && commits == 1
    case Unclean => spec.Ok? && after == spec.value && commits == 1
    case Refused(_) => Kept(before, after) && 0 <= commits <= 1
    case Crashed =>
      if commits == 0 then Kept(before, after) else commits == 1 && spec.Ok? && after == spec.value
  }

  /** The manifest file an operation leaves was there before it, or is what the directory before or
      after it stands for. */
  ghost predicate ManifestFrom(now: Disk, was: Disk)
  {
    || now.manifest == was.manifest || now.manifest == Settled(was).manifest
    || now.manifest == Cleared(Settled(was)).manifest || now.manifest == Settled(now).manifest
  }

  /** A rollback to `r` from `d` up to its commit record: file and manifest are back, the record is pending. */
  function Staged(d: Disk, r: RollbackRecord): Disk
  {
    d.(files := RestoreFile(d.files, r), manifest := RestoreDoc(r.manifest),
       txn := Some(Encoded(PendingRecord(d, r.filename))))
  }

  /** Restoring the record taken of a file undoes any change to that file. */
  lemma RestoreCurrent(files: map<string, string>, changed: map<string, string>, f: string)
    requires changed - {f} == files - {f}
    ensures RestoreFile(changed, CurrentRecord(files, f)) == files
  {
    var restored := RestoreFile(changed, CurrentRecord(files, f));
    assert restored.Keys == files.Keys by {
      assert (changed - {f}).Keys == (files - {f}).Keys;
      forall k ensures k in restored <==> k in files {
        if k != f {
          assert k in changed <==> k in changed - {f};
          assert k in files <==> k in files - {f};
        }
      }
    }
    forall k | k in files ensures restored[k] == files[k] {
      if k != f {
        assert changed[k] == (changed - {f})[k] == (files - {f})[k] == files[k];
      }
    }
  }

  /** Until the commit record is written, the directory still stands for the state
      before the operation, whatever was done to the target file and documents. */
  lemma PendingSettles(d: Disk, f: string, now: Disk)
    requires d.txn.None? && SafeName(f)
    requires now.txn == Some(Encoded(PendingRecord(d, f)))
    requires now.files - {f} == d.files - {f}
    ensures Settled(now) == Cleared(d) && (NoBlank(d) ==> Settled(now) == d)
  {
    RestoreCurrent(d.files, now.files, f);
  }

  lemma RestoreTwice(files: map<string, string>, r: RollbackRecord)
    ensures RestoreFile(RestoreFile(files, r), r) == RestoreFile(files, r)
  {
  }

  /** Restoring any of the three pieces a pending record holds changes nothing of
      what the directory stands for. */
  lemma UndoStepSettles(d: Disk, now: Disk, t: TransactionRecord)
    requires d.txn == now.txn == Some(Encoded(t)) && !t.committed && SafeName(t.before.filename)
    requires now.files == d.files || now.files == RestoreFile(d.files, t.before)
    ensures Settled(now) == Settled(d)
  {
    RestoreTwice(d.files, t.before);
  }

  class SnapshotManager {
    const lib: Library
    const faults: nat -> Fault
    var writes: nat
    var disk: Disk
    var active: set<Pack>
    /** Commit records that reached the disk. */
    ghost var commits: nat
    /** An abort that started with a commit record on disk did not finish. */
    ghost var torn: bool

    constructor (lib: Library, disk: Disk, faults: nat -> Fault)
      ensures this.lib == lib && this.disk == disk && this.faults == faults
      ensures writes == 0 && commits == 0 && !torn && active == {}
    {
      this.lib, this.disk, this.faults := lib, disk, faults;
      writes, active, commits, torn := 0, {}, 0, false;
    }

    /** One write works, the next one and the first one of the abort fail. */
    ghost predicate StuckCommit(from: nat)
    {
      faults(from).Works? && faults(from + 1).Fails? && faults(from + 2).Fails?
    }

    ghost predicate AllWork(from: nat, to: nat)
    {
      forall i :: from <= i < to ==> faults(i).Works?
    }

    /** One atomic write or remove. */
    method Write(next: Disk) returns (w: Fault)
      modifies this`disk, this`writes, this`commits
      ensures writes == old(writes) + 1 && w == faults(old(writes))
      ensures disk == if w.Works? || w.FailsLate? then next else old(disk)
      ensures commits == old(commits) +
        if disk == next && HasCommit(next) && next.txn != old(disk).txn then 1 else 0
    {
      w := faults(writes);
      writes := writes + 1;
      if w.Works? || w.FailsLate? {
        commits := commits + if HasCommit(next) && next.txn != disk.txn then 1 else 0;
        disk := next;
      } else {
        assert next.txn != disk.txn ==> disk != next;
      }
    }

    /** RecoverTransactions (manager.go:163-199). */
    method RecoverTransactions() returns (o: Outcome)
      modifies this`disk, this`writes, this`commits
      ensures Settled(disk) == Settled(old(disk)) && commits == old(commits)
      ensures o.Done? ==> disk == Settled(old(disk)) && disk.txn.None? && Recoverable(old(disk))
      ensures !o.Unclean?
      ensures old(disk).txn.None? ==> disk == old(disk) && writes == old(writes) && o.Done?
      ensures writes >= old(writes)
      ensures AllWork(old(writes), writes) ==> o == if Recoverable(old(disk)) then Done else Refused(BadRecovery)
      ensures ManifestFrom(disk, old(disk))
    {
      if disk.txn.None? { return Done; }
      if !disk.txn.value.Encoded? { return Refused(BadRecovery); }
      var t := disk.txn.value.value;
      if !SafeName(t.before.filename) { return Refused(BadRecovery); }
      var w;
      if t.committed {
        w := Write(disk.(undo := Some(Encoded(t.undo))));
        if w.Works? && t.nextManifest != Raw("") {
          w := Write(disk.(manifest := RestoreDoc(t.nextManifest)));
        }
      } else {
        w := Write(disk.(files := RestoreFile(disk.files, t.before)));
        assert Settled(disk) == Settled(old(disk));
        if w.Works? { w := Write(disk.(undo := RestoreDoc(t.priorUndo))); }
        if w.Works? { w := Write(disk.(manifest := RestoreDoc(t.priorManifest))); }
      }
      if w.Works? { w := Write(disk.(txn := None)); }
      o := if w.Works? then Done else if w.Crash? then Crashed else Refused(WriteFailed);
    }

    /** abortTransaction (manager.go:471-485).  `t` is the record on disk. */
    method Abort(pending: TransactionRecord, ghost t: TransactionRecord) returns (o: Outcome)
      requires disk.txn == Some(Encoded(t)) && SafeName(pending.before.filename)
      requires pending == t.(undo := NO_RECORD, nextManifest := Raw(""), committed := false)
      modifies this`disk, this`writes, this`commits, this`torn
      ensures old(torn) ==> torn
      ensures o.Done? ==> disk == Undone(old(disk), pending)
      ensures !o.Unclean?
      ensures !t.committed ==> Settled(disk) == Settled(old(disk))
      ensures torn == (old(torn) || (t.committed && !o.Done?))
      ensures commits == old(commits) && writes >= old(writes)
      ensures AllWork(old(writes), writes) ==> o.Done?
      ensures disk.manifest == old(disk).manifest || disk.manifest == RestoreDoc(pending.priorManifest)
      ensures faults(old(writes)).Fails? ==> disk == old(disk) && o == Refused(WriteFailed) && writes == old(writes) + 1
    {
      var w := Write(disk.(files := RestoreFile(disk.files, pending.before)));
      if !t.committed { UndoStepSettles(old(disk), disk, t); }
      if w.Works? {
        w := Write(disk.(undo := RestoreDoc(pending.priorUndo)));
        if !t.committed { UndoStepSettles(old(disk), disk, t); }
      }
      if w.Works? {
        w := Write(disk.(manifest := RestoreDoc(pending.priorManifest)));
        if !t.committed { UndoStepSettles(old(disk), disk, t); }
      }
      if w.Works? {
        w := Write(disk.(txn := None));
      }
      o := if w.Works? then Done else if w.Crash? then Crashed else Refused(WriteFailed);
      torn := torn || (t.committed && !o.Done?);
    }

    /** Abort, then report `reason` unless the process died on the way. */
    method Fail(pending: TransactionRecord, ghost t: TransactionRecord, reason: Reason) returns (o: Outcome)
      requires disk.txn == Some(Encoded(t)) && SafeName(pending.before.filename)
      requires pending == t.(undo := NO_RECORD, nextManifest := Raw(""), committed := false)
      modifies this`disk, this`writes, this`commits, this`torn
      ensures old(torn) ==> torn
      ensures o == Refused(reason) || o == Crashed
      ensures o == Refused(reason) && !torn && t.committed ==> disk == Undone(old(disk), pending)
      ensures !t.committed ==> Settled(disk) == Settled(old(disk))
      ensures torn ==> old(torn) || t.committed
      ensures o == Crashed && t.committed ==> torn
      ensures commits == old(commits) && writes >= old(writes)
      ensures AllWork(old(writes), writes) ==> o == Refused(reason) && disk.txn.None?
      ensures disk.manifest == old(disk).manifest || disk.manifest == RestoreDoc(pending.priorManifest)
      ensures faults(old(writes)).Fails? ==> disk == old(disk) && o == Refused(reason) && writes == old(writes) + 1
    {
      var a := Abort(pending, t);
      o := if a.Crashed? then Crashed else Refused(reason);
    }

    /** beginFileTransaction (manager.go:364-401): settle the directory, check the expectation. */
    method BeginFileTransaction(filename: string, expected: Option<Expectation>)
      returns (o: Outcome, pending: TransactionRecord)
      modifies this`disk, this`writes, this`commits
      ensures Settled(disk) == Settled(old(disk)) && commits == old(commits) && writes >= old(writes)
      ensures o.Done? ==> disk == Settled(old(disk)) && disk.txn.None? && SafeName(filename)
      ensures o.Done? ==> MeetsExpectation(lib, disk.files, filename, expected)
      ensures o.Done? ==> pending == PendingRecord(disk, filename)
      ensures old(disk).txn.None? ==> disk == old(disk)
      ensures !o.Unclean?
      ensures AllWork(old(writes), writes) && Recoverable(old(disk)) ==>
        o == if !SafeName(filename) then Refused(BadName)
             else if !MeetsExpectation(lib, Settled(old(disk)).files, filename, expected) then Refused(Changed)
             else Done
      ensures ManifestFrom(disk, old(disk))
      ensures old(disk).txn.None? ==> writes == old(writes)
    {
      pending := PendingRecord(disk, filename);
      if !SafeName(filename) { return Refused(BadName), pending; }
      o := RecoverTransactions();
      if !o.Done? { return; }
      if !MeetsExpectation(lib, disk.files, filename, expected) { return Refused(Changed), pending; }
      pending := PendingRecord(disk, filename);
    }

    /** The shared tail of Apply and Remove (manager.go:280-292, 343-355): write the commit
        record, then the undo record and the manifest, then drop the transaction record. */
    method CommitAndPublish(pending: TransactionRecord, ghost before: Disk, filename: string, undo: RollbackRecord,
                            next: PackManifest) returns (o: Outcome)
      requires before.txn.None? && SafeName(filename)
      requires pending == PendingRecord(before, filename) && disk.txn == Some(Encoded(pending))
      requires disk.files - {filename} == before.files - {filename}
      requires disk.undo == before.undo && disk.manifest == before.manifest
      modifies this`disk, this`writes, this`commits, this`torn
      ensures old(torn) ==> torn
      ensures var spec := Ok(Disk(old(disk).files, Some(Encoded(next)), Some(Encoded(undo)), None));
        !torn ==> Atomic(o, before, spec, Settled(disk), commits - old(commits))
      ensures o.Done? ==> Settled(disk).files == old(disk).files
      ensures !o.Unclean?
      ensures writes >= old(writes)
      ensures AllWork(old(writes), writes) ==> o.Done? && disk.txn.None?
      ensures AllWork(old(writes), writes) ==> torn == old(torn)
      ensures !torn ==> disk.manifest in {before.manifest, Cleared(before).manifest, Settled(disk).manifest}
    {
      var t := pending.(committed := true, undo := undo, nextManifest := Encoded(next));
      PendingSettles(before, filename, disk);
      RestoreCurrent(before.files, disk.files, filename);
      var w := Write(disk.(txn := Some(Encoded(t))));
      if w.Crash? { return Crashed; }
      if !w.Works? {
        o := Fail(pending, if w.FailsLate? then t else pending, WriteFailed);
        return;
      }
      w := Write(disk.(undo := Some(Encoded(undo))));
      if w.Crash? { return Crashed; }
      if !w.Works? { o := Fail(pending, t, WriteFailed); return; }
      w := Write(disk.(manifest := RestoreDoc(Encoded(next))));
      if w.Crash? { return Crashed; }
      if !w.Works? { o := Fail(pending, t, WriteFailed); return; }
      w := Write(disk.(txn := None));
      o := if w.Crash? then Crashed else Done;
    }

    /** Write the pending record, then change the target file (manager.go:265-271, 332-338). */
    method Stage(pending: TransactionRecord, target: RollbackRecord) returns (o: Outcome)
      requires disk.txn.None? && SafeName(target.filename) && pending == PendingRecord(disk, target.filename)
      modifies this`disk, this`writes, this`commits, this`torn
      ensures old(torn) ==> torn
      ensures o.Done? ==>
        disk == old(disk).(files := RestoreFile(old(disk).files, target), txn := Some(Encoded(pending)))
      ensures Kept(old(disk), Settled(disk))
      ensures !o.Unclean?
      ensures commits == old(commits) && torn == old(torn) && writes >= old(writes)
      ensures AllWork(old(writes), writes) ==> o.Done?
      ensures disk.manifest == old(disk).manifest || disk.manifest == Cleared(old(disk)).manifest
      ensures o.Done? ==> writes == old(writes) + 2
      ensures faults(old(writes)).Works? && faults(old(writes) + 1).Works? ==> o.Done?
    {
      ghost var before := disk;
      var w := Write(disk.(txn := Some(Encoded(pending))));
      if disk != before { PendingSettles(before, target.filename, disk); }
      if !w.Works? { return if w.Crash? then Crashed else Refused(WriteFailed); }
      w := Write(disk.(files := RestoreFile(disk.files, target)));
      PendingSettles(before, target.filename, disk);
      if w.Crash? { return Crashed; }
      if !w.Works? { o := Fail(pending, pending, WriteFailed); return; }
      o := Done;
    }

    /** Validate the staged pack set, then commit (manager.go:272-297, 339-361). */
    method Conclude(pending: TransactionRecord, ghost before: Disk, filename: string, name: string,
                    next: Result<PackManifest, Reason>) returns (o: Outcome)
      requires before.txn.None? && SafeName(filename)
      requires pending == PendingRecord(before, filename)
      requires disk.(files := before.files) == before.(txn := Some(Encoded(pending)))
      requires disk.files - {filename} == before.files - {filename}
      modifies this
      ensures old(torn) ==> torn
      ensures var spec := if !LoadsDir(lib, old(disk).files) then Err(InvalidSet)
                          else if next.Err? then Err(next.error)
                          else Ok(Disk(old(disk).files, Some(Encoded(next.value)),
                                       Some(Encoded(pending.before.(name := name,
                                           manifest := pending.priorManifest))), None));
        && (!torn ==> Atomic(o, before, spec, Settled(disk), commits - old(commits)))
        && (AllWork(old(writes), writes) ==>
              torn == old(torn) && disk.txn.None? && o == if spec.Ok? then Done else Refused(spec.error))
      ensures o.Done? ==> active == SnapshotOf(lib, Settled(disk).files)
      ensures !o.Done? ==> active == old(active)
      ensures writes >= old(writes)
      ensures !torn ==> disk.manifest in {before.manifest, Cleared(before).manifest, Settled(disk).manifest}
    {
      PendingSettles(before, filename, disk);
      if !LoadsDir(lib, disk.files) { o := Fail(pending, pending, InvalidSet); return; }
      if next.Err? { o := Fail(pending, pending, next.error); return; }
      var snapshot := SnapshotOf(lib, disk.files);
      var undo := pending.before.(name := name, manifest := pending.priorManifest);
      o := CommitAndPublish(pending, before, filename, undo, next.value);
      if o.Done? { active := snapshot; }
    }

    /** ApplyPackFileWithState (manager.go:249-298). */
    method Apply(filename: string, content: string, expected: Option<Expectation>, origin: string, pinned: bool)
      returns (o: Outcome)
      modifies this
      ensures old(torn) ==> torn
      ensures var before := Settled(old(disk));
        var spec := ApplySpec(lib, before, filename, content, expected, origin, pinned);
        && (!torn ==> Atomic(o, before, spec, Settled(disk), commits - old(commits)))
        && (AllWork(old(writes), writes) && Recoverable(old(disk)) ==>
              torn == old(torn) && (old(disk).txn.None? ==> disk.txn.None?) &&
                o == if spec.Ok? then Done else Refused(spec.error))
      ensures o.Done? ==> active == SnapshotOf(lib, Settled(disk).files)
      ensures !o.Done? ==> active == old(active)
      ensures !torn ==> ManifestFrom(disk, old(disk))
      ensures writes >= old(writes)
    {
      var pack := lib.loadPack(content);
      if pack.None? { return Refused(BadPack); }
      var pending;
      o, pending := BeginFileTransaction(filename, expected);
      if !o.Done? { return; }
      o := ApplyTo(filename, content, origin, pinned, pack.value, pending, expected);
    }

    /** The rest of an apply, on a settled directory (manager.go:265-297). */
    method ApplyTo(filename: string, content: string, origin: string, pinned: bool, pack: Pack,
                   pending: TransactionRecord, ghost expected: Option<Expectation>) returns (o: Outcome)
      requires disk.txn.None? && SafeName(filename) && MeetsExpectation(lib, disk.files, filename, expected)
      requires lib.loadPack(content) == Some(pack) && pending == PendingRecord(disk, filename)
      modifies this
      ensures old(torn) ==> torn
      ensures var spec := ApplySpec(lib, old(disk), filename, content, expected, origin, pinned);
        && (!torn ==> Atomic(o, old(disk), spec, Settled(disk), commits - old(commits)))
        && (AllWork(old(writes), writes) ==>
              torn == old(torn) && disk.txn.None? && o == if spec.Ok? then Done else Refused(spec.error))
      ensures o.Done? ==> active == SnapshotOf(lib, Settled(disk).files)
      ensures !o.Done? ==> active == old(active)
      ensures !torn ==> disk.manifest in {old(disk).manifest, Cleared(old(disk)).manifest, Settled(disk).manifest}
      ensures writes >= old(writes)
    {
      hide SafeName, LoadsDir, NextManifestForApply, SnapshotOf, MeetsExpectation;
      ghost var before := disk;
      o := Stage(pending, RollbackRecord(filename, true, content, "", Raw("")));
      if !o.Done? { return; }
      var next := NextManifestForApply(lib, pending.priorManifest, pack, filename, content, origin, pinned,
                                       pending.before);
      o := Conclude(pending, before, filename, pack.name, next);
    }

    /** RemovePackFileExpected (manager.go:305-362). */
    method Remove(filename: string, expected: Option<Expectation>) returns (o: Outcome)
      modifies this
      ensures old(torn) ==> torn
      ensures var before, spec := Settled(old(disk)), RemoveSpec(lib, Settled(old(disk)), filename, expected);
        && (!torn ==> Atomic(o, before, spec, Settled(disk), commits - old(commits)))
        && (AllWork(old(writes), writes) && Recoverable(old(disk)) ==>
              torn == old(torn) && (old(disk).txn.None? ==> disk.txn.None?) &&
                o == if spec.Ok? then Done else Refused(spec.error))
      ensures o.Done? ==> active == SnapshotOf(lib, Settled(disk).files)
      ensures !o.Done? ==> active == old(active)
      ensures !torn ==> ManifestFrom(disk, old(disk))
      ensures writes >= old(writes)
    {
      var pending;
      o, pending := BeginFileTransaction(filename, expected);
      if !o.Done? { return; }
      if !pending.before.existed { return Refused(Missing); }
      var pack := lib.loadPack(pending.before.content);
      if pack.None? { return Refused(BadPack); }
      var next := NextManifestForRemove(pending.priorManifest, pack.value.name, pending.before);
      if next.Err? { return Refused(next.error); }
      ghost var before := disk;
      o := Stage(pending, RollbackRecord(filename, false, "", "", Raw("")));
      if !o.Done? { return; }
      o := Conclude(pending, before, filename, pack.value.name, next);
    }

    /** rollbackWithRecord (manager.go:526-584); `override_` is RollbackPack's record. */
    method RollbackWithRecord(override_: Option<RollbackRecord>) returns (o: Outcome)
      modifies this
      ensures old(torn) ==> torn
      ensures var before := Settled(old(disk));
        var record := if override_.Some? then Ok(override_.value) else UndoRecord(before);
        var spec := if record.Err? then Err(record.error) else RestoreSpec(lib, before, record.value);
        && (!torn ==> Atomic(o, before, spec, Settled(disk), commits - old(commits)))
        && (AllWork(old(writes), writes) && Recoverable(old(disk)) ==>
              torn == old(torn) && (old(disk).txn.None? ==> disk.txn.None?) &&
                o == if spec.Ok? then Done else Refused(spec.error))
      ensures o.Done? ==> active == SnapshotOf(lib, Settled(disk).files)
      ensures !o.Done? ==> active == old(active)
      ensures var before := Settled(old(disk));
        var record := if override_.Some? then Ok(override_.value) else UndoRecord(before);
        && (!torn ==>
              ManifestFrom(disk, old(disk)) || (record.Ok? && disk.manifest == RestoreDoc(record.value.manifest)))
        && (old(disk).txn.None? && AllWork(old(writes), old(writes) + 2) && StuckCommit(old(writes) + 2)
            && record.Ok? && RestoreSpec(lib, before, record.value).Ok? ==>
              o == Refused(WriteFailed) && torn == old(torn) && writes == old(writes) + 5 &&
                disk == Staged(before, record.value))
      ensures writes >= old(writes)
      ensures o.Done? ==> disk.txn.None?
    {
      o := RecoverTransactions();
      if !o.Done? { return; }
      var record;
      if override_.Some? {
        record := override_.value;
      } else {
        var r := UndoRecord(disk);
        if r.Err? { return Refused(r.error); }
        record := r.value;
      }
      o := RestoreFrom(record);
    }

    /** The restoring part of a rollback, on a settled directory (manager.go:542-583). */
    method RestoreFrom(record: RollbackRecord) returns (o: Outcome)
      requires disk.txn.None?
      modifies this
      ensures old(torn) ==> torn
      ensures var spec := RestoreSpec(lib, old(disk), record);
        && (!torn ==> Atomic(o, old(disk), spec, Settled(disk), commits - old(commits)))
        && (AllWork(old(writes), writes) ==>
              torn == old(torn) && disk.txn.None? && o == if spec.Ok? then Done else Refused(spec.error))
      ensures o.Done? ==> active == SnapshotOf(lib, Settled(disk).files)
      ensures !o.Done? ==> active == old(active)
      ensures writes >= old(writes)
      ensures disk.manifest in {old(disk).manifest, Cleared(old(disk)).manifest, RestoreDoc(record.manifest)}
      ensures AllWork(old(writes), old(writes) + 2) && StuckCommit(old(writes) + 2)
              && RestoreSpec(lib, old(disk), record).Ok? ==>
        o == Refused(WriteFailed) && torn == old(torn) && writes == old(writes) + 5 && disk == Staged(old(disk), record)
      ensures o.Done? ==> disk.txn.None?
    {
      if record.filename == "" { return Refused(NoUndo); }
      var pending;
      o, pending := BeginFileTransaction(record.filename, None);
      if !o.Done? { return; }
      ghost var before := disk;
      o := Stage(pending, record);
      if !o.Done? { return; }
      o := ConcludeRollback(pending, before, record);
    }

    /** The rest of a rollback (manager.go:558-583): put the old manifest back, validate, commit. */
    method ConcludeRollback(pending: TransactionRecord, ghost before: Disk, record: RollbackRecord) returns (o: Outcome)
      requires before.txn.None? && SafeName(record.filename)
      requires pending == PendingRecord(before, record.filename)
      requires disk.(files := before.files) == before.(txn := Some(Encoded(pending)))
      requires disk.files - {record.filename} == before.files - {record.filename}
      modifies this
      ensures old(torn) ==> torn
      ensures var undo := pending.before.(name := record.name, manifest := pending.priorManifest);
        var spec := if !LoadsDir(lib, old(disk).files) then Err(InvalidSet)
                    else Ok(Disk(old(disk).files, RestoreDoc(record.manifest), Some(Encoded(undo)), None));
        && (!torn ==> Atomic(o, before, spec, Settled(disk), commits - old(commits)))
        && (AllWork(old(writes), writes) ==>
              torn == old(torn) && disk.txn.None? && o == if spec.Ok? then Done else Refused(spec.error))
      ensures o.Done? ==> active == SnapshotOf(lib, Settled(disk).files)
      ensures !o.Done? ==> active == old(active)
      ensures writes >= old(writes)
      ensures disk.manifest in {before.manifest, Cleared(before).manifest, RestoreDoc(record.manifest)}
      ensures StuckCommit(old(writes)) && LoadsDir(lib, old(disk).files) ==>
        o == Refused(WriteFailed) && torn == old(torn) && writes == old(writes) + 3 &&
          disk == old(disk).(manifest := RestoreDoc(record.manifest))
      ensures o.Done? ==> disk.txn.None?
    {
      var w := Write(disk.(manifest := RestoreDoc(record.manifest)));
      PendingSettles(before, record.filename, disk);
      if w.Crash? { return Crashed; }
      if !w.Works? { o := Fail(pending, pending, WriteFailed); return; }
      if !LoadsDir(lib, disk.files) { o := Fail(pending, pending, InvalidSet); return; }
      var snapshot := SnapshotOf(lib, disk.files);
      o := CommitRollback(pending, before, record);
      if o.Done? { active := snapshot; }
    }

    method CommitRollback(pending: TransactionRecord, ghost before: Disk, record: RollbackRecord) returns (o: Outcome)
      requires before.txn.None? && SafeName(record.filename)
      requires pending == PendingRecord(before, record.filename)
      requires disk.txn == Some(Encoded(pending)) && disk.manifest == RestoreDoc(record.manifest) &&
        disk.undo == before.undo
      requires disk.files - {record.filename} == before.files - {record.filename}
      modifies this`disk, this`writes, this`commits, this`torn
      ensures old(torn) ==> torn
      ensures var undo := pending.before.(name := record.name, manifest := pending.priorManifest);
        var spec := Ok(old(disk).(undo := Some(Encoded(undo)), txn := None));
        !torn ==> Atomic(o, before, spec, Settled(disk), commits - old(commits))
      ensures o.Done? ==> Settled(disk).files == old(disk).files
      ensures AllWork(old(writes), writes) ==> torn == old(torn) && disk.txn.None? && o.Done?
      ensures writes >= old(writes)
      ensures disk.manifest in {old(disk).manifest, Cleared(before).manifest}
      ensures faults(old(writes)).Fails? && faults(old(writes) + 1).Fails? ==>
        o == Refused(WriteFailed) && torn == old(torn) && writes == old(writes) + 2 && disk == old(disk)
      ensures o.Done? ==> disk.txn.None?
    {
      var undo := pending.before.(name := record.name, manifest := pending.priorManifest);
      var t := pending.(committed := true, undo := undo, nextManifest := ReadDoc(disk.manifest));
      PendingSettles(before, record.filename, disk);
      RestoreCurrent(before.files, disk.files, record.filename);
      var w := Write(disk.(txn := Some(Encoded(t))));
      if w.Crash? { return Crashed; }
      if !w.Works? {
        o := Fail(pending, if w.FailsLate? then t else pending, WriteFailed);
        return;
      }
      w := Write(disk.(undo := Some(Encoded(undo))));
      if w.Crash? { return Crashed; }
      if !w.Works? { o := Fail(pending, t, WriteFailed); return; }
      w := Write(disk.(txn := None));
      o := if w.Works? then Done else if w.Crash? then Crashed else Unclean;
    }

    /** Rollback (manager.go:488-492). */
    method Rollback() returns (o: Outcome)
      modifies this
      ensures old(torn) ==> torn
      ensures var before, spec := Settled(old(disk)), RollbackSpec(lib, Settled(old(disk)));
        && (!torn ==> Atomic(o, before, spec, Settled(disk), commits - old(commits)))
        && (AllWork(old(writes), writes) && Recoverable(old(disk)) ==>
              torn == old(torn) && (old(disk).txn.None? ==> disk.txn.None?) &&
                o == if spec.Ok? then Done else Refused(spec.error))
      ensures o.Done? ==> active == SnapshotOf(lib, Settled(disk).files)
      ensures !o.Done? ==> active == old(active)
      ensures var before := Settled(old(disk));
        var record := UndoRecord(before);
        && (!torn ==>
              ManifestFrom(disk, old(disk)) || (record.Ok? && disk.manifest == RestoreDoc(record.value.manifest)))
        && (old(disk).txn.None? && AllWork(old(writes), old(writes) + 2) && StuckCommit(old(writes) + 2)
            && record.Ok? && RestoreSpec(lib, before, record.value).Ok? ==>
              o == Refused(WriteFailed) && torn == old(torn) && writes == old(writes) + 5 &&
                disk == Staged(before, record.value))
      ensures writes >= old(writes)
      ensures o.Done? ==> disk.txn.None?
    {
      o := RollbackWithRecord(None);
    }

    /** RollbackPack (manager.go:494-520).  The manifest is read before the directory is
        settled, so the specification names the file as it was on disk. */
    method RollbackPack(name: string) returns (o: Outcome)
      modifies this
      ensures old(torn) ==> torn
      ensures var before := Settled(old(disk));
        var spec := RollbackPackSpec(lib, old(disk).manifest, before, name);
        && (!torn ==> Atomic(o, before, spec, Settled(disk), commits - old(commits)))
        && (AllWork(old(writes), writes) && Recoverable(old(disk)) ==>
              torn == old(torn) && (old(disk).txn.None? ==> disk.txn.None?) &&
                o == if spec.Ok? then Done else Refused(spec.error))
      ensures o.Done? ==> active == SnapshotOf(lib, Settled(disk).files)
      ensures !o.Done? ==> active == old(active)
      ensures var before := Settled(old(disk));
        var record := PackRecord(old(disk).manifest, name);
        && (!torn ==>
              ManifestFrom(disk, old(disk)) || (record.Ok? && disk.manifest == RestoreDoc(record.value.manifest)))
        && (old(disk).txn.None? && AllWork(old(writes), old(writes) + 2) && StuckCommit(old(writes) + 2)
            && record.Ok? && RestoreSpec(lib, before, record.value).Ok? ==>
              o == Refused(WriteFailed) && torn == old(torn) && writes == old(writes) + 5 &&
                disk == Staged(before, record.value))
      ensures writes >= old(writes)
      ensures o.Done? ==> disk.txn.None?
    {
      var record := PackRecord(disk.manifest, name);
      if record.Err? { return Refused(record.error); }
      o := RollbackWithRecord(Some(record.value));
    }
  }
}
