/** Where the pack manager does not keep its promises, and exactly when. */
module PackGaps {
  import opened Wrappers
  import opened PackDisk
  import opened PackManager
  import opened PackRuns
  import opened PackUndo
  import opened PackSession

  // ----- zero-length documents

  /** Writing the pending record keeps the meaning of the directory exactly when neither
      document is a zero-length file: such a file is removed, not restored. */
  lemma PendingKeepsIff(d: Disk, f: string)
    requires d.txn.None? && SafeName(f)
    ensures Settled(d.(txn := Some(Encoded(PendingRecord(d, f))))) == d <==> NoBlank(d)
  {
    RestoreCurrent(d.files, d.files, f);
  }

  // ----- an abort that is interrupted after the commit record

  /** The directory after `k` steps of an abort (manager.go:472-480). */
  function AbortSteps(d: Disk, p: TransactionRecord, k: nat): Disk
  {
    var d1 := if k >= 1 then d.(files := RestoreFile(d.files, p.before)) else d;
    var d2 := if k >= 2 then d1.(undo := RestoreDoc(p.priorUndo)) else d1;
    if k >= 3 then d2.(manifest := RestoreDoc(p.priorManifest)) else d2
  }

  /** The record of a transaction that changes `f` and is committed. */
  function CommitRecord(before: Disk, f: string, undo: RollbackRecord, next: Blob<PackManifest>): TransactionRecord
  {
    PendingRecord(before, f).(committed := true, undo := undo, nextManifest := next)
  }

  /** The manifest that is there after such an abort and a recovery. */
  function TornManifest(before: Disk, d: Disk, next: Blob<PackManifest>, k: nat): Option<Blob<PackManifest>>
  {
    if next != Raw("") then Some(next) else if k >= 3 then before.manifest else d.manifest
  }

  /** An abort that begins with the commit record on disk and stops before its last step.  If it failed
      at once, the directory stands for the state after the operation, although it was refused.  After
      one to three steps it has the old file, the new undo record and either manifest: it stands for
      the state after the operation exactly when neither file nor manifest tells the two apart, and
      for the state before exactly when undo record and manifest are those from before. */
  lemma TornAbort(before: Disk, d: Disk, f: string, undo: RollbackRecord, next: Blob<PackManifest>, k: nat)
    requires before.txn.None? && NoBlank(before) && SafeName(f) && k <= 3
    requires d.files - {f} == before.files - {f} && d.txn == Some(Encoded(CommitRecord(before, f, undo, next)))
    ensures var after, torn, m := Settled(d), Settled(AbortSteps(d, PendingRecord(before, f), k)),
                                  TornManifest(before, d, next, k);
      && torn == Disk(if k == 0 then d.files else before.files, m, Some(Encoded(undo)), None)
      && (torn == after <==>
            k == 0 || (d.files == before.files && (next != Raw("") || k < 3 || d.manifest == before.manifest)))
      && (torn == before <==>
            (k > 0 || d.files == before.files) && before.undo == Some(Encoded(undo)) && m == before.manifest)
  {
    RestoreCurrent(before.files, d.files, f);
  }

  /** The undo record an operation on `f` leaves. */
  function UndoOf(before: Disk, f: string, name: string): RollbackRecord
  {
    CurrentRecord(before.files, f).(name := name, manifest := ReadDoc(before.manifest))
  }

  /** Apply, Remove and RollbackPack write a manifest that differs from the one before: such an abort is
      harmless exactly when it failed at once or the operation did not change the file
      (manager.go:286-291, 349-354). */
  lemma TornChangeIff(before: Disk, d: Disk, f: string, name: string, next: PackManifest, k: nat)
    requires before.txn.None? && NoBlank(before) && SafeName(f) && k <= 3
    requires d.files - {f} == before.files - {f}
    requires d.txn == Some(Encoded(CommitRecord(before, f, UndoOf(before, f, name), Encoded(next))))
    requires before.manifest != Some(Encoded(next))
    ensures var after, torn := Settled(d), Settled(AbortSteps(d, PendingRecord(before, f), k));
      torn == before || torn == after <==> k == 0 || d.files == before.files
  {
    TornAbort(before, d, f, UndoOf(before, f, name), Encoded(next), k);
  }

  /** They do write another manifest; RollbackPack when the manifest it read is the settled one. */
  lemma NextManifestDiffers(lib: Library, before: Disk, op: Op)
    requires before.txn.None? && !op.Rollback? && Meaning(lib, before, op).Ok?
    ensures Meaning(lib, before, op).value.manifest != before.manifest
  {
    hide SafeName, LoadsDir, RestoreFile, MeetsExpectation;
    var m' := Meaning(lib, before, op).value.manifest.value.value;
    if op.RollbackPack? {
      var m := ReadManifest(before.manifest).value;
      assert |HistoryOf(m', op.name)| == |HistoryOf(m, op.name)| - 1;
    } else {
      var m := DecodeManifest(ReadDoc(before.manifest)).value;
      var content := if op.Apply? then op.content else before.files[op.filename];
      var name := lib.loadPack(content).value.name;
      assert |HistoryOf(m', name)| == |HistoryOf(m, name)| + 1;
    }
  }

  /** Rollback may put back a directory without a manifest.  Such an abort is harmless exactly when it
      failed at once, or the file is unchanged and a manifest was not taken away (manager.go:576-578). */
  lemma TornRollbackIff(before: Disk, d: Disk, r: RollbackRecord, k: nat)
    requires before.txn.None? && NoBlank(before) && SafeName(r.filename) && k <= 3
    requires before.undo == Some(Encoded(r))
    requires d.files == RestoreFile(before.files, r) && d.manifest == RestoreDoc(r.manifest)
    requires d.txn == Some(Encoded(CommitRecord(before, r.filename, UndoOf(before, r.filename, r.name),
        ReadDoc(d.manifest))))
    ensures var after, torn := Settled(d), Settled(AbortSteps(d, PendingRecord(before, r.filename), k));
      torn == before || torn == after <==>
        k == 0 || (d.files == before.files && (k < 3 || d.manifest.Some? || before.manifest.None?))
  {
    var undo := UndoOf(before, r.filename, r.name);
    TornAbort(before, d, r.filename, undo, ReadDoc(d.manifest), k);
    RestoreCurrent(before.files, before.files, r.filename);
    if undo == r { assert RestoreFile(before.files, r) == before.files; }
  }

  // ----- a manifest read too early

  const EMPTY := Disk(map[], None, None, None)

  /** Two versions of pack a with different digests, and a pack b. */
  ghost predicate TwoPacks(lib: Library, a1: string, a2: string, b1: string)
  {
    && lib.loadPack(a1) == Some(Pack("a", "1")) && lib.loadPack(a2) == Some(Pack("a", "2"))
    && lib.loadPack(b1) == Some(Pack("b", "1")) && lib.digest(a1) != lib.digest(a2)
  }

  function InstallA(lib: Library, content: string, version: string): PackInstall
  {
    PackInstall("a", "a.yaml", version, lib.digest(content), "custom", false)
  }

  function InstallB(lib: Library, b1: string): PackInstall
  {
    PackInstall("b", "b.yaml", "1", lib.digest(b1), "custom", false)
  }

  const NEW_A := PackRevision("a.yaml", false, "", None)

  const NEW_B := PackRevision("b.yaml", false, "", None)

  function Manifest1(lib: Library, a1: string): PackManifest
  {
    PackManifest(1, map["a" := InstallA(lib, a1, "1")], map["a" := [NEW_A]])
  }

  function Manifest2(lib: Library, a1: string, b1: string): PackManifest
  {
    PackManifest(1, map["a" := InstallA(lib, a1, "1"), "b" := InstallB(lib, b1)], map["a" := [NEW_A], "b" := [NEW_B]])
  }

  function Manifest3(lib: Library, a1: string, a2: string, b1: string): PackManifest
  {
    PackManifest(1, map["a" := InstallA(lib, a2, "2"), "b" := InstallB(lib, b1)],
                 map["a" := [NEW_A, PackRevision("a.yaml", true, a1, Some(InstallA(lib, a1, "1")))], "b" := [NEW_B]])
  }

  function Disk1(lib: Library, a1: string): Disk
  {
    Disk(map["a.yaml" := a1], Some(Encoded(Manifest1(lib, a1))),
         Some(Encoded(RollbackRecord("a.yaml", false, "", "a", Raw("")))), None)
  }

  function Disk2(lib: Library, a1: string, b1: string): Disk
  {
    Disk(map["a.yaml" := a1, "b.yaml" := b1], Some(Encoded(Manifest2(lib, a1, b1))),
         Some(Encoded(RollbackRecord("b.yaml", false, "", "b", Encoded(Manifest1(lib, a1))))), None)
  }

  function Disk3(lib: Library, a1: string, a2: string, b1: string): Disk
  {
    Disk(map["a.yaml" := a2, "b.yaml" := b1], Some(Encoded(Manifest3(lib, a1, a2, b1))),
         Some(Encoded(LastUndo(lib, a1, b1))), None)
  }

  function LastUndo(lib: Library, a1: string, b1: string): RollbackRecord
  {
    RollbackRecord("a.yaml", true, a1, "a", Encoded(Manifest2(lib, a1, b1)))
  }

  lemma Names()
    ensures SafeName("a.yaml") && SafeName("b.yaml") && Stem("a.yaml") == "a" && Stem("b.yaml") == "b" && "a" != "b"
    ensures "a.yaml" != "b.yaml"
  {
    assert DotYaml("a.yaml") && DotYaml("b.yaml");
    assert "a.yaml"[..1] == "a" && "b.yaml"[..1] == "b";
    assert "a.yaml"[0] != "b.yaml"[0] && "a"[0] != "b"[0];
  }

  lemma ApplyGives(lib: Library, d: Disk, f: string, content: string, pack: Pack, next: PackManifest)
    requires lib.loadPack(content) == Some(pack) && SafeName(f) && LoadsDir(lib, d.files[f := content])
    requires NextManifestForApply(lib, ReadDoc(d.manifest), pack, f, content, "custom", false,
                                  CurrentRecord(d.files, f)) == Ok(next)
    ensures ApplySpec(lib, d, f, content, None, "custom", false) ==
      Ok(Disk(d.files[f := content], Some(Encoded(next)), Some(Encoded(UndoOf(d, f, pack.name))), None))
  {
    hide LoadsDir, SafeName, NextManifestForApply;
  }

  /** A new pack: its revision says that there was no file. */
  lemma NewPackManifest(lib: Library, m: PackManifest, pack: Pack, f: string, content: string)
    requires Stem(f) == pack.name && pack.name !in m.history
    ensures NextManifestForApply(lib, Encoded(m), pack, f, content, "custom", false, CurrentRecord(map[], f)) ==
      Ok(m.(entries := m.entries[pack.name :=
              PackInstall(pack.name, f, pack.version, lib.digest(content), "custom", false)],
            history := m.history[pack.name := [PackRevision(f, false, "", None)]]))
  {
    hide Stem;
    assert [] + [PackRevision(f, false, "", None)] == [PackRevision(f, false, "", None)];
  }

  /** A new file of pack `name` in a directory of one file of another pack. */
  lemma TwoLoad(lib: Library, a: string, b: string)
    requires lib.loadPack(a).Some? && lib.loadPack(b).Some? && lib.loadPack(a).value.name != lib.loadPack(b).value.name
    ensures LoadsDir(lib, map["a.yaml" := a, "b.yaml" := b]) && LoadsDir(lib, map["a.yaml" := a])
  {
    hide YamlName;
  }

  lemma FirstApply(lib: Library, a1: string)
    requires lib.loadPack(a1) == Some(Pack("a", "1"))
    ensures ApplySpec(lib, EMPTY, "a.yaml", a1, None, "custom", false) == Ok(Disk1(lib, a1))
  {
    hide SafeName, Stem, YamlName, NextManifestForApply, ApplySpec;
    Names();
    NewPackManifest(lib, EMPTY_MANIFEST, Pack("a", "1"), "a.yaml", a1);
    NoPriorManifest(lib, Pack("a", "1"), "a.yaml", a1);
    assert EMPTY_MANIFEST.entries["a" := InstallA(lib, a1, "1")] == Manifest1(lib, a1).entries;
    assert EMPTY_MANIFEST.history["a" := [NEW_A]] == Manifest1(lib, a1).history;
    assert EMPTY.files["a.yaml" := a1] == Disk1(lib, a1).files;
    ApplyGives(lib, EMPTY, "a.yaml", a1, Pack("a", "1"), Manifest1(lib, a1));
  }

  lemma NoPriorManifest(lib: Library, pack: Pack, f: string, content: string)
    ensures NextManifestForApply(lib, Raw(""), pack, f, content, "custom", false, CurrentRecord(map[], f)) ==
      NextManifestForApply(lib, Encoded(EMPTY_MANIFEST), pack, f, content, "custom", false, CurrentRecord(map[], f))
  {
  }

  lemma SecondApply(lib: Library, a1: string, b1: string)
    requires lib.loadPack(a1) == Some(Pack("a", "1")) && lib.loadPack(b1) == Some(Pack("b", "1"))
    ensures ApplySpec(lib, Disk1(lib, a1), "b.yaml", b1, None, "custom", false) == Ok(Disk2(lib, a1, b1))
  {
    hide SafeName, Stem, YamlName, NextManifestForApply, ApplySpec, LoadsDir;
    Names();
    var d, m := Disk1(lib, a1), Manifest1(lib, a1);
    NewPackManifest(lib, m, Pack("b", "1"), "b.yaml", b1);
    assert CurrentRecord(d.files, "b.yaml") == CurrentRecord(map[], "b.yaml");
    assert m.entries["b" := InstallB(lib, b1)] == Manifest2(lib, a1, b1).entries;
    assert m.history["b" := [NEW_B]] == Manifest2(lib, a1, b1).history;
    assert d.files["b.yaml" := b1] == Disk2(lib, a1, b1).files;
    TwoLoad(lib, a1, b1);
    ApplyGives(lib, d, "b.yaml", b1, Pack("b", "1"), Manifest2(lib, a1, b1));
  }

  /** A new version of a managed pack: its revision holds the old one. */
  lemma ReplacedPack(lib: Library, m: PackManifest, files: map<string, string>, pack: Pack, f: string, content: string)
    requires f in files && lib.loadPack(files[f]).Some? && lib.loadPack(files[f]).value.name == pack.name
    requires pack.name in m.history && pack.name in m.entries
    ensures var rev := PackRevision(f, true, files[f], Some(m.entries[pack.name]));
      NextManifestForApply(lib, Encoded(m), pack, f, content, "custom", false, CurrentRecord(files, f)) ==
        Ok(m.(entries := m.entries[pack.name :=
                PackInstall(pack.name, f, pack.version, lib.digest(content), "custom", false)],
              history := m.history[pack.name := m.history[pack.name] + [rev]]))
  {
    hide Stem;
  }

  lemma ReplacedManifest(lib: Library, a1: string, a2: string, b1: string)
    requires TwoPacks(lib, a1, a2, b1)
    ensures NextManifestForApply(lib, Encoded(Manifest2(lib, a1, b1)), Pack("a", "2"), "a.yaml", a2, "custom", false,
                                 CurrentRecord(Disk2(lib, a1, b1).files, "a.yaml")) == Ok(Manifest3(lib, a1, a2, b1))
  {
    hide Stem, SafeName, NextManifestForApply, CurrentRecord;
    Names();
    var m, m' := Manifest2(lib, a1, b1), Manifest3(lib, a1, a2, b1);
    var rev := PackRevision("a.yaml", true, a1, Some(InstallA(lib, a1, "1")));
    ReplacedPack(lib, m, Disk2(lib, a1, b1).files, Pack("a", "2"), "a.yaml", a2);
    assert m.history["a"] + [rev] == [NEW_A, rev];
    assert m.history["a" := [NEW_A, rev]] == m'.history;
    assert m.entries["a" := InstallA(lib, a2, "2")] == m'.entries;
  }

  lemma ThirdApply(lib: Library, a1: string, a2: string, b1: string)
    requires TwoPacks(lib, a1, a2, b1)
    ensures ApplySpec(lib, Disk2(lib, a1, b1), "a.yaml", a2, None, "custom", false) == Ok(Disk3(lib, a1, a2, b1))
  {
    hide SafeName, Stem, YamlName, NextManifestForApply, ApplySpec, LoadsDir;
    Names();
    var d := Disk2(lib, a1, b1);
    ReplacedManifest(lib, a1, a2, b1);
    assert d.files["a.yaml" := a2] == Disk3(lib, a1, a2, b1).files;
    TwoLoad(lib, a2, b1);
    ApplyGives(lib, d, "a.yaml", a2, Pack("a", "2"), Manifest3(lib, a1, a2, b1));
  }

  /** Rolling back the last change is allowed ... */
  lemma RollbackAllowed(lib: Library, a1: string, a2: string, b1: string)
    requires TwoPacks(lib, a1, a2, b1)
    ensures RestoreSpec(lib, Disk3(lib, a1, a2, b1), LastUndo(lib, a1, b1)).Ok?
  {
    hide SafeName, Stem, YamlName, LoadsDir;
    Names();
    assert RestoreFile(Disk3(lib, a1, a2, b1).files, LastUndo(lib, a1, b1)) == Disk2(lib, a1, b1).files;
    TwoLoad(lib, a1, b1);
  }

  /** ... and taking pack b off the manifest that rollback has put in place leaves pack a with the entry
      of its first version and the file of its second. */
  lemma StaleResult(lib: Library, a1: string, a2: string, b1: string, d: Disk)
    requires TwoPacks(lib, a1, a2, b1) && d == Staged(Disk3(lib, a1, a2, b1), LastUndo(lib, a1, b1))
    ensures Recoverable(d) && Settled(d) == Disk3(lib, a1, a2, b1)
    ensures var r := MeaningOn(lib, d, RollbackPack("b")); r.Ok? && !Agree(lib, r.value.files, r.value.manifest)
    ensures !ReadsRight(lib, d, "b")
  {
    hide SafeName, Stem, YamlName, LoadsDir;
    Names();
    var s, m := Disk3(lib, a1, a2, b1), Manifest2(lib, a1, b1);
    assert d.files - {"a.yaml"} == s.files - {"a.yaml"};
    PendingSettles(s, "a.yaml", d);
    var r := PackRecord(d.manifest, "b").value;
    assert r == RollbackRecord("b.yaml", false, "", "b", Encoded(Popped(m, "b")));
    assert RestoreFile(s.files, r) == map["a.yaml" := a2];
    TwoLoad(lib, a2, b1);
    var d' := MeaningOn(lib, d, RollbackPack("b")).value;
    assert Popped(m, "b").entries["a"] == InstallA(lib, a1, "1");
    assert !EntryOk(lib, d'.files, "a", Popped(m, "b").entries["a"]);
    assert m.entries["a"] == InstallA(lib, a1, "1") && !Current(lib, s.files, m.entries["a"]);
  }

  /** The fourth and the fifth write fail, all others work. */
  function StuckFaults(n: nat): Fault { if n == 3 || n == 4 then Fails else Works }

  /** From an empty directory: three packs are applied; in a second process the commit record of a
      Rollback cannot be written and neither can the first write of its abort; then RollbackPack, with
      every write working, writes the manifest it read too early: it disagrees with the files. */
  method StaleRun(lib: Library, a1: string, a2: string, b1: string) returns (m: SnapshotManager)
    requires TwoPacks(lib, a1, a2, b1)
    ensures fresh(m) && m.lib == lib && !m.torn
    ensures !Agree(lib, Settled(m.disk).files, Settled(m.disk).manifest)
  {
    hide Agree, TwoPacks, Disk1, Disk2, Disk3, LastUndo, ApplySpec, RestoreSpec, ManifestFrom, Staged;
    var first := Prepared(lib, a1, a2, b1);
    m := new SnapshotManager(lib, first.disk, StuckFaults);
    ghost var d := m.disk;
    UndoIs(lib, a1, a2, b1);
    RollbackAllowed(lib, a1, a2, b1);
    var o := m.Rollback();
    assert m.disk == Staged(d, LastUndo(lib, a1, b1));
    StaleResult(lib, a1, a2, b1, m.disk);
    ghost var commits := m.commits;
    o := m.RollbackPack("b");
  }

  /** From an empty directory: pack a is applied, then b, then a again; in a second process the commit
      record of a RollbackPack of a cannot be written and neither can the first write of its abort; the
      next RollbackPack of a, with every write working, is done and undoes two changes: a is gone.  The
      manifest it read was right about every other pack. */
  method EarlyUndoRun(lib: Library, a1: string, a2: string, b1: string) returns (m: SnapshotManager, o: Outcome)
    requires TwoPacks(lib, a1, a2, b1)
    ensures fresh(m) && m.lib == lib && !m.torn && o.Done?
    ensures Settled(m.disk).files == map["b.yaml" := b1]
  {
    hide TwoPacks, Disk3, Staged, MeaningOn, LastRecord, ManifestFrom, RollbackPackSpec;
    m := StuckUndo(lib, a1, a2, b1);
    EarlyResult(lib, a1, a2, b1, m.disk);
    MeaningOfPack(lib, m.disk, "a");
    o := m.RollbackPack("a");
  }

  /** The first RollbackPack, which is stuck at its commit record. */
  method StuckUndo(lib: Library, a1: string, a2: string, b1: string) returns (m: SnapshotManager)
    requires TwoPacks(lib, a1, a2, b1)
    ensures fresh(m) && m.lib == lib && !m.torn && forall n :: n >= m.writes ==> m.faults(n).Works?
    ensures m.disk == Staged(Disk3(lib, a1, a2, b1), LastRecord(lib, a1, a2, b1))
  {
    hide TwoPacks, Disk3, RestoreSpec, ManifestFrom, Staged, LastRecord, RollbackPackSpec;
    var first := Prepared(lib, a1, a2, b1);
    m := new SnapshotManager(lib, first.disk, StuckFaults);
    UndoIs(lib, a1, a2, b1);
    LastIs(lib, a1, a2, b1);
    var _ := m.RollbackPack("a");
  }

  lemma MeaningOfPack(lib: Library, d: Disk, name: string)
    ensures MeaningOn(lib, d, RollbackPack(name)) == RollbackPackSpec(lib, d.manifest, Settled(d), name)
  {
  }

  /** What RollbackPack of pack a restores first: its first version. */
  function LastRecord(lib: Library, a1: string, a2: string, b1: string): RollbackRecord
  {
    RollbackRecord("a.yaml", true, a1, "a", Encoded(Manifest2(lib, a1, b1)))
  }

  lemma LastIs(lib: Library, a1: string, a2: string, b1: string)
    requires TwoPacks(lib, a1, a2, b1)
    ensures PackRecord(Disk3(lib, a1, a2, b1).manifest, "a") == Ok(LastRecord(lib, a1, a2, b1))
    ensures RestoreSpec(lib, Disk3(lib, a1, a2, b1), LastRecord(lib, a1, a2, b1)).Ok?
  {
    hide SafeName, Stem, YamlName, LoadsDir;
    Names();
    var m := Manifest3(lib, a1, a2, b1);
    var h := m.history["a"];
    assert h[..|h| - 1] == [NEW_A];
    assert m.history["a" := [NEW_A]] == Manifest2(lib, a1, b1).history;
    assert m.entries["a" := InstallA(lib, a1, "1")] == Manifest2(lib, a1, b1).entries;
    assert Popped(m, "a") == Manifest2(lib, a1, b1);
    assert RestoreFile(Disk3(lib, a1, a2, b1).files, LastRecord(lib, a1, a2, b1)) == Disk2(lib, a1, b1).files;
    TwoLoad(lib, a1, b1);
  }

  /** The manifest that is in place has already lost the newest revision. */
  lemma EarlyResult(lib: Library, a1: string, a2: string, b1: string, d: Disk)
    requires TwoPacks(lib, a1, a2, b1) && d == Staged(Disk3(lib, a1, a2, b1), LastRecord(lib, a1, a2, b1))
    ensures Recoverable(d) && Settled(d) == Disk3(lib, a1, a2, b1) && ReadsRight(lib, d, "a") && !ReadsTop(d, "a")
    ensures var r := MeaningOn(lib, d, RollbackPack("a")); r.Ok? && r.value.files == map["b.yaml" := b1]
  {
    hide SafeName, Stem, YamlName, LoadsDir, ViewOf;
    Names();
    var s, m := Disk3(lib, a1, a2, b1), Manifest2(lib, a1, b1);
    assert d.files - {"a.yaml"} == s.files - {"a.yaml"};
    PendingSettles(s, "a.yaml", d);
    var r := PackRecord(d.manifest, "a").value;
    assert r == RollbackRecord("a.yaml", false, "", "a", Encoded(Popped(m, "a")));
    assert RestoreFile(s.files, r) == map["b.yaml" := b1];
    OneLoad(lib, b1);
  }

  lemma OneLoad(lib: Library, b: string)
    requires lib.loadPack(b).Some?
    ensures LoadsDir(lib, map["b.yaml" := b])
  {
    hide YamlName;
  }

  lemma UndoIs(lib: Library, a1: string, a2: string, b1: string)
    ensures var d := Disk3(lib, a1, a2, b1);
      d.txn.None? && Settled(d) == d && UndoRecord(d) == Ok(LastUndo(lib, a1, b1))
  {
  }

  method Prepared(lib: Library, a1: string, a2: string, b1: string) returns (m: SnapshotManager)
    requires TwoPacks(lib, a1, a2, b1)
    ensures fresh(m) && m.disk == Disk3(lib, a1, a2, b1)
  {
    hide ApplySpec, ManifestFrom;
    m := new SnapshotManager(lib, EMPTY, n => Works);
    FirstApply(lib, a1);
    var o := m.Apply("a.yaml", a1, None, "custom", false);
    SecondApply(lib, a1, b1);
    o := m.Apply("b.yaml", b1, None, "custom", false);
    ThirdApply(lib, a1, a2, b1);
    o := m.Apply("a.yaml", a2, None, "custom", false);
  }
}
