/** What whole runs of the pack manager keep: the manifest agrees with the files,
    Rollback undoes and redoes, and RollbackPack pops one pack's changes. */
module PackRuns {
  import opened Wrappers
  import opened PackDisk
  import opened PackManager

  datatype Op = Apply(filename: string, content: string, expected: Option<Expectation>, origin: string, pinned: bool)
              | Remove(filename: string, expected: Option<Expectation>)
              | Rollback
              | RollbackPack(name: string)

  /** An operation on a settled directory. */
  ghost function Meaning(lib: Library, d: Disk, op: Op): Result<Disk, Reason>
  {
    match op
    case Apply(filename, content, expected, origin, pinned) =>
      ApplySpec(lib, d, filename, content, expected, origin, pinned)
    case Remove(filename, expected) => RemoveSpec(lib, d, filename, expected)
    case Rollback => RollbackSpec(lib, d)
    case RollbackPack(name) => RollbackPackSpec(lib, d.manifest, d, name)
  }

  ghost predicate Step(lib: Library, d: Disk, op: Op, d': Disk)
  {
    d' == d || (Meaning(lib, d, op).Ok? && d' == Meaning(lib, d, op).value)
  }

  // ----- the invariant

  ghost predicate FileOk(lib: Library, files: map<string, string>, f: string)
    requires f in files
  {
    lib.loadPack(files[f]).Some? && lib.loadPack(files[f]).value.name == Stem(f)
  }

  /** Each pack file's stem is the name of the pack in it. */
  ghost predicate FilesOk(lib: Library, files: map<string, string>)
  {
    forall f :: f in files && YamlName(f) ==> FileOk(lib, files, f)
  }

  ghost predicate EntryOk(lib: Library, files: map<string, string>, name: string, e: PackInstall)
  {
    && e.name == name && Stem(e.filename) == name && YamlName(e.filename)
    && e.filename in files
    && lib.digest(files[e.filename]) == e.digest
    && lib.loadPack(files[e.filename]).Some? && lib.loadPack(files[e.filename]).value.name == name
  }

  ghost predicate RevisionOk(lib: Library, name: string, rev: PackRevision)
  {
    && Stem(rev.filename) == name && YamlName(rev.filename)
    && (rev.existed ==> lib.loadPack(rev.content).Some? && lib.loadPack(rev.content).value.name == name)
    && (rev.previous.Some? ==> rev.existed && rev.previous.value.filename == rev.filename
                               && rev.previous.value.name == name
                               && rev.previous.value.digest == lib.digest(rev.content))
  }

  ghost predicate EntriesOk(lib: Library, files: map<string, string>, entries: map<string, PackInstall>)
  {
    forall name :: name in entries ==> EntryOk(lib, files, name, entries[name])
  }

  ghost predicate HistoryOk(lib: Library, history: map<string, seq<PackRevision>>)
  {
    forall name, i :: name in history && 0 <= i < |history[name]| ==> RevisionOk(lib, name, history[name][i])
  }

  ghost predicate ManifestOk(lib: Library, files: map<string, string>, m: PackManifest)
  {
    m.version == 1 && EntriesOk(lib, files, m.entries) && HistoryOk(lib, m.history)
  }

  function ManifestOf(doc: Option<Blob<PackManifest>>): PackManifest
  {
    if doc.Some? && doc.value.Encoded? then doc.value.value else EMPTY_MANIFEST
  }

  /** Every manifest entry names an existing file with that digest and pack name. */
  ghost predicate Agree(lib: Library, files: map<string, string>, doc: Option<Blob<PackManifest>>)
  {
    && (doc.Some? ==> doc.value.Encoded?)
    && FilesOk(lib, files)
    && ManifestOk(lib, files, ManifestOf(doc))
  }

  ghost predicate UndoOk(lib: Library, files: map<string, string>, r: RollbackRecord)
  {
    SafeName(r.filename) && Agree(lib, RestoreFile(files, r), RestoreDoc(r.manifest))
  }

  ghost predicate Inv(lib: Library, d: Disk)
  {
    && d.txn.None?
    && LoadsDir(lib, d.files)
    && Agree(lib, d.files, d.manifest)
    && (d.undo.Some? ==> d.undo.value.Encoded? && UndoOk(lib, d.files, d.undo.value.value))
  }

  /** One pack per name: two files holding the pack `name` are the same file. */
  lemma OneFilePerName(lib: Library, files: map<string, string>, f: string, g: string)
    requires LoadsDir(lib, files) && f in files && g in files && YamlName(f) && YamlName(g)
    requires Loads(lib, files, f) && Loads(lib, files, g)
    requires lib.loadPack(files[f]).value.name == lib.loadPack(files[g]).value.name
    ensures f == g
  {
  }

  /** Entries of other packs, and their files, are untouched by a change to `f`. */
  lemma OtherEntryOk(lib: Library, files: map<string, string>, files': map<string, string>, f: string, name: string,
                     e: PackInstall)
    requires EntryOk(lib, files, name, e) && Stem(f) != name
    requires files - {f} == files' - {f}
    ensures EntryOk(lib, files', name, e)
  {
    assert e.filename in files - {f};
    assert (files - {f})[e.filename] == (files' - {f})[e.filename];
  }

  /** The undo record an operation leaves restores exactly the state before it. */
  lemma FreshUndoOk(lib: Library, d: Disk, files': map<string, string>, f: string, name: string)
    requires Inv(lib, d) && SafeName(f) && files' - {f} == d.files - {f}
    ensures UndoOk(lib, files', CurrentRecord(d.files, f).(name := name, manifest := ReadDoc(d.manifest)))
  {
    RestoreCurrent(d.files, files', f);
    assert RestoreFile(files', CurrentRecord(d.files, f).(name := name, manifest := ReadDoc(d.manifest)))
        == RestoreFile(files', CurrentRecord(d.files, f));
  }

  lemma PushOk(lib: Library, m: PackManifest, name: string, rev: PackRevision)
    requires HistoryOk(lib, m.history) && RevisionOk(lib, name, rev)
    ensures HistoryOk(lib, Push(m, name, rev).history)
  {
  }

  /** `d'` differs from `d` at the one file `f` of pack `name`, and remembers how to go back. */
  ghost predicate FileChange(lib: Library, d: Disk, d': Disk, f: string, name: string)
  {
    && SafeName(f) && Stem(f) == name && d'.txn.None?
    && d'.files - {f} == d.files - {f} && LoadsDir(lib, d'.files) && (f in d'.files ==> FileOk(lib, d'.files, f))
    && d'.undo == Some(Encoded(CurrentRecord(d.files, f).(name := name, manifest := ReadDoc(d.manifest))))
  }

  /** The manifest of `d'` is right about `name` after the change, and about every other pack before it. */
  ghost predicate ManifestChange(lib: Library, d: Disk, d': Disk, name: string)
  {
    && d'.manifest.Some? && d'.manifest.value.Encoded?
    && var m' := d'.manifest.value.value;
    && m'.version == 1 && HistoryOk(lib, m'.history)
    && (forall n :: n in m'.entries && n != name ==> EntryOk(lib, d.files, n, m'.entries[n]))
    && (name in m'.entries ==> EntryOk(lib, d'.files, name, m'.entries[name]))
  }

  /** A change to one pack's file and manifest entry keeps the invariant. */
  lemma ChangeKeeps(lib: Library, d: Disk, d': Disk, f: string, name: string)
    requires Inv(lib, d) && FileChange(lib, d, d', f, name) && ManifestChange(lib, d, d', name)
    ensures Inv(lib, d')
  {
    var m' := ManifestOf(d'.manifest);
    forall n | n in m'.entries ensures EntryOk(lib, d'.files, n, m'.entries[n]) {
      if n != name { OtherEntryOk(lib, d.files, d'.files, f, n, m'.entries[n]); }
    }
    forall g | g in d'.files && YamlName(g) ensures FileOk(lib, d'.files, g) {
      if g != f {
        assert g in d'.files - {f} && g in d.files - {f};
        assert d'.files[g] == (d'.files - {f})[g] == (d.files - {f})[g] == d.files[g];
        assert FileOk(lib, d.files, g);
      }
    }
    FreshUndoOk(lib, d, d'.files, f, name);
  }

  /** The revision Apply and Remove push for the file they are about to change. */
  function PushedRevision(d: Disk, f: string, name: string): PackRevision
  {
    PackRevision(f, f in d.files, if f in d.files then d.files[f] else "", EntryOf(ManifestOf(d.manifest), name))
  }

  lemma OtherFilesStay(files: map<string, string>, files': map<string, string>, f: string)
    requires files' - {f} == files - {f}
    ensures forall g :: g in files && g != f ==> g in files' && files'[g] == files[g]
  {
    forall g | g in files && g != f ensures g in files' && files'[g] == files[g] {
      assert g in files - {f} && g in files' - {f};
      assert files'[g] == (files' - {f})[g] == (files - {f})[g] == files[g];
    }
  }

  /** An installed pack has a file, so a pack whose file is new has no entry. */
  lemma PushedRevisionOk(lib: Library, d: Disk, f: string, name: string, files': map<string, string>)
    requires Inv(lib, d) && SafeName(f) && Stem(f) == name
    requires f !in d.files ==> f in files' && files' - {f} == d.files - {f} && LoadsDir(lib, files')
                               && Loads(lib, files', f) && lib.loadPack(files'[f]).value.name == name
    ensures RevisionOk(lib, name, PushedRevision(d, f, name))
    ensures f !in d.files ==> EntryOf(ManifestOf(d.manifest), name).None?
  {
    var m := ManifestOf(d.manifest);
    if f in d.files {
      assert FileOk(lib, d.files, f);
      if name in m.entries { OneFilePerName(lib, d.files, m.entries[name].filename, f); }
    } else {
      OtherFilesStay(d.files, files', f);
    }
  }

  /** What a successful Apply establishes before it looks at the manifest. */
  lemma ApplyTarget(lib: Library, d: Disk, op: Op)
    requires Inv(lib, d) && op.Apply? && Meaning(lib, d, op).Ok?
    ensures lib.loadPack(op.content).Some?
    ensures var name := lib.loadPack(op.content).value.name;
      && Stem(op.filename) == name
      && RevisionOk(lib, name, PushedRevision(d, op.filename, name))
      && (op.filename !in d.files ==> EntryOf(ManifestOf(d.manifest), name).None?)
  {
    var f, name := op.filename, lib.loadPack(op.content).value.name;
    if f in d.files { assert FileOk(lib, d.files, f); }
    PushedRevisionOk(lib, d, f, name, d.files[f := op.content]);
  }

  /** What a successful Apply does to the manifest. */
  lemma ApplyManifest(lib: Library, d: Disk, op: Op)
    requires Inv(lib, d) && op.Apply? && Meaning(lib, d, op).Ok?
    ensures lib.loadPack(op.content).Some?
    ensures var pack, f, m := lib.loadPack(op.content).value, op.filename, ManifestOf(d.manifest);
      && Stem(f) == pack.name
      && RevisionOk(lib, pack.name, PushedRevision(d, f, pack.name))
      && Meaning(lib, d, op).value.manifest ==
           Some(Encoded(Push(m, pack.name, PushedRevision(d, f, pack.name)).(entries := m.entries[pack.name :=
             PackInstall(pack.name, f, pack.version, lib.digest(op.content), op.origin, op.pinned)])))
  {
    ApplyTarget(lib, d, op);
  }

  lemma ApplyFileChange(lib: Library, d: Disk, op: Op)
    requires Inv(lib, d) && op.Apply? && Meaning(lib, d, op).Ok?
    ensures lib.loadPack(op.content).Some?
    ensures FileChange(lib, d, Meaning(lib, d, op).value, op.filename, lib.loadPack(op.content).value.name)
  {
    ApplyTarget(lib, d, op);
  }

  lemma ApplyManifestChange(lib: Library, d: Disk, op: Op)
    requires Inv(lib, d) && op.Apply? && Meaning(lib, d, op).Ok?
    ensures lib.loadPack(op.content).Some?
    ensures ManifestChange(lib, d, Meaning(lib, d, op).value, lib.loadPack(op.content).value.name)
  {
    var name := lib.loadPack(op.content).value.name;
    ApplyManifest(lib, d, op);
    PushOk(lib, ManifestOf(d.manifest), name, PushedRevision(d, op.filename, name));
  }

  lemma ApplyKeeps(lib: Library, d: Disk, op: Op)
    requires Inv(lib, d) && op.Apply? && Meaning(lib, d, op).Ok?
    ensures Inv(lib, Meaning(lib, d, op).value)
  {
    ApplyFileChange(lib, d, op);
    ApplyManifestChange(lib, d, op);
    ChangeKeeps(lib, d, Meaning(lib, d, op).value, op.filename, lib.loadPack(op.content).value.name);
  }

  lemma RemoveManifest(lib: Library, d: Disk, op: Op)
    requires Inv(lib, d) && op.Remove? && Meaning(lib, d, op).Ok?
    ensures op.filename in d.files && lib.loadPack(d.files[op.filename]).Some?
    ensures var name, m := lib.loadPack(d.files[op.filename]).value.name, ManifestOf(d.manifest);
      var d' := Meaning(lib, d, op).value;
      && Stem(op.filename) == name
      && RevisionOk(lib, name, PushedRevision(d, op.filename, name))
      && d'.manifest ==
           Some(Encoded(Push(m, name, PushedRevision(d, op.filename, name)).(entries := m.entries - {name})))
  {
    var name := lib.loadPack(d.files[op.filename]).value.name;
    assert FileOk(lib, d.files, op.filename);
    PushedRevisionOk(lib, d, op.filename, name, d.files);
  }

  lemma RemoveManifestChange(lib: Library, d: Disk, op: Op)
    requires Inv(lib, d) && op.Remove? && Meaning(lib, d, op).Ok?
    ensures op.filename in d.files && lib.loadPack(d.files[op.filename]).Some?
    ensures ManifestChange(lib, d, Meaning(lib, d, op).value, lib.loadPack(d.files[op.filename]).value.name)
  {
    var name := lib.loadPack(d.files[op.filename]).value.name;
    RemoveManifest(lib, d, op);
    PushOk(lib, ManifestOf(d.manifest), name, PushedRevision(d, op.filename, name));
  }

  lemma RemoveKeeps(lib: Library, d: Disk, op: Op)
    requires Inv(lib, d) && op.Remove? && Meaning(lib, d, op).Ok?
    ensures Inv(lib, Meaning(lib, d, op).value)
  {
    var d', f := Meaning(lib, d, op).value, op.filename;
    RemoveManifestChange(lib, d, op);
    assert FileOk(lib, d.files, f);
    assert FileChange(lib, d, d', f, Stem(f));
    ChangeKeeps(lib, d, d', f, Stem(f));
  }

  lemma RollbackKeeps(lib: Library, d: Disk)
    requires Inv(lib, d) && RollbackSpec(lib, d).Ok?
    ensures Inv(lib, RollbackSpec(lib, d).value)
  {
    var r := UndoRecord(d).value;
    FreshUndoOk(lib, d, RestoreFile(d.files, r), r.filename, r.name);
  }

  lemma PoppedOk(lib: Library, m: PackManifest, name: string)
    requires HistoryOk(lib, m.history) && HistoryOf(m, name) != []
    ensures HistoryOk(lib, Popped(m, name).history)
    ensures Popped(m, name).entries - {name} == m.entries - {name}
  {
  }

  function LastRevision(d: Disk, name: string): PackRevision
    requires HistoryOf(ManifestOf(d.manifest), name) != []
  {
    var h := HistoryOf(ManifestOf(d.manifest), name);
    h[|h| - 1]
  }

  lemma RollbackPackFileChange(lib: Library, d: Disk, name: string)
    requires Inv(lib, d) && RollbackPackSpec(lib, d.manifest, d, name).Ok?
    ensures HistoryOf(ManifestOf(d.manifest), name) != []
    ensures RevisionOk(lib, name, LastRevision(d, name))
    ensures FileChange(lib, d, RollbackPackSpec(lib, d.manifest, d, name).value, LastRevision(d, name).filename, name)
  {
    var h := HistoryOf(ManifestOf(d.manifest), name);
    assert RevisionOk(lib, name, h[|h| - 1]);
  }

  lemma RollbackPackManifestChange(lib: Library, d: Disk, name: string)
    requires Inv(lib, d) && RollbackPackSpec(lib, d.manifest, d, name).Ok?
    ensures HistoryOf(ManifestOf(d.manifest), name) != []
    ensures RollbackPackSpec(lib, d.manifest, d, name).value.manifest ==
      Some(Encoded(Popped(ManifestOf(d.manifest), name)))
    ensures ManifestChange(lib, d, RollbackPackSpec(lib, d.manifest, d, name).value, name)
  {
    var m := ManifestOf(d.manifest);
    assert RevisionOk(lib, name, LastRevision(d, name));
    PoppedOk(lib, m, name);
  }

  lemma RollbackPackKeeps(lib: Library, d: Disk, name: string)
    requires Inv(lib, d) && RollbackPackSpec(lib, d.manifest, d, name).Ok?
    ensures Inv(lib, RollbackPackSpec(lib, d.manifest, d, name).value)
  {
    RollbackPackFileChange(lib, d, name);
    RollbackPackManifestChange(lib, d, name);
    ChangeKeeps(lib, d, RollbackPackSpec(lib, d.manifest, d, name).value, LastRevision(d, name).filename, name);
  }

  lemma StepKeeps(lib: Library, d: Disk, op: Op, d': Disk)
    requires Inv(lib, d) && Step(lib, d, op, d')
    ensures Inv(lib, d')
  {
    if d' != d {
      match op
      case Apply(_, _, _, _, _) => ApplyKeeps(lib, d, op);
      case Remove(_, _) => RemoveKeeps(lib, d, op);
      case Rollback => RollbackKeeps(lib, d);
      case RollbackPack(name) => RollbackPackKeeps(lib, d, name);
    }
  }
}
