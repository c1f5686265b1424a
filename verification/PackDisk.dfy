/** The parser-pack directory as the pack transaction code sees it: the pack
    files, and three JSON documents under .marketplace (manifest, undo record,
    transaction record).  Everything here is a value; the methods that change
    the directory step by step are in PackManager.dfy. */
module PackDisk {
  import opened Wrappers

  /** A JSON document on disk or in a record: either the encoding of a value,
      or bytes that do not decode.  `Raw("")` also stands for a nil slice. */
  datatype Blob<T> = Encoded(value: T) | Raw(bytes: string)

  datatype Pack = Pack(name: string, version: string)

  /** What the pack code takes from its libraries: YAML loading and SHA-256. */
  datatype Library = Library(loadPack: string -> Option<Pack>, digest: string -> string)

  datatype PackInstall = PackInstall(name: string, filename: string, version: string,
                                     digest: string, origin: string, pinned: bool)

  datatype PackRevision = PackRevision(filename: string, existed: bool, content: string,
                                       previous: Option<PackInstall>)

  datatype PackManifest = PackManifest(version: int, entries: map<string, PackInstall>,
                                       history: map<string, seq<PackRevision>>)

  const EMPTY_MANIFEST := PackManifest(1, map[], map[])

  datatype RollbackRecord = RollbackRecord(filename: string, existed: bool, content: string,
                                           name: string, manifest: Blob<PackManifest>)

  const NO_RECORD := RollbackRecord("", false, "", "", Raw(""))

  datatype TransactionRecord = TransactionRecord(before: RollbackRecord, undo: RollbackRecord,
                                                 priorUndo: Blob<RollbackRecord>,
                                                 priorManifest: Blob<PackManifest>,
                                                 nextManifest: Blob<PackManifest>,
                                                 committed: bool)

  datatype Expectation = Expectation(exists_: bool, digest: string)

  datatype Disk = Disk(files: map<string, string>,
                       manifest: Option<Blob<PackManifest>>,
                       undo: Option<Blob<RollbackRecord>>,
                       txn: Option<Blob<TransactionRecord>>)

  // ----- file names

  predicate Letter(c: char, lower: char, upper: char) { c == lower || c == upper }

  /** The extension, from the last dot on, is .yaml in any mix of cases. */
  predicate DotYaml(f: string)
  {
    var n := |f|;
    && n >= 5 && f[n - 5] == '.' && Letter(f[n - 4], 'y', 'Y') && Letter(f[n - 3], 'a', 'A')
    && Letter(f[n - 2], 'm', 'M') && Letter(f[n - 1], 'l', 'L')
  }

  predicate DotYml(f: string)
  {
    var n := |f|;
    && n >= 4 && f[n - 4] == '.'
    && Letter(f[n - 3], 'y', 'Y') && Letter(f[n - 2], 'm', 'M') && Letter(f[n - 1], 'l', 'L')
  }

  predicate YamlName(f: string) { DotYaml(f) || DotYml(f) }

  /** A YAML file name without its extension. */
  function Stem(f: string): string
  {
    if DotYaml(f) then f[..|f| - 5] else if DotYml(f) then f[..|f| - 4] else f
  }

  predicate SafeName(f: string)
  {
    && f != "" && '/' !in f && '\\' !in f
    && (forall i :: 0 <= i < |f| - 1 ==> !(f[i] == '.' && f[i + 1] == '.'))
    && YamlName(f)
  }

  // ----- loading the directory

  predicate Loads(lib: Library, files: map<string, string>, f: string)
  {
    f in files && lib.loadPack(files[f]).Some?
  }

  /** LoadDir succeeds: every YAML file loads and no two packs share a name. */
  predicate LoadsDir(lib: Library, files: map<string, string>)
  {
    && (forall f :: f in files && YamlName(f) ==> Loads(lib, files, f))
    && (forall f, g :: f in files && g in files && YamlName(f) && YamlName(g) && f != g
          && Loads(lib, files, f) && Loads(lib, files, g)
          ==> lib.loadPack(files[f]).value.name != lib.loadPack(files[g]).value.name)
  }

  /** The packs of a directory: what an active Snapshot holds. */
  function SnapshotOf(lib: Library, files: map<string, string>): set<Pack>
  {
    set f | f in files && YamlName(f) && Loads(lib, files, f) :: lib.loadPack(files[f]).value
  }

  // ----- reading and restoring documents

  /** os.ReadFile with a missing file read as no bytes. */
  function ReadDoc<T>(doc: Option<Blob<T>>): Blob<T>
  {
    if doc.None? then Raw("") else doc.value
  }

  /** restoreUndo and restoreManifest: no bytes means remove the file. */
  function RestoreDoc<T(==)>(b: Blob<T>): Option<Blob<T>>
  {
    if b == Raw("") then None else Some(b)
  }

  function RestoreFile(files: map<string, string>, r: RollbackRecord): map<string, string>
  {
    if r.existed then files[r.filename := r.content] else files - {r.filename}
  }

  /** The record beginFileTransaction keeps of the file it is about to change. */
  function CurrentRecord(files: map<string, string>, f: string): RollbackRecord
  {
    NO_RECORD.(filename := f, existed := f in files, content := if f in files then files[f] else "")
  }

  function PendingRecord(d: Disk, f: string): TransactionRecord
  {
    TransactionRecord(CurrentRecord(d.files, f), NO_RECORD, ReadDoc(d.undo), ReadDoc(d.manifest), Raw(""), false)
  }

  // ----- the meaning of a directory

  function Redone(d: Disk, t: TransactionRecord): Disk
  {
    d.(undo := Some(Encoded(t.undo)),
       manifest := if t.nextManifest != Raw("") then Some(t.nextManifest) else d.manifest,
       txn := None)
  }

  function Undone(d: Disk, t: TransactionRecord): Disk
  {
    d.(files := RestoreFile(d.files, t.before), undo := RestoreDoc(t.priorUndo),
       manifest := RestoreDoc(t.priorManifest), txn := None)
  }

  predicate Recoverable(d: Disk)
  {
    d.txn.Some? ==> d.txn.value.Encoded? && SafeName(d.txn.value.value.before.filename)
  }

  /** The directory a complete recovery leaves: the state `d` stands for. */
  function Settled(d: Disk): Disk
  {
    if d.txn.None? || !Recoverable(d) then d
    else if d.txn.value.value.committed then Redone(d, d.txn.value.value)
    else Undone(d, d.txn.value.value)
  }

  predicate HasCommit(d: Disk)
  {
    d.txn.Some? && d.txn.value.Encoded? && d.txn.value.value.committed
  }

  /** No document is a zero-length file.  The restore helpers cannot bring such a
      file back (they remove it instead); the manager never writes one. */
  predicate NoBlank(d: Disk)
  {
    d.manifest != Some(Raw("")) && d.undo != Some(Raw(""))
  }

  /** The directory without its zero-length documents. */
  function Cleared(d: Disk): Disk
  {
    d.(manifest := RestoreDoc(ReadDoc(d.manifest)), undo := RestoreDoc(ReadDoc(d.undo)))
  }

  /** The directory as it was, except that an abort or a recovery may have removed a zero-length document. */
  predicate Kept(before: Disk, after: Disk) { after == before || after == Cleared(before) }

  // ----- what the operations mean, on a settled directory

  datatype Reason = BadPack | BadName | BadRecovery | Changed | Missing | InvalidSet | BadManifest
                  | WrongIdentity | NoHistory | NoUndo | BadUndo | WriteFailed

  function DecodeManifest(prior: Blob<PackManifest>): Result<PackManifest, Reason>
  {
    if prior == Raw("") then Ok(EMPTY_MANIFEST)
    else if prior.Encoded? then Ok(prior.value)
    else Err(BadManifest)
  }

  function HistoryOf(m: PackManifest, name: string): seq<PackRevision>
  {
    if name in m.history then m.history[name] else []
  }

  function EntryOf(m: PackManifest, name: string): Option<PackInstall>
  {
    if name in m.entries then Some(m.entries[name]) else None
  }

  function Push(m: PackManifest, name: string, rev: PackRevision): PackManifest
  {
    m.(history := m.history[name := HistoryOf(m, name) + [rev]])
  }

  function NextManifestForApply(lib: Library, prior: Blob<PackManifest>, pack: Pack, filename: string,
                                content: string, origin: string, pinned: bool, before: RollbackRecord)
    : Result<PackManifest, Reason>
  {
    var decoded := DecodeManifest(prior);
    if decoded.Err? then decoded
    else
      var m := decoded.value;
      var entry := PackInstall(pack.name, filename, pack.version, lib.digest(content), origin, pinned);
      if before.existed then
        var old_ := lib.loadPack(before.content);
        if old_.None? then Err(BadPack)
        else if old_.value.name != pack.name then Err(WrongIdentity)
        else
          var rev := PackRevision(filename, true, before.content, EntryOf(m, pack.name));
          Ok(Push(m, pack.name, rev).(entries := m.entries[pack.name := entry]))
      else if Stem(filename) != pack.name then Err(WrongIdentity)
      else
        var rev := PackRevision(filename, false, "", None);
        Ok(Push(m, pack.name, rev).(entries := m.entries[pack.name := entry]))
  }

  function NextManifestForRemove(prior: Blob<PackManifest>, name: string, before: RollbackRecord)
    : Result<PackManifest, Reason>
  {
    var decoded := DecodeManifest(prior);
    if decoded.Err? then decoded
    else
      var m := decoded.value;
      var rev := PackRevision(before.filename, true, before.content, EntryOf(m, name));
      Ok(Push(m, name, rev).(entries := m.entries - {name}))
  }

  predicate MeetsExpectation(lib: Library, files: map<string, string>, f: string, expected: Option<Expectation>)
  {
    expected.Some? ==>
      && expected.value.exists_ == (f in files)
      && (f in files ==> expected.value.digest == lib.digest(files[f]))
  }

  /** ApplyPackFileWithState as one atomic change. */
  ghost function ApplySpec(lib: Library, d: Disk, filename: string, content: string,
                           expected: Option<Expectation>, origin: string, pinned: bool): Result<Disk, Reason>
  {
    var pack := lib.loadPack(content);
    if pack.None? then Err(BadPack)
    else if !SafeName(filename) then Err(BadName)
    else if !MeetsExpectation(lib, d.files, filename, expected) then Err(Changed)
    else if !LoadsDir(lib, d.files[filename := content]) then Err(InvalidSet)
    else
      var before := CurrentRecord(d.files, filename);
      var prior := ReadDoc(d.manifest);
      var next := NextManifestForApply(lib, prior, pack.value, filename, content, origin, pinned, before);
      if next.Err? then Err(next.error)
      else Ok(Disk(d.files[filename := content], Some(Encoded(next.value)),
                   Some(Encoded(before.(name := pack.value.name, manifest := prior))), None))
  }

  /** RemovePackFileExpected as one atomic change. */
  ghost function RemoveSpec(lib: Library, d: Disk, filename: string, expected: Option<Expectation>)
    : Result<Disk, Reason>
  {
    if !SafeName(filename) then Err(BadName)
    else if !MeetsExpectation(lib, d.files, filename, expected) then Err(Changed)
    else if filename !in d.files then Err(Missing)
    else
      var pack := lib.loadPack(d.files[filename]);
      if pack.None? then Err(BadPack)
      else
        var before := CurrentRecord(d.files, filename);
        var prior := ReadDoc(d.manifest);
        var next := NextManifestForRemove(prior, pack.value.name, before);
        if next.Err? then Err(next.error)
        else if !LoadsDir(lib, d.files - {filename}) then Err(InvalidSet)
        else Ok(Disk(d.files - {filename}, Some(Encoded(next.value)),
                     Some(Encoded(before.(name := pack.value.name, manifest := prior))), None))
  }

  /** rollbackWithRecord as one atomic change, given the record it restores. */
  ghost function RestoreSpec(lib: Library, d: Disk, record: RollbackRecord): Result<Disk, Reason>
  {
    if record.filename == "" then Err(NoUndo)
    else if !SafeName(record.filename) then Err(BadName)
    else if !LoadsDir(lib, RestoreFile(d.files, record)) then Err(InvalidSet)
    else
      var undo := CurrentRecord(d.files, record.filename).(name := record.name, manifest := ReadDoc(d.manifest));
      Ok(Disk(RestoreFile(d.files, record), RestoreDoc(record.manifest), Some(Encoded(undo)), None))
  }

  /** The record Rollback restores: the decoded undo record, if there is one. */
  function UndoRecord(d: Disk): Result<RollbackRecord, Reason>
  {
    if d.undo.None? then Ok(NO_RECORD)
    else if d.undo.value.Encoded? then Ok(d.undo.value.value)
    else Err(BadUndo)
  }

  ghost function RollbackSpec(lib: Library, d: Disk): Result<Disk, Reason>
  {
    if UndoRecord(d).Err? then Err(UndoRecord(d).error) else RestoreSpec(lib, d, UndoRecord(d).value)
  }

  /** ReadManifest: unlike the next-manifest functions it refuses other versions,
      and a zero-length file does not decode. */
  function ReadManifest(doc: Option<Blob<PackManifest>>): Result<PackManifest, Reason>
  {
    if doc.None? then Ok(EMPTY_MANIFEST)
    else if doc.value.Encoded? && doc.value.value.version == 1 then Ok(doc.value.value)
    else Err(BadManifest)
  }

  /** RollbackPack's manifest after popping the last revision of `name`. */
  function Popped(m: PackManifest, name: string): PackManifest
    requires HistoryOf(m, name) != []
  {
    var h := m.history[name];
    var previous := h[|h| - 1].previous;
    m.(history := m.history[name := h[..|h| - 1]],
       entries := if previous.Some? then m.entries[name := previous.value] else m.entries - {name})
  }

  function PackRecord(doc: Option<Blob<PackManifest>>, name: string): Result<RollbackRecord, Reason>
  {
    var m := ReadManifest(doc);
    if m.Err? then Err(m.error)
    else if HistoryOf(m.value, name) == [] then Err(NoHistory)
    else
      var h := m.value.history[name];
      var rev := h[|h| - 1];
      if rev.filename == "" then Err(BadName)
      else Ok(RollbackRecord(rev.filename, rev.existed, rev.content, name, Encoded(Popped(m.value, name))))
  }

  /** RollbackPack as one atomic change; `doc` is the manifest file it read. */
  ghost function RollbackPackSpec(lib: Library, doc: Option<Blob<PackManifest>>, d: Disk, name: string)
    : Result<Disk, Reason>
  {
    var record := PackRecord(doc, name);
    if record.Err? then Err(record.error) else RestoreSpec(lib, d, record.value)
  }
}
