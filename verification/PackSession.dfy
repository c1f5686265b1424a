/** Whole sessions of the pack manager: any operations with any faults, one after the other on whatever
    directory the last one left, with recoveries in between or not. */
module PackSession {
  import opened Wrappers
  import opened PackDisk
  import opened PackManager
  import opened PackRuns
  import opened PackUndo

  // ----- RollbackPack on a directory that is not settled

  /** What an operation means on a directory as it is on disk: RollbackPack reads the manifest file
      before the directory is settled. */
  ghost function MeaningOn(lib: Library, d: Disk, op: Op): Result<Disk, Reason>
  {
    if op.RollbackPack? then RollbackPackSpec(lib, d.manifest, Settled(d), op.name) else Meaning(lib, Settled(d), op)
  }

  /** The manifest was right about some files, at some time. */
  ghost predicate OnceRight(lib: Library, doc: Option<Blob<PackManifest>>) { exists files :: Agree(lib, files, doc) }

  /** What the manager keeps of a directory that may hold an interrupted transaction. */
  ghost predicate DiskOk(lib: Library, d: Disk) { Inv(lib, Settled(d)) && OnceRight(lib, d.manifest) }

  /** The entry names a file that is there, with that digest. */
  ghost predicate Current(lib: Library, files: map<string, string>, e: PackInstall)
  {
    e.filename in files && lib.digest(files[e.filename]) == e.digest
  }

  /** The manifest file is right about every pack but `name`. */
  ghost predicate ReadsRight(lib: Library, d: Disk, name: string)
  {
    var entries := ManifestOf(d.manifest).entries;
    forall n :: n in entries && n != name ==> Current(lib, Settled(d).files, entries[n])
  }

  lemma CurrentEntry(lib: Library, files0: map<string, string>, files: map<string, string>, n: string, e: PackInstall)
    requires EntryOk(lib, files0, n, e) && FilesOk(lib, files)
    ensures EntryOk(lib, files, n, e) <==> Current(lib, files, e)
  {
    if e.filename in files { assert FileOk(lib, files, e.filename); }
  }

  /** What RollbackPack restores, from a manifest that was once right. */
  lemma ReadRevision(lib: Library, doc: Option<Blob<PackManifest>>, s: Disk, name: string)
    requires OnceRight(lib, doc) && Inv(lib, s) && RollbackPackSpec(lib, doc, s, name).Ok?
    ensures var m, d' := ManifestOf(doc), RollbackPackSpec(lib, doc, s, name).value;
      && HistoryOf(m, name) != [] && HistoryOk(lib, m.history)
      && var rev := HistoryOf(m, name)[|HistoryOf(m, name)| - 1];
      && RevisionOk(lib, name, rev) && FileChange(lib, s, d', rev.filename, name)
      && d'.manifest == Some(Encoded(Popped(m, name)))
      && (name in Popped(m, name).entries ==> EntryOk(lib, d'.files, name, Popped(m, name).entries[name]))
  {
    var m := ManifestOf(doc);
    var rev := HistoryOf(m, name)[|HistoryOf(m, name)| - 1];
    assert RevisionOk(lib, name, rev);
  }

  lemma OthersAfter(lib: Library, doc: Option<Blob<PackManifest>>, s: Disk, d': Disk, f: string, name: string)
    requires OnceRight(lib, doc) && Inv(lib, s) && FileChange(lib, s, d', f, name) && FilesOk(lib, d'.files)
    ensures forall n :: n in ManifestOf(doc).entries && n != name ==>
      (EntryOk(lib, d'.files, n, ManifestOf(doc).entries[n]) <==> Current(lib, s.files, ManifestOf(doc).entries[n]))
      && (EntryOk(lib, s.files, n, ManifestOf(doc).entries[n]) <==> Current(lib, s.files, ManifestOf(doc).entries[n]))
  {
    var files0 :| Agree(lib, files0, doc);
    var entries := ManifestOf(doc).entries;
    forall n | n in entries && n != name
      ensures (EntryOk(lib, d'.files, n, entries[n]) <==> Current(lib, s.files, entries[n]))
        && (EntryOk(lib, s.files, n, entries[n]) <==> Current(lib, s.files, entries[n]))
    {
      assert EntryOk(lib, files0, n, entries[n]);
      CurrentEntry(lib, files0, s.files, n, entries[n]);
      CurrentEntry(lib, files0, d'.files, n, entries[n]);
      OtherFilesStay(s.files, d'.files, f);
      OtherFilesStay(d'.files, s.files, f);
    }
  }

  /** RollbackPack, exactly: on any directory the manager can leave, a RollbackPack that is not refused
      keeps the manifest and the files in agreement if and only if the manifest file it read is right
      about every other pack. */
  lemma RollbackPackIff(lib: Library, d: Disk, name: string)
    requires DiskOk(lib, d) && MeaningOn(lib, d, RollbackPack(name)).Ok?
    ensures Inv(lib, MeaningOn(lib, d, RollbackPack(name)).value) <==> ReadsRight(lib, d, name)
  {
    hide EntryOk, RevisionOk, FileChange, Current, LoadsDir, OnceRight;
    var s, m, d' := Settled(d), ManifestOf(d.manifest), MeaningOn(lib, d, RollbackPack(name)).value;
    ReadRevision(lib, d.manifest, s, name);
    var f := HistoryOf(m, name)[|HistoryOf(m, name)| - 1].filename;
    PoppedOk(lib, m, name);
    ChangedFiles(lib, s, d', f, name);
    OthersAfter(lib, d.manifest, s, d', f, name);
    PoppedEntries(m, name);
    if ReadsRight(lib, d, name) {
      assert ManifestChange(lib, s, d', name);
      ChangeKeeps(lib, s, d', f, name);
    }
  }

  lemma PoppedEntries(m: PackManifest, name: string)
    requires HistoryOf(m, name) != []
    ensures Popped(m, name).version == m.version
    ensures forall n :: n != name ==> (n in Popped(m, name).entries <==> n in m.entries)
    ensures forall n :: n != name && n in m.entries ==> Popped(m, name).entries[n] == m.entries[n]
  {
  }

  lemma ChangedFiles(lib: Library, s: Disk, d': Disk, f: string, name: string)
    requires Inv(lib, s) && FileChange(lib, s, d', f, name)
    ensures FilesOk(lib, d'.files)
  {
    OtherFilesStay(d'.files, s.files, f);
    forall g | g in d'.files && YamlName(g)
      ensures FileOk(lib, d'.files, g)
    {
      if g != f { assert FileOk(lib, s.files, g); }
    }
  }

  // ----- which revision RollbackPack restores

  function RestoredFiles(files: map<string, string>, rev: PackRevision): map<string, string>
  {
    if rev.existed then files[rev.filename := rev.content] else files - {rev.filename}
  }

  /** The newest revision in the manifest file restores what the settled one would. */
  ghost predicate ReadsTop(d: Disk, name: string)
  {
    var read, mine := HistoryOf(ManifestOf(d.manifest), name), HistoryOf(ManifestOf(Settled(d).manifest), name);
    && mine != [] && |read| == |mine| && read[..|read| - 1] == mine[..|mine| - 1]
    && var a, b, files := read[|read| - 1], mine[|mine| - 1], ViewOf(Settled(d), name).files;
      a.previous == b.previous && RestoredFiles(files, a) == RestoredFiles(files, b)
  }

  /** What RollbackPack makes of its pack: the newest revision of the manifest file is restored. */
  lemma ReadView(lib: Library, d: Disk, name: string)
    requires DiskOk(lib, d) && MeaningOn(lib, d, RollbackPack(name)).Ok?
    ensures var read := HistoryOf(ManifestOf(d.manifest), name);
      && read != []
      && var rev := read[|read| - 1];
        ViewOf(MeaningOn(lib, d, RollbackPack(name)).value, name) ==
          View(RestoredFiles(ViewOf(Settled(d), name).files, rev), rev.previous, read[..|read| - 1])
  {
    hide EntryOk, RevisionOk, Current, LoadsDir, OnceRight, FilesOk;
    var s, m, d' := Settled(d), ManifestOf(d.manifest), MeaningOn(lib, d, RollbackPack(name)).value;
    ReadRevision(lib, d.manifest, s, name);
    var rev := HistoryOf(m, name)[|HistoryOf(m, name)| - 1];
    RevisionName(lib, name, rev);
    RestoredView(s, d', name, rev.filename, rev.existed, rev.content);
  }

  lemma RevisionName(lib: Library, name: string, rev: PackRevision)
    requires RevisionOk(lib, name, rev)
    ensures Stem(rev.filename) == name && YamlName(rev.filename)
  {
  }

  /** RollbackPack undoes the last change to its pack, exactly: on any directory the manager can leave, a
      RollbackPack that is not refused pops the pack as it stands if and only if the newest revision
      in the manifest file is the newest one of the pack as it stands. */
  lemma PopIff(lib: Library, d: Disk, name: string)
    requires DiskOk(lib, d) && MeaningOn(lib, d, RollbackPack(name)).Ok?
    ensures var v, v' := ViewOf(Settled(d), name), ViewOf(MeaningOn(lib, d, RollbackPack(name)).value, name);
      v.history != [] && v' == PopView(v) <==> ReadsTop(d, name)
  {
    hide DiskOk, MeaningOn;
    ReadView(lib, d, name);
  }

  /** It is so when the manifest file has the settled history of the pack, as on every settled directory. */
  lemma SameHistoryReads(lib: Library, d: Disk, name: string)
    requires HistoryOf(ManifestOf(d.manifest), name) == HistoryOf(ManifestOf(Settled(d).manifest), name) != []
    ensures ReadsTop(d, name)
  {
  }

  /** The manifest file says of pack `name` what the settled manifest says. */
  ghost predicate SameEntry(d: Disk, name: string)
  {
    var read, mine := ManifestOf(d.manifest), ManifestOf(Settled(d).manifest);
    EntryOf(read, name) == EntryOf(mine, name) && HistoryOf(read, name) == HistoryOf(mine, name)
  }

  /** RollbackPack of another pack leaves a pack alone if and only if the manifest file says of it what
      the settled manifest says. */
  lemma OtherIff(lib: Library, d: Disk, other: string, name: string)
    requires DiskOk(lib, d) && MeaningOn(lib, d, RollbackPack(other)).Ok? && other != name
    ensures var d' := MeaningOn(lib, d, RollbackPack(other)).value;
      ViewOf(d', name) == ViewOf(Settled(d), name) <==> SameEntry(d, name)
  {
    hide EntryOk, RevisionOk, Current, LoadsDir, OnceRight, FilesOk;
    var s, m, d' := Settled(d), ManifestOf(d.manifest), MeaningOn(lib, d, RollbackPack(other)).value;
    ReadRevision(lib, d.manifest, s, other);
    var rev := HistoryOf(m, other)[|HistoryOf(m, other)| - 1];
    RevisionName(lib, other, rev);
    SameFiles(s, d', rev.filename, other, name);
    PoppedOther(m, other, name);
  }

  lemma SameFiles(d: Disk, d': Disk, f: string, other: string, name: string)
    requires Stem(f) == other != name && d'.files - {f} == d.files - {f}
    ensures ViewOf(d', name).files == ViewOf(d, name).files
  {
    hide Stem, YamlName;
    OtherFilesStay(d.files, d'.files, f);
    OtherFilesStay(d'.files, d.files, f);
  }

  lemma PoppedOther(m: PackManifest, other: string, name: string)
    requires HistoryOf(m, other) != [] && other != name
    ensures EntryOf(Popped(m, other), name) == EntryOf(m, name)
    ensures HistoryOf(Popped(m, other), name) == HistoryOf(m, name)
  {
  }

  // ----- every operation keeps what the manager keeps

  /** Popping a manifest that was right gives one that was right. */
  lemma PoppedOnceRight(lib: Library, doc: Option<Blob<PackManifest>>, name: string)
    requires OnceRight(lib, doc) && PackRecord(doc, name).Ok?
    ensures OnceRight(lib, RestoreDoc(PackRecord(doc, name).value.manifest))
  {
    hide LoadsDir;
    var files0 :| Agree(lib, files0, doc);
    var m := ManifestOf(doc);
    var h := HistoryOf(m, name);
    var r, rev := PackRecord(doc, name).value, h[|h| - 1];
    var files1 := RestoreFile(files0, r);
    assert RevisionOk(lib, name, rev);
    PoppedOk(lib, m, name);
    PoppedEntries(m, name);
    assert files1 - {rev.filename} == files0 - {rev.filename};
    OtherFilesStay(files1, files0, rev.filename);
    forall n | n in Popped(m, name).entries
      ensures EntryOk(lib, files1, n, Popped(m, name).entries[n])
    {
      if n != name { OtherEntryOk(lib, files0, files1, rev.filename, n, m.entries[n]); }
    }
    forall g | g in files1 && YamlName(g)
      ensures FileOk(lib, files1, g)
    {
      if g != rev.filename { assert FileOk(lib, files0, g); }
    }
    assert Agree(lib, files1, RestoreDoc(r.manifest));
  }

  /** The manifest a rollback puts in place before its commit record. */
  function StagedManifest(d: Disk, op: Op): Option<Option<Blob<PackManifest>>>
  {
    var record := if op.RollbackPack? then PackRecord(d.manifest, op.name) else UndoRecord(Settled(d));
    if (op.Rollback? || op.RollbackPack?) && record.Ok? then Some(RestoreDoc(record.value.manifest)) else None
  }

  lemma StagedOnceRight(lib: Library, d: Disk, op: Op)
    requires DiskOk(lib, d) && StagedManifest(d, op).Some?
    ensures OnceRight(lib, StagedManifest(d, op).value)
  {
    hide EntryOk, RevisionOk, LoadsDir, FilesOk;
    if op.RollbackPack? {
      PoppedOnceRight(lib, d.manifest, op.name);
    } else if Settled(d).undo.None? {
      EmptyRight(lib);
    } else {
      var s := Settled(d);
      var r := s.undo.value.value;
      assert Agree(lib, RestoreFile(s.files, r), RestoreDoc(r.manifest));
    }
  }

  lemma EmptyRight(lib: Library)
    ensures OnceRight(lib, None)
  {
    assert Agree(lib, map[], None);
  }

  /** An empty directory is in order. */
  lemma EmptyOk(lib: Library)
    ensures DiskOk(lib, Disk(map[], None, None, None))
  {
    EmptyRight(lib);
  }

  lemma SettledRight(lib: Library, d: Disk)
    requires Inv(lib, d)
    ensures OnceRight(lib, d.manifest) && Cleared(d) == d && NoBlank(d)
  {
    assert Agree(lib, d.files, d.manifest);
  }

  // ----- the manager itself

  /** Restart after a crash: recovery, itself interrupted any number of times. */
  method Restart(m: SnapshotManager, attempts: nat) returns (o: Outcome)
    modifies m`disk, m`writes, m`commits
    ensures Settled(m.disk) == Settled(old(m.disk)) && m.commits == old(m.commits)
    ensures o.Done? ==> m.disk == Settled(old(m.disk)) && m.disk.txn.None?
    ensures ManifestFrom(m.disk, old(m.disk))
  {
    o := m.RecoverTransactions();
    var i := 0;
    while !o.Done? && i < attempts
      invariant Settled(m.disk) == Settled(old(m.disk)) && m.commits == old(m.commits)
      invariant o.Done? ==> m.disk == Settled(old(m.disk)) && m.disk.txn.None?
      invariant ManifestFrom(m.disk, old(m.disk))
    {
      o := m.RecoverTransactions();
      i := i + 1;
    }
  }

  /** One operation, on whatever directory is there. */
  method Execute(m: SnapshotManager, op: Op) returns (o: Outcome)
    modifies m
    ensures old(m.torn) ==> m.torn
    ensures !m.torn ==>
      Atomic(o, Settled(old(m.disk)), MeaningOn(m.lib, old(m.disk), op), Settled(m.disk), m.commits - old(m.commits))
    ensures !m.torn ==> ManifestFrom(m.disk, old(m.disk)) || StagedManifest(old(m.disk), op) == Some(m.disk.manifest)
  {
    match op {
      case Apply(filename, content, expected, origin, pinned) =>
        o := m.Apply(filename, content, expected, origin, pinned);
      case Remove(filename, expected) => o := m.Remove(filename, expected);
      case Rollback => o := m.Rollback();
      case RollbackPack(name) => o := m.RollbackPack(name);
    }
  }

  datatype Act = Do(op: Op) | Reopen(attempts: nat)

  // ----- what a session leaves behind

  /** One operation of a session: the directory it found and the one it left. */
  datatype Entry = Entry(before: Disk, op: Op, after: Disk)

  /** The operation took effect. */
  ghost predicate Took(lib: Library, e: Entry) { MeaningOn(lib, e.before, e.op) == Ok(Settled(e.after)) }

  ghost predicate Ended(lib: Library, e: Entry)
  {
    && (Took(lib, e) || Kept(Settled(e.before), Settled(e.after)))
    && (ManifestFrom(e.after, e.before) || StagedManifest(e.before, e.op) == Some(e.after.manifest))
  }

  /** Nothing happened between two operations but recoveries, finished or not, if any. */
  ghost predicate Recovered(d: Disk, d': Disk) { Settled(d') == Settled(d) && ManifestFrom(d', d) }

  function Prev(d0: Disk, es: seq<Entry>, i: nat): Disk
    requires i <= |es|
  {
    if i == 0 then d0 else es[i - 1].after
  }

  /** The operations of a session that began with `d0` and has come to `d1`. */
  ghost predicate Trace(lib: Library, d0: Disk, es: seq<Entry>, d1: Disk)
  {
    && (forall i :: 0 <= i < |es| ==> Ended(lib, es[i]) && Recovered(Prev(d0, es, i), es[i].before))
    && Recovered(Prev(d0, es, |es|), d1)
  }

  /** A RollbackPack that took effect on a manifest that was wrong about another pack. */
  ghost predicate Stale(lib: Library, e: Entry)
  {
    e.op.RollbackPack? && Took(lib, e) && !ReadsRight(lib, e.before, e.op.name)
  }

  ghost predicate NoStale(lib: Library, es: seq<Entry>) { forall i :: 0 <= i < |es| ==> !Stale(lib, es[i]) }

  lemma EntryKeeps(lib: Library, e: Entry)
    requires DiskOk(lib, e.before) && Ended(lib, e) && !Stale(lib, e)
    ensures DiskOk(lib, e.after)
  {
    hide Inv, OnceRight, StagedManifest, ReadsRight;
    var s := Settled(e.before);
    SettledRight(lib, s);
    if Took(lib, e) && Settled(e.after) != s {
      if e.op.RollbackPack? {
        RollbackPackIff(lib, e.before, e.op.name);
      } else {
        StepKeeps(lib, s, e.op, Settled(e.after));
      }
    }
    SettledRight(lib, Settled(e.after));
    if StagedManifest(e.before, e.op) == Some(e.after.manifest) { StagedOnceRight(lib, e.before, e.op); }
  }

  lemma RecoveryKeeps(lib: Library, d: Disk, d': Disk)
    requires DiskOk(lib, d) && Recovered(d, d')
    ensures DiskOk(lib, d')
  {
    hide Inv, OnceRight;
    SettledRight(lib, Settled(d));
  }

  /** Whole-session manifest agreement: as long as no RollbackPack took effect on a manifest that was
      wrong about another pack, the manifest agrees with the files, at the end and on the way. */
  lemma {:induction false} TraceKeeps(lib: Library, d0: Disk, es: seq<Entry>, d1: Disk, i: nat)
    requires DiskOk(lib, d0) && Trace(lib, d0, es, d1) && NoStale(lib, es) && i <= |es|
    ensures DiskOk(lib, Prev(d0, es, i)) && (i < |es| ==> DiskOk(lib, es[i].before)) && (i == |es| ==> DiskOk(lib, d1))
  {
    hide DiskOk, Recovered, Ended, Stale;
    if i > 0 {
      TraceKeeps(lib, d0, es, d1, i - 1);
      EntryKeeps(lib, es[i - 1]);
    }
    RecoveryKeeps(lib, Prev(d0, es, i), if i < |es| then es[i].before else d1);
  }

  lemma RecoveredTwice(d: Disk, d1: Disk, d2: Disk)
    requires Recovered(d, d1) && Recovered(d1, d2)
    ensures Recovered(d, d2)
  {
  }

  lemma TraceMore(lib: Library, d0: Disk, es: seq<Entry>, d1: Disk, e: Entry)
    requires Trace(lib, d0, es, d1) && e.before == d1 && Ended(lib, e)
    ensures Trace(lib, d0, es + [e], e.after)
  {
    hide Ended, Recovered;
    var es' := es + [e];
    forall i | 0 <= i < |es'|
      ensures Ended(lib, es'[i]) && Recovered(Prev(d0, es', i), es'[i].before)
    {
      assert Prev(d0, es', i) == Prev(d0, es, i);
      if i < |es| { assert es'[i] == es[i]; }
    }
    NothingRecovered(e.after);
  }

  lemma NothingRecovered(d: Disk)
    ensures Recovered(d, d)
  {
  }

  lemma TraceRecovered(lib: Library, d0: Disk, es: seq<Entry>, d1: Disk, d2: Disk)
    requires Trace(lib, d0, es, d1) && Recovered(d1, d2)
    ensures Trace(lib, d0, es, d2)
  {
    hide Ended, Recovered;
    RecoveredTwice(Prev(d0, es, |es|), d1, d2);
  }

  function OpsOf(acts: seq<Act>): seq<Op>
  {
    if acts == [] then [] else OpsOf(acts[..|acts| - 1]) + if acts[|acts| - 1].Do? then [acts[|acts| - 1].op] else []
  }

  /** Any list of operations and recoveries, each write of which may fail or crash, on whatever directory
      is there.  Unless an abort was torn, what it leaves behind is a trace of these operations; and if
      moreover no RollbackPack took effect on a manifest that was wrong about another pack, the manifest
      agrees with the files. */
  method Session(m: SnapshotManager, acts: seq<Act>) returns (ghost es: seq<Entry>)
    modifies m
    ensures |es| == |OpsOf(acts)| && forall i :: 0 <= i < |es| ==> es[i].op == OpsOf(acts)[i]
    ensures !m.torn ==> Trace(m.lib, old(m.disk), es, m.disk)
    ensures DiskOk(m.lib, old(m.disk)) && !m.torn && NoStale(m.lib, es) ==> Inv(m.lib, Settled(m.disk))
  {
    hide Inv, OnceRight, MeaningOn, ManifestFrom, StagedManifest, Trace, Ended, Recovered, NoStale;
    es := [];
    StartTrace(m.lib, m.disk);
    var i := 0;
    while i < |acts|
      invariant i <= |acts| && (old(m.torn) ==> m.torn)
      invariant |es| == |OpsOf(acts[..i])| && forall j :: 0 <= j < |es| ==> es[j].op == OpsOf(acts[..i])[j]
      invariant !m.torn ==> Trace(m.lib, old(m.disk), es, m.disk)
    {
      assert acts[..i + 1][..i] == acts[..i];
      ghost var before := m.disk;
      if acts[i].Do? {
        ghost var commits := m.commits;
        var o := Execute(m, acts[i].op);
        ghost var e := Entry(before, acts[i].op, m.disk);
        if !m.torn {
          OutcomeEnded(m.lib, e, o, m.commits - commits);
          TraceMore(m.lib, old(m.disk), es, before, e);
        }
        es := es + [e];
      } else {
        var _ := Restart(m, acts[i].attempts);
        if !m.torn {
          RestartRecovered(before, m.disk);
          TraceRecovered(m.lib, old(m.disk), es, before, m.disk);
        }
      }
      i := i + 1;
    }
    assert acts[..i] == acts;
    if DiskOk(m.lib, old(m.disk)) && !m.torn && NoStale(m.lib, es) {
      TraceKeeps(m.lib, old(m.disk), es, m.disk, |es|);
    }
  }

  lemma StartTrace(lib: Library, d: Disk)
    ensures Trace(lib, d, [], d)
  {
  }

  lemma OutcomeEnded(lib: Library, e: Entry, o: Outcome, commits: int)
    requires Atomic(o, Settled(e.before), MeaningOn(lib, e.before, e.op), Settled(e.after), commits)
    requires ManifestFrom(e.after, e.before) || StagedManifest(e.before, e.op) == Some(e.after.manifest)
    ensures Ended(lib, e)
  {
    hide MeaningOn, ManifestFrom, StagedManifest, Settled;
  }

  lemma RestartRecovered(d: Disk, d': Disk)
    requires Settled(d') == Settled(d) && ManifestFrom(d', d)
    ensures Recovered(d, d')
  {
  }

  // ----- undoing the last changes to a pack

  /** The operation is no Rollback, and a RollbackPack that took effect found in the manifest file what
      the settled manifest says of pack `name`. */
  ghost predicate Straight(lib: Library, e: Entry, name: string)
  {
    && !e.op.Rollback?
    && (e.op.RollbackPack? && Took(lib, e) ==>
          if e.op.name == name then ReadsTop(e.before, name) else SameEntry(e.before, name))
  }

  lemma EntryMoves(lib: Library, e: Entry, name: string)
    requires DiskOk(lib, e.before) && Ended(lib, e) && Straight(lib, e, name)
    ensures ViewMove(ViewOf(Settled(e.before), name), ViewOf(Settled(e.after), name))
  {
    hide ViewOf, PopView, Inv, OnceRight, ReadsTop, SameEntry, ViewMove;
    var s, s' := Settled(e.before), Settled(e.after);
    SettledRight(lib, s);
    if s' == s {
      NoMove(ViewOf(s, name));
    } else if e.op.RollbackPack? {
      if e.op.name == name {
        PopIff(lib, e.before, name);
        PopMoves(ViewOf(s, name));
      } else {
        OtherIff(lib, e.before, e.op.name, name);
        NoMove(ViewOf(s, name));
      }
    } else {
      StepMoves(lib, s, e.op, s', name);
    }
  }

  lemma NoMove(v: View)
    ensures ViewMove(v, v)
  {
  }

  lemma PopMoves(v: View)
    requires v.history != []
    ensures ViewMove(v, PopView(v))
  {
  }

  /** The settled states of a session. */
  function States(d0: Disk, es: seq<Entry>): seq<Disk>
  {
    seq(|es| + 1, i requires 0 <= i <= |es| => Settled(Prev(d0, es, i)))
  }

  /** A session that can be undone for pack `name`. */
  ghost predicate Undoable(lib: Library, d0: Disk, es: seq<Entry>, d1: Disk, name: string)
  {
    && DiskOk(lib, d0) && Trace(lib, d0, es, d1) && NoStale(lib, es)
    && (forall i :: 0 <= i < |es| ==> Straight(lib, es[i], name))
    && (forall i :: 0 <= i <= |es| ==> Depth(Settled(Prev(d0, es, i)), name) >= Depth(Settled(d0), name))
  }

  lemma TraceTrack(lib: Library, d0: Disk, es: seq<Entry>, d1: Disk, name: string)
    requires Undoable(lib, d0, es, d1, name)
    ensures Track(lib, States(d0, es), name) && DiskOk(lib, d1) && Settled(d1) == States(d0, es)[|es|]
  {
    hide Inv, OnceRight, ViewOf, ViewMove, Depth, Ended, Straight, NoStale, ManifestFrom, Settled;
    var ds := States(d0, es);
    forall i | 0 <= i < |ds| ensures Inv(lib, ds[i]) { TraceKeeps(lib, d0, es, d1, i); }
    forall i | 0 < i < |ds| ensures ViewMove(ViewOf(ds[i - 1], name), ViewOf(ds[i], name)) {
      TraceKeeps(lib, d0, es, d1, i - 1);
      EntryMoves(lib, es[i - 1], name);
    }
    TraceKeeps(lib, d0, es, d1, |es|);
  }

  /** The next write and all later ones work. */
  ghost predicate Working(m: SnapshotManager)
    reads m
  {
    forall n :: n >= m.writes ==> m.faults(n).Works?
  }

  /** The manifest file has the settled history of the pack and is right about every other one. */
  ghost predicate ReadsWell(lib: Library, d: Disk, name: string)
  {
    && HistoryOf(ManifestOf(d.manifest), name) == HistoryOf(ManifestOf(Settled(d).manifest), name)
    && ReadsRight(lib, d, name)
  }

  lemma SettledReadsWell(lib: Library, d: Disk, name: string)
    requires Inv(lib, d)
    ensures Settled(d) == d && ReadsWell(lib, d, name) && DiskOk(lib, d)
  {
    hide LoadsDir, HistoryOk, FilesOk, UndoOk;
    SettledRight(lib, d);
    forall n | n in ManifestOf(d.manifest).entries
      ensures Current(lib, d.files, ManifestOf(d.manifest).entries[n])
    {
      assert EntryOk(lib, d.files, n, ManifestOf(d.manifest).entries[n]);
    }
  }

  /** What RollbackPack does when there is a change to undo and it reads well. */
  lemma WellRead(lib: Library, ds: seq<Disk>, d: Disk, name: string)
    requires Track(lib, ds, name) && Settled(d) == ds[|ds| - 1] && DiskOk(lib, d) && ReadsWell(lib, d, name)
    requires Depth(ds[|ds| - 1], name) > Depth(ds[0], name)
    ensures Recoverable(d)
    ensures var r := MeaningOn(lib, d, RollbackPack(name));
      && r.Ok? && Inv(lib, r.value) && ViewOf(Settled(d), name).history != []
      && ViewOf(r.value, name) == PopView(ViewOf(Settled(d), name))
  {
    hide Inv, ViewOf, PopView, OnceRight, ReadsRight, RollbackPackSpec;
    var s := Settled(d);
    PackCanUndo(lib, ds, name, |ds| - 1);
    DiskRecoverable(lib, d);
    ReadAllowed(lib, d, name);
    RollbackPackIff(lib, d, name);
    ViewHistory(s, name);
    SameHistoryReads(lib, d, name);
    PopIff(lib, d, name);
  }

  lemma ViewHistory(d: Disk, name: string)
    ensures ViewOf(d, name).history == HistoryOf(ManifestOf(d.manifest), name)
  {
  }

  lemma DiskRecoverable(lib: Library, d: Disk)
    requires DiskOk(lib, d)
    ensures Recoverable(d)
  {
  }

  /** With the same history, RollbackPack is refused on the directory as it is only if it is on the settled one. */
  lemma ReadAllowed(lib: Library, d: Disk, name: string)
    requires DiskOk(lib, d) && RollbackPackSpec(lib, Settled(d).manifest, Settled(d), name).Ok?
    requires HistoryOf(ManifestOf(d.manifest), name) == HistoryOf(ManifestOf(Settled(d).manifest), name)
    ensures MeaningOn(lib, d, RollbackPack(name)).Ok?
  {
    hide LoadsDir, SafeName, EntriesOk, HistoryOk, FilesOk;
  }

  /** The manager stands at the end of these states, with working writes. */
  ghost predicate StandsAt(m: SnapshotManager, ds: seq<Disk>, name: string)
    reads m
  {
    && ds != [] && Track(m.lib, ds, name) && Settled(m.disk) == ds[|ds| - 1] && DiskOk(m.lib, m.disk)
    && !m.torn && Working(m)
  }

  /** One RollbackPack on a directory a session left, when there is a change of the session to undo. */
  method UndoOne(m: SnapshotManager, name: string, ghost ds: seq<Disk>) returns (o: Outcome)
    requires StandsAt(m, ds, name) && Depth(ds[|ds| - 1], name) > Depth(ds[0], name) && ReadsWell(m.lib, m.disk, name)
    modifies m
    ensures o.Done? && StandsAt(m, ds + [m.disk], name) && ReadsWell(m.lib, m.disk, name)
    ensures ViewOf(m.disk, name) == PopView(ViewOf(ds[|ds| - 1], name))
    ensures Depth(m.disk, name) == Depth(ds[|ds| - 1], name) - 1
  {
    hide Inv, ViewOf, PopView, OnceRight, ManifestFrom, Track, ReadsWell, Depth;
    WellRead(m.lib, ds, m.disk, name);
    o := m.RollbackPack(name);
    SettledReadsWell(m.lib, m.disk, name);
    PopDepth(ds[|ds| - 1], m.disk, name);
    TrackMore(m.lib, ds, m.disk, name);
  }

  lemma PopDepth(d: Disk, d': Disk, name: string)
    requires ViewOf(d, name).history != [] && ViewOf(d', name) == PopView(ViewOf(d, name))
    ensures Depth(d', name) == Depth(d, name) - 1
  {
    hide ViewOf, PopView;
    PopShorter(ViewOf(d, name));
  }

  lemma TrackMore(lib: Library, ds: seq<Disk>, d': Disk, name: string)
    requires Track(lib, ds, name) && Inv(lib, d') && ViewOf(ds[|ds| - 1], name).history != []
    requires ViewOf(d', name) == PopView(ViewOf(ds[|ds| - 1], name)) && Depth(d', name) >= Depth(ds[0], name)
    ensures Track(lib, ds + [d'], name)
  {
    hide Inv, ViewOf, PopView, Depth;
  }

  method UndoTrack(m: SnapshotManager, name: string, k: nat, ghost ds: seq<Disk>) returns (o: Outcome)
    requires StandsAt(m, ds, name) && k <= Depth(ds[|ds| - 1], name) - Depth(ds[0], name)
    requires k > 0 ==> ReadsWell(m.lib, m.disk, name)
    modifies m
    ensures o.Done? && !m.torn
    ensures ViewOf(Settled(m.disk), name) == PopMany(ViewOf(ds[|ds| - 1], name), k)
  {
    hide ViewOf, PopMany, PopView, ReadsWell, StandsAt;
    StoodAt(m, ds, name);
    ghost var v := ViewOf(ds[|ds| - 1], name);
    ghost var es := ds;
    o := Done;
    PopNone(v);
    var i := 0;
    while i < k
      invariant i <= k && o.Done? && es != [] && es[0] == ds[0] && StandsAt(m, es, name)
      invariant i < k ==> ReadsWell(m.lib, m.disk, name)
      invariant ViewOf(es[|es| - 1], name) == PopMany(v, i) && Depth(es[|es| - 1], name) == |v.history| - i
    {
      o := UndoOne(m, name, es);
      PopNext(v, i);
      es := es + [m.disk];
      i := i + 1;
    }
    StoodAt(m, es, name);
  }

  lemma StoodAt(m: SnapshotManager, ds: seq<Disk>, name: string)
    requires StandsAt(m, ds, name)
    ensures !m.torn && ds != [] && Settled(m.disk) == ds[|ds| - 1]
  {
  }

  /** `k` RollbackPack calls undo the last `k` changes to a pack: on whatever directory a session left,
      with working writes and a manifest file that reads well, none is refused, and together they pop
      the pack `k` times; as many as the session made give back the pack as it was before it. */
  method UndoLast(m: SnapshotManager, name: string, k: nat, ghost d0: Disk, ghost es: seq<Entry>) returns (o: Outcome)
    requires Undoable(m.lib, d0, es, m.disk, name) && k <= Depth(Settled(m.disk), name) - Depth(Settled(d0), name)
    requires !m.torn && Working(m) && (k > 0 ==> ReadsWell(m.lib, m.disk, name))
    modifies m
    ensures o.Done? && !m.torn
    ensures ViewOf(Settled(m.disk), name) == PopMany(ViewOf(Settled(old(m.disk)), name), k)
    ensures k == Depth(Settled(old(m.disk)), name) - Depth(Settled(d0), name) ==>
      ViewOf(Settled(m.disk), name) == ViewOf(Settled(d0), name)
  {
    hide Inv, ViewOf, PopMany, Track, Working, ReadsWell, DiskOk, Undoable, Settled;
    ghost var ds := States(d0, es);
    TraceTrack(m.lib, d0, es, m.disk, name);
    PackUndone(m.lib, ds, name, |es|);
    o := UndoTrack(m, name, k, ds);
  }

  lemma PopNone(v: View)
    ensures PopMany(v, 0) == v
  {
  }

  lemma {:induction false} PopNext(v: View, k: nat)
    requires k < |v.history|
    ensures |PopMany(v, k).history| == |v.history| - k && PopView(PopMany(v, k)) == PopMany(v, k + 1)
    decreases k
  {
    hide PopView;
    PopShorter(v);
    if k > 0 { PopNext(PopView(v), k - 1); } else { PopNone(v); PopNone(PopView(v)); }
  }
}
