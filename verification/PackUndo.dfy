/** Undo and redo, and the pack history as a stack. */
module PackUndo {
  import opened Wrappers
  import opened PackDisk
  import opened PackManager
  import opened PackRuns

  // ----- Rollback undoes the last Apply or Remove, and redoes it

  ghost predicate SameFilesAndManifest(a: Disk, b: Disk) { a.files == b.files && a.manifest == b.manifest }

  /** Rolling back a change at `f` made from `d` is allowed exactly when `d`'s packs
      loaded; it brings back `d`'s files and manifest, and rolling back again
      brings back the changed directory whole, undo record included. */
  lemma UndoRedo(lib: Library, d: Disk, d': Disk, f: string, name: string)
    requires d.txn.None? && d'.txn.None? && NoBlank(d) && NoBlank(d') && SafeName(f)
    requires d'.files - {f} == d.files - {f}
    requires d'.undo == Some(Encoded(CurrentRecord(d.files, f).(name := name, manifest := ReadDoc(d.manifest))))
    ensures RollbackSpec(lib, d').Ok? <==> LoadsDir(lib, d.files)
    ensures RollbackSpec(lib, d').Ok? ==> SameFilesAndManifest(RollbackSpec(lib, d').value, d)
    ensures RollbackSpec(lib, d').Ok? && LoadsDir(lib, d'.files) ==>
      RollbackSpec(lib, RollbackSpec(lib, d').value) == Ok(d')
  {
    var r := d'.undo.value.value;
    RestoreCurrent(d.files, d'.files, f);
    assert RestoreFile(d'.files, r) == RestoreFile(d'.files, CurrentRecord(d.files, f)) == d.files;
    if RollbackSpec(lib, d').Ok? {
      var back := RollbackSpec(lib, d').value;
      var redo := back.undo.value.value;
      RestoreCurrent(d'.files, d.files, f);
      assert RestoreFile(back.files, redo) == RestoreFile(d.files, CurrentRecord(d'.files, f)) == d'.files;
    }
  }

  /** Undo and redo of a successful Apply or Remove. */
  lemma ChangeThenRollback(lib: Library, d: Disk, op: Op)
    requires d.txn.None? && NoBlank(d)
    requires (op.Apply? || op.Remove?) && Meaning(lib, d, op).Ok?
    ensures var d' := Meaning(lib, d, op).value;
      && (RollbackSpec(lib, d').Ok? <==> LoadsDir(lib, d.files))
      && (LoadsDir(lib, d.files) ==>
            && SameFilesAndManifest(RollbackSpec(lib, d').value, d)
            && RollbackSpec(lib, RollbackSpec(lib, d').value) == Ok(d'))
  {
    var d', f := Meaning(lib, d, op).value, op.filename;
    assert d'.files - {f} == d.files - {f};
    UndoRedo(lib, d, d', f, d'.undo.value.value.name);
  }

  // ----- one pack's history is a stack of its earlier states

  datatype View = View(files: map<string, string>, entry: Option<PackInstall>, history: seq<PackRevision>)

  /** Everything about one pack: the files it may live in, its entry, its history. */
  function ViewOf(d: Disk, name: string): View
  {
    var m := ManifestOf(d.manifest);
    View(map f | f in d.files && YamlName(f) && Stem(f) == name :: d.files[f], EntryOf(m, name), HistoryOf(m, name))
  }

  function PopView(v: View): View
    requires v.history != []
  {
    var rev := v.history[|v.history| - 1];
    View(if rev.existed then v.files[rev.filename := rev.content] else v.files - {rev.filename},
         rev.previous, v.history[..|v.history| - 1])
  }

  function PopMany(v: View, k: nat): View
    requires k <= |v.history|
    decreases k
  {
    if k == 0 then v else PopMany(PopView(v), k - 1)
  }

  /** A change at a file of pack `other` does not show in the view of `name`. */
  lemma OtherView(d: Disk, d': Disk, f: string, other: string, name: string)
    requires Stem(f) == other != name && d'.files - {f} == d.files - {f}
    requires EntryOf(ManifestOf(d'.manifest), name) == EntryOf(ManifestOf(d.manifest), name)
    requires HistoryOf(ManifestOf(d'.manifest), name) == HistoryOf(ManifestOf(d.manifest), name)
    ensures ViewOf(d', name) == ViewOf(d, name)
  {
    var v, v' := ViewOf(d, name).files, ViewOf(d', name).files;
    forall g ensures g in v <==> g in v' {
      assert g in d.files && g != f <==> g in d.files - {f};
      assert g in d'.files && g != f <==> g in d'.files - {f};
    }
    forall g | g in v ensures v[g] == v'[g] {
      assert d.files[g] == (d.files - {f})[g] == (d'.files - {f})[g] == d'.files[g];
    }
    assert v == v';
  }

  /** Apply and Remove push the pack's current state: popping it gives that state back. */
  lemma PushedView(d: Disk, d': Disk, f: string, name: string)
    requires Stem(f) == name && YamlName(f) && d'.files - {f} == d.files - {f}
    requires HistoryOf(ManifestOf(d'.manifest), name) ==
      HistoryOf(ManifestOf(d.manifest), name) + [PushedRevision(d, f, name)]
    ensures PopView(ViewOf(d', name)) == ViewOf(d, name)
  {
    var v, v' := ViewOf(d, name), ViewOf(d', name);
    var back := PopView(v').files;
    forall g ensures g in back <==> g in v.files {
      assert g in d.files && g != f <==> g in d.files - {f};
      assert g in d'.files && g != f <==> g in d'.files - {f};
    }
    forall g | g in back ensures back[g] == v.files[g] {
      if g != f { assert d.files[g] == (d.files - {f})[g] == (d'.files - {f})[g] == d'.files[g]; }
    }
    assert back == v.files;
  }

  /** Restoring a file of the pack, on the directory and on the view alone. */
  lemma RestoredView(d: Disk, d': Disk, name: string, f: string, existed: bool, content: string)
    requires Stem(f) == name && YamlName(f) && d'.files == if existed then d.files[f := content] else d.files - {f}
    ensures ViewOf(d', name).files ==
      if existed then ViewOf(d, name).files[f := content] else ViewOf(d, name).files - {f}
  {
  }

  lemma PoppedManifestView(d: Disk, d': Disk, name: string)
    requires HistoryOf(ManifestOf(d.manifest), name) != []
    requires d'.manifest == Some(Encoded(Popped(ManifestOf(d.manifest), name)))
    ensures var v, v' := ViewOf(d, name), ViewOf(d', name);
      v'.entry == LastRevision(d, name).previous && v'.history == v.history[..|v.history| - 1]
  {
  }

  lemma PoppedView(lib: Library, d: Disk, name: string)
    requires Inv(lib, d) && RollbackPackSpec(lib, d.manifest, d, name).Ok?
    ensures ViewOf(d, name).history != []
    ensures ViewOf(RollbackPackSpec(lib, d.manifest, d, name).value, name) == PopView(ViewOf(d, name))
  {
    hide Inv, RevisionOk, ManifestChange, YamlName;
    var d' := RollbackPackSpec(lib, d.manifest, d, name).value;
    RollbackPackFileChange(lib, d, name);
    RollbackPackManifestChange(lib, d, name);
    PoppedManifestView(d, d', name);
    var rev := LastRevision(d, name);
    assert rev == ViewOf(d, name).history[|ViewOf(d, name).history| - 1];
    RestoredView(d, d', name, rev.filename, rev.existed, rev.content);
  }

  function NameIn(lib: Library, content: string): Option<string>
  {
    if lib.loadPack(content).Some? then Some(lib.loadPack(content).value.name) else None
  }

  /** Which pack an operation other than Rollback changes. */
  function Subject(lib: Library, d: Disk, op: Op): Option<string>
  {
    match op
    case Apply(_, content, _, _, _) => NameIn(lib, content)
    case Remove(f, _) => if f in d.files then NameIn(lib, d.files[f]) else None
    case Rollback => None
    case RollbackPack(name) => Some(name)
  }

  /** The three things a step other than Rollback can do to a pack's view. */
  ghost predicate ViewStep(lib: Library, d: Disk, op: Op, name: string, v: View, v': View)
  {
    || v' == v
    || (Subject(lib, d, op) == Some(name) && !op.RollbackPack? && v'.history != [] && PopView(v') == v)
    || (op == RollbackPack(name) && v.history != [] && v' == PopView(v))
  }

  lemma ApplyView(lib: Library, d: Disk, op: Op, name: string)
    requires Inv(lib, d) && op.Apply? && Meaning(lib, d, op).Ok?
    ensures ViewStep(lib, d, op, name, ViewOf(d, name), ViewOf(Meaning(lib, d, op).value, name))
  {
    var d', f, n := Meaning(lib, d, op).value, op.filename, lib.loadPack(op.content).value.name;
    ApplyManifest(lib, d, op);
    assert d'.files - {f} == d.files - {f};
    if n == name { PushedView(d, d', f, name); } else { OtherView(d, d', f, n, name); }
  }

  lemma RemoveView(lib: Library, d: Disk, op: Op, name: string)
    requires Inv(lib, d) && op.Remove? && Meaning(lib, d, op).Ok?
    ensures ViewStep(lib, d, op, name, ViewOf(d, name), ViewOf(Meaning(lib, d, op).value, name))
  {
    var d', f, n := Meaning(lib, d, op).value, op.filename, lib.loadPack(d.files[op.filename]).value.name;
    RemoveManifest(lib, d, op);
    assert d'.files - {f} == d.files - {f};
    if n == name { PushedView(d, d', f, name); } else { OtherView(d, d', f, n, name); }
  }

  lemma OtherPoppedView(lib: Library, d: Disk, other: string, name: string)
    requires Inv(lib, d) && RollbackPackSpec(lib, d.manifest, d, other).Ok? && other != name
    ensures ViewOf(RollbackPackSpec(lib, d.manifest, d, other).value, name) == ViewOf(d, name)
  {
    RollbackPackFileChange(lib, d, other);
    RollbackPackManifestChange(lib, d, other);
    OtherView(d, RollbackPackSpec(lib, d.manifest, d, other).value, LastRevision(d, other).filename, other, name);
  }

  lemma RollbackPackView(lib: Library, d: Disk, op: Op, name: string)
    requires Inv(lib, d) && op.RollbackPack? && Meaning(lib, d, op).Ok?
    ensures ViewStep(lib, d, op, name, ViewOf(d, name), ViewOf(Meaning(lib, d, op).value, name))
  {
    if op.name == name { PoppedView(lib, d, name); } else { OtherPoppedView(lib, d, op.name, name); }
  }

  /** Every step but Rollback leaves a pack's view alone, pushes it, or pops it. */
  lemma StepView(lib: Library, d: Disk, op: Op, d': Disk, name: string)
    requires Inv(lib, d) && Step(lib, d, op, d') && !op.Rollback?
    ensures ViewStep(lib, d, op, name, ViewOf(d, name), ViewOf(d', name))
  {
    if d' != d {
      match op
      case Apply(_, _, _, _, _) => ApplyView(lib, d, op, name);
      case Remove(_, _) => RemoveView(lib, d, op, name);
      case RollbackPack(_) => RollbackPackView(lib, d, op, name);
    }
  }

  // ----- runs

  ghost predicate Run(lib: Library, ds: seq<Disk>, ops: seq<Op>)
  {
    |ds| == |ops| + 1 && forall i :: 0 <= i < |ops| ==> Step(lib, ds[i], ops[i], ds[i + 1])
  }

  /** Whole-run manifest agreement, for every run of operations that succeed or fail. */
  lemma {:induction false} RunKeeps(lib: Library, ds: seq<Disk>, ops: seq<Op>, i: nat)
    requires Run(lib, ds, ops) && Inv(lib, ds[0]) && i < |ds|
    ensures Inv(lib, ds[i])
  {
    if i > 0 {
      RunKeeps(lib, ds, ops, i - 1);
      StepKeeps(lib, ds[i - 1], ops[i - 1], ds[i]);
    }
  }

  // ----- the states of a session, seen from one pack

  /** The number of revisions kept of a pack. */
  function Depth(d: Disk, name: string): nat { |ViewOf(d, name).history| }

  /** What a session without Rollback does to a pack: nothing, a push of its earlier state under a safe
      file name, or a pop. */
  ghost predicate ViewMove(v: View, v': View)
  {
    || v' == v
    || (v'.history != [] && PopView(v') == v && SafeName(v'.history[|v'.history| - 1].filename))
    || (v.history != [] && v' == PopView(v))
  }

  ghost predicate Moves(ds: seq<Disk>, name: string)
  {
    forall i :: 0 < i < |ds| ==> ViewMove(ViewOf(ds[i - 1], name), ViewOf(ds[i], name))
  }

  /** Settled states that only move in these ways, with no fewer revisions than at the start. */
  ghost predicate Track(lib: Library, ds: seq<Disk>, name: string)
  {
    && ds != [] && Moves(ds, name)
    && (forall i :: 0 <= i < |ds| ==> Inv(lib, ds[i]))
    && (forall i :: 0 <= i < |ds| ==> Depth(ds[i], name) >= Depth(ds[0], name))
  }

  /** Apply and Remove push a revision with the file name they were given, which is safe. */
  lemma PushedSafe(lib: Library, d: Disk, op: Op, d': Disk, name: string)
    requires Inv(lib, d) && (op.Apply? || op.Remove?) && Meaning(lib, d, op) == Ok(d')
    requires Subject(lib, d, op) == Some(name)
    ensures var h := ViewOf(d', name).history; h != [] && SafeName(h[|h| - 1].filename)
  {
    if op.Apply? { ApplyManifest(lib, d, op); } else { RemoveManifest(lib, d, op); }
  }

  lemma StepMoves(lib: Library, d: Disk, op: Op, d': Disk, name: string)
    requires Inv(lib, d) && Step(lib, d, op, d') && !op.Rollback?
    ensures ViewMove(ViewOf(d, name), ViewOf(d', name))
  {
    hide Inv, ViewOf, PopView;
    StepView(lib, d, op, d', name);
    if ViewOf(d', name) != ViewOf(d, name) && !op.RollbackPack? { PushedSafe(lib, d, op, d', name); }
  }

  /** A run of operations on settled directories, without Rollback, moves in these ways. */
  lemma RunMoves(lib: Library, ds: seq<Disk>, ops: seq<Op>, name: string)
    requires Run(lib, ds, ops) && Inv(lib, ds[0]) && forall j :: 0 <= j < |ops| ==> !ops[j].Rollback?
    ensures Moves(ds, name) && forall i :: 0 <= i < |ds| ==> Inv(lib, ds[i])
  {
    hide Inv, ViewOf, ViewMove;
    forall i | 0 <= i < |ds| ensures Inv(lib, ds[i]) { RunKeeps(lib, ds, ops, i); }
    forall i | 0 < i < |ds| ensures ViewMove(ViewOf(ds[i - 1], name), ViewOf(ds[i], name)) {
      StepMoves(lib, ds[i - 1], ops[i - 1], ds[i], name);
    }
  }

  /** A move keeps the number of surplus revisions and the view below them. */
  lemma PopAfterMove(v: View, v': View, base: nat)
    requires ViewMove(v, v') && base <= |v.history| && base <= |v'.history|
    ensures PopMany(v', |v'.history| - base) == PopMany(v, |v.history| - base)
  {
  }

  /** Popping the surplus revisions gives the pack as it was at the start, whatever happened to other packs. */
  lemma {:induction false} PackUndone(lib: Library, ds: seq<Disk>, name: string, i: nat)
    requires Track(lib, ds, name) && i < |ds|
    ensures PopMany(ViewOf(ds[i], name), Depth(ds[i], name) - Depth(ds[0], name)) == ViewOf(ds[0], name)
    ensures Depth(ds[i], name) == Depth(ds[0], name) ==> ViewOf(ds[i], name) == ViewOf(ds[0], name)
  {
    hide Inv, ViewOf, ViewMove, PopView;
    if i > 0 {
      PackUndone(lib, ds, name, i - 1);
      PopAfterMove(ViewOf(ds[i - 1], name), ViewOf(ds[i], name), Depth(ds[0], name));
    }
  }

  // ----- RollbackPack succeeds as long as there are changes to undo

  /** The newest revision at `i` was pushed on the way: its file name is safe, and popping it gives the
      view of an earlier state. */
  ghost predicate PushedAt(ds: seq<Disk>, name: string, i: nat, j: nat)
    requires i < |ds|
  {
    var v := ViewOf(ds[i], name);
    && j < i && v.history != [] && PopView(v) == ViewOf(ds[j], name)
    && SafeName(v.history[|v.history| - 1].filename)
  }

  lemma {:induction false} SomePush(lib: Library, ds: seq<Disk>, name: string, i: nat) returns (j: nat)
    requires Track(lib, ds, name) && i < |ds| && Depth(ds[i], name) > Depth(ds[0], name)
    ensures PushedAt(ds, name, i, j)
    decreases i
  {
    hide ViewOf, Inv, PopView, SafeName;
    var v, v' := ViewOf(ds[i - 1], name), ViewOf(ds[i], name);
    assert ViewMove(v, v');
    if v' == v {
      j := SomePush(lib, ds, name, i - 1);
    } else if v.history != [] && v' == PopView(v) {
      PopShorter(v);
      var k := SomePush(lib, ds, name, i - 1);
      j := SomePush(lib, ds, name, k);
    } else {
      j := i - 1;
    }
  }

  lemma PopShorter(v: View)
    requires v.history != []
    ensures |PopView(v).history| == |v.history| - 1
  {
  }

  /** Files that each load, under names that are all different, where the files of pack `name` are those
      of one such directory and all others those of another. */
  lemma MixedLoads(lib: Library, a: map<string, string>, b: map<string, string>, c: map<string, string>, name: string)
    requires LoadsDir(lib, a) && FilesOk(lib, a) && LoadsDir(lib, b) && FilesOk(lib, b)
    requires forall f :: YamlName(f) && Stem(f) == name ==> (f in c <==> f in a) && (f in c ==> c[f] == a[f])
    requires forall f :: YamlName(f) && Stem(f) != name ==> (f in c <==> f in b) && (f in c ==> c[f] == b[f])
    ensures LoadsDir(lib, c)
  {
    hide YamlName, Stem;
    forall f | f in c && YamlName(f)
      ensures Loads(lib, c, f) && lib.loadPack(c[f]).value.name == Stem(f)
    {
      if Stem(f) == name { assert FileOk(lib, a, f); } else { assert FileOk(lib, b, f); }
    }
    forall f, g | f in c && g in c && YamlName(f) && YamlName(g) && f != g
      ensures lib.loadPack(c[f]).value.name != lib.loadPack(c[g]).value.name
    {
    }
  }

  /** A directory with the files of one pack popped. */
  lemma PoppedLoads(lib: Library, d: Disk, earlier: Disk, name: string, rev: PackRevision)
    requires Inv(lib, d) && Inv(lib, earlier) && YamlName(rev.filename) && Stem(rev.filename) == name
    requires ViewOf(earlier, name).files ==
      if rev.existed then ViewOf(d, name).files[rev.filename := rev.content] else ViewOf(d, name).files - {rev.filename}
    ensures LoadsDir(lib, if rev.existed then d.files[rev.filename := rev.content] else d.files - {rev.filename})
  {
    hide LoadsDir, YamlName, Stem, FilesOk;
    var c := if rev.existed then d.files[rev.filename := rev.content] else d.files - {rev.filename};
    forall f | YamlName(f) && Stem(f) == name
      ensures (f in c <==> f in earlier.files) && (f in c ==> c[f] == earlier.files[f])
    {
      assert f in ViewOf(earlier, name).files <==> f in earlier.files;
      assert f in ViewOf(d, name).files <==> f in d.files;
    }
    MixedLoads(lib, earlier.files, d.files, c, name);
  }

  /** While a pack has more revisions than at the start, RollbackPack of it is not refused. */
  lemma PackCanUndo(lib: Library, ds: seq<Disk>, name: string, i: nat)
    requires Track(lib, ds, name) && i < |ds| && Depth(ds[i], name) > Depth(ds[0], name)
    ensures ViewOf(ds[i], name).history != [] && RollbackPackSpec(lib, ds[i].manifest, ds[i], name).Ok?
  {
    hide Inv, LoadsDir, SafeName, YamlName, Stem;
    var j := SomePush(lib, ds, name, i);
    var h := ViewOf(ds[i], name).history;
    TopOk(lib, ds[i], name);
    PoppedLoads(lib, ds[i], ds[j], name, h[|h| - 1]);
    CanRestore(lib, ds[i], name);
  }

  lemma TopOk(lib: Library, d: Disk, name: string)
    requires Inv(lib, d) && ViewOf(d, name).history != []
    ensures var h := ViewOf(d, name).history; YamlName(h[|h| - 1].filename) && Stem(h[|h| - 1].filename) == name
  {
    var h := ViewOf(d, name).history;
    assert RevisionOk(lib, name, h[|h| - 1]);
  }

  lemma CanRestore(lib: Library, d: Disk, name: string)
    requires Inv(lib, d) && ViewOf(d, name).history != []
    requires var h := ViewOf(d, name).history; var rev := h[|h| - 1];
      && SafeName(rev.filename)
      && LoadsDir(lib, if rev.existed then d.files[rev.filename := rev.content] else d.files - {rev.filename})
    ensures RollbackPackSpec(lib, d.manifest, d, name).Ok?
  {
    hide LoadsDir;
  }
}
