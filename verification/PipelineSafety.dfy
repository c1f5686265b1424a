/** Every step of the pipeline keeps its invariant; what that gives for whole runs. */
module PipelineSafety {
  import opened Wrappers
  import opened PipelineStore
  import opened PipelineRun

  // ----- frames

  /** A thread on an input whose rows did not change is where it was. */
  lemma ThreadFrame(lib: Library, db: Db, db': Db, hasty: set<RawId>, hasty': set<RawId>, th: Thread)
    requires ThreadOk(lib, db, hasty, th) && hasty <= hasty'
    requires RawOf(th).Some? ==> SameFor(db, db', RawOf(th).value)
    ensures ThreadOk(lib, db', hasty', th) && Due(db', th) == Due(db, th)
  {
    if RawOf(th).Some? {
      var r := RawOf(th).value;
      forall o: nat ensures HasRow(db', Child(r, o)) == HasRow(db, Child(r, o)) { SameHasRow(db, db', r, o); }
      SameRowsThread(lib, db, db', hasty, hasty', th);
    }
  }

  /** The same, when rows were moved between the tables but no child gained or lost one; a
      status about to be written is then only trusted if the input is not hasty. */
  lemma SameRowsThread(lib: Library, db: Db, db': Db, hasty: set<RawId>, hasty': set<RawId>, th: Thread)
    requires ThreadOk(lib, db, hasty, th) && hasty <= hasty' && RawOf(th).Some?
    requires var r := RawOf(th).value;
      && r in db.raws && r in db'.raws && db'.raws[r].payload == db.raws[r].payload
      && (forall o: nat :: HasRow(db', Child(r, o)) == HasRow(db, Child(r, o)))
      && (r in hasty' || Derived(db', r) == Derived(db, r) || !Overtaken(th, r, Derived(db', r)))
    ensures ThreadOk(lib, db', hasty', th) && Due(db', th) == Due(db, th)
  {
    match th
    case Expanding(r, _, n, _) => SameMissing(db, db', r, 0, n);
    case Looping(r, _, n, i, _, _) => SameMissing(db, db', r, i, n);
    case Working(r, _, n, i, _, _) => SameMissing(db, db', r, i, n);
    case Written(r, _, n, i, _, _) => SameMissing(db, db', r, i + 1, n);
    case _ =>
  }

  /** Changes to one input leave the others' finalised outcomes alone. */
  lemma FinalFrame(lib: Library, db: Db, db': Db, hasty: set<RawId>, r: RawId)
    requires FinalOk(lib, db, hasty) && db'.raws.Keys == db.raws.Keys
    requires forall x :: x in db.raws && x != r ==> SameFor(db, db', x) && db'.raws[x].status == db.raws[x].status
    requires r in db.raws && r !in hasty ==> FinalRowOk(lib, db', r)
    ensures FinalOk(lib, db', hasty)
  {
    forall x | x in db'.raws && x !in hasty ensures FinalRowOk(lib, db', x) {
      if x != r {
        assert FinalRowOk(lib, db, x);
        forall o: nat ensures HasRow(db', Child(x, o)) == HasRow(db, Child(x, o)) { SameHasRow(db, db', x, o); }
      }
    }
  }

  // ----- one thread's step

  /** The obligations of a step by thread `t` alone. */
  ghost predicate LocalStep(lib: Library, s: State, s': State, t: nat, th': Thread)
  {
    && t < |s.threads| && s'.threads == s.threads[t := th'] && s'.hasty == s.hasty
    && TablesOk(lib, s'.db, s.hasty)
    && ThreadOk(lib, s'.db, s.hasty, th')
    && (RawOf(th').Some? ==> RawOf(s.threads[t]) == RawOf(th') || !Busy(s.threads, RawOf(th').value))
    && (forall j :: 0 <= j < |s.threads| && j != t && RawOf(s.threads[j]).Some? ==>
      SameFor(s.db, s'.db, RawOf(s.threads[j]).value))
    && s'.accepted - s.accepted == Rows(s'.db) - Rows(s.db) + s'.pending - s.pending
                                   + Skew(th') - Skew(s.threads[t]) + s'.overcount - s.overcount
    && s'.pending - s.pending == |s'.queue| - |s.queue| + Due(s'.db, th') - Due(s.db, s.threads[t]) + s'.stuck - s.stuck
  }

  lemma LocalStepThreads(lib: Library, s: State, s': State, t: nat, th': Thread)
    requires Inv(lib, s) && LocalStep(lib, s, s', t, th')
    ensures ThreadsOk(lib, s'.db, s.hasty, s'.threads)
    ensures forall j :: 0 <= j < |s.threads| && j != t ==> Due(s'.db, s.threads[j]) == Due(s.db, s.threads[j])
  {
    forall j | 0 <= j < |s.threads| && j != t
      ensures ThreadOk(lib, s'.db, s.hasty, s.threads[j]) && Due(s'.db, s.threads[j]) == Due(s.db, s.threads[j])
    {
      ThreadFrame(lib, s.db, s'.db, s.hasty, s.hasty, s.threads[j]);
    }
  }

  lemma PutExclusive(threads: seq<Thread>, t: nat, th': Thread)
    requires t < |threads| && Exclusive(threads)
    requires RawOf(th').Some? ==> RawOf(threads[t]) == RawOf(th') || !Busy(threads, RawOf(th').value)
    ensures Exclusive(threads[t := th'])
  {
  }

  lemma LocalStepKeeps(lib: Library, s: State, s': State, t: nat, th': Thread)
    requires Inv(lib, s) && LocalStep(lib, s, s', t, th')
    ensures Inv(lib, s')
  {
    LocalStepThreads(lib, s, s', t, th');
    PutExclusive(s.threads, t, th');
    SumSkewPut(s.threads, t, th');
    SumDuePut(s.db, s'.db, s.threads, t, th');
  }

  lemma ThreadRawKnown(lib: Library, s: State, j: nat)
    requires ThreadsOk(lib, s.db, s.hasty, s.threads) && j < |s.threads|
    ensures RawOf(s.threads[j]).Some? ==> RawOf(s.threads[j]).value in s.db.raws
  {
    assert ThreadOk(lib, s.db, s.hasty, s.threads[j]);
  }

  /** A step that leaves the tables alone. */
  lemma PureStepKeeps(lib: Library, s: State, s': State, t: nat, th': Thread)
    requires Inv(lib, s) && t < |s.threads|
    requires s'.threads == s.threads[t := th'] && s'.hasty == s.hasty && s'.db == s.db
    requires ThreadOk(lib, s.db, s.hasty, th')
    requires RawOf(th').Some? ==> RawOf(s.threads[t]) == RawOf(th') || !Busy(s.threads, RawOf(th').value)
    requires s'.accepted - s.accepted ==
      s'.pending - s.pending + Skew(th') - Skew(s.threads[t]) + s'.overcount - s.overcount
    requires s'.pending - s.pending == |s'.queue| - |s.queue| + Due(s.db, th') - Due(s.db,
        s.threads[t]) + s'.stuck - s.stuck
    ensures Inv(lib, s')
  {
    forall j | 0 <= j < |s.threads| && j != t && RawOf(s.threads[j]).Some?
      ensures SameFor(s.db, s.db, RawOf(s.threads[j]).value)
    {
      ThreadRawKnown(lib, s, j);
    }
    LocalStepKeeps(lib, s, s', t, th');
  }

  lemma SubmitKeeps(lib: Library, s: State, l: Label, s': State)
    requires Inv(lib, s) && (l.Submit? || l.SubmitSync? || l.Take?) && Step(lib, s, l) == Some(s')
    ensures Inv(lib, s')
  {
    PureStepKeeps(lib, s, s', l.t, s'.threads[l.t]);
  }

  /** A counter update of Submit, SubmitSync or a refusal. */
  lemma TickOutside(lib: Library, s: State, t: nat, s': State)
    requires Inv(lib, s) && t < |s.threads| && TickStep(s, t) == Some(s') && RawOf(s.threads[t]).None?
    ensures Inv(lib, s')
  {
    PureStepKeeps(lib, s, s', t, s'.threads[t]);
  }

  lemma TickWritten(lib: Library, s: State, t: nat, s': State)
    requires Inv(lib, s) && t < |s.threads| && TickStep(s, t) == Some(s') && s.threads[t].Written?
    ensures Inv(lib, s')
  {
    hide FinalOk, OneRow, RowsOk, SameFor, SumSkew, SumDue;
    var Written(r, recovering, n, i, u, left) := s.threads[t];
    var th' := Looping(r, recovering, n, i + 1, u, left);
    assert ThreadOk(lib, s.db, s.hasty, s.threads[t]);
    assert !u ==> Complete(s.db, r, i + 1);
    assert ThreadOk(lib, s.db, s.hasty, th');
    PureStepKeeps(lib, s, s', t, th');
  }

  lemma TickInside(lib: Library, s: State, t: nat, s': State)
    requires Inv(lib, s) && t < |s.threads| && TickStep(s, t) == Some(s') &&
      (s.threads[t].Expanding? || s.threads[t].WholeWritten?)
    ensures Inv(lib, s')
  {
    assert ThreadOk(lib, s.db, s.hasty, s.threads[t]);
    assert ThreadOk(lib, s.db, s.hasty, s'.threads[t]);
    PureStepKeeps(lib, s, s', t, s'.threads[t]);
  }

  lemma TickKeeps(lib: Library, s: State, t: nat, s': State)
    requires Inv(lib, s) && t < |s.threads| && TickStep(s, t) == Some(s')
    ensures Inv(lib, s')
  {
    if RawOf(s.threads[t]).None? { TickOutside(lib, s, t, s'); }
    else if s.threads[t].Written? { TickWritten(lib, s, t, s'); }
    else { TickInside(lib, s, t, s'); }
  }

  lemma LoadFailKeeps(lib: Library, s: State, l: Label, s': State)
    requires Inv(lib, s) && l.LoadFail? && Step(lib, s, l) == Some(s')
    ensures Inv(lib, s')
  {
    PureStepKeeps(lib, s, s', l.t, RefuseHalf);
  }

  lemma LoadDuplicateKeeps(lib: Library, s: State, l: Label, s': State)
    requires Inv(lib, s) && l.LoadDuplicate? && Step(lib, s, l) == Some(s')
    ensures Inv(lib, s')
  {
    hide FinalOk, OneRow, RowsOk, SameFor, SumSkew, SumDue;
    if s.db.raws[l.raw].status == Accepted {
      PureStepKeeps(lib, s, s', l.t, Decoding(l.raw, true));
    } else {
      PureStepKeeps(lib, s, s', l.t, RefuseHalf);
    }
  }

  lemma LoadExistingKeeps(lib: Library, s: State, l: Label, s': State)
    requires Inv(lib, s) && l.LoadExisting? && Step(lib, s, l) == Some(s')
    ensures Inv(lib, s')
  {
    PureStepKeeps(lib, s, s', l.t, Decoding(s.threads[l.t].rec.raw, true));
  }

  lemma NewInputUnused(lib: Library, s: State, db': Db, r: RawId)
    requires Inv(lib, s) && r !in s.db.raws && db'.norm == s.db.norm && db'.quar == s.db.quar
    ensures NoRowsFrom(db', r, 0) && !Busy(s.threads, r)
  {
    forall j | 0 <= j < |s.threads| ensures RawOf(s.threads[j]) != Some(r) { ThreadRawKnown(lib, s, j); }
  }

  lemma NewInputFrame(lib: Library, s: State, db': Db, t: nat, r: RawId)
    requires Inv(lib, s) && r !in s.db.raws && r in db'.raws && db' == s.db.(raws := s.db.raws[r := db'.raws[r]])
    ensures forall j :: 0 <= j < |s.threads| && j != t && RawOf(s.threads[j]).Some? ==>
      SameFor(s.db, db', RawOf(s.threads[j]).value)
  {
    forall j | 0 <= j < |s.threads| && j != t && RawOf(s.threads[j]).Some?
      ensures SameFor(s.db, db', RawOf(s.threads[j]).value)
    {
      ThreadRawKnown(lib, s, j);
    }
  }

  /** A new input has no rows: rows only belong to stored inputs. */
  lemma LoadNewKeeps(lib: Library, s: State, l: Label, s': State)
    requires Inv(lib, s) && l.LoadNew? && Step(lib, s, l) == Some(s')
    ensures Inv(lib, s')
  {
    hide SumSkew, SumDue, FinalOk, RowsOk, OneRow, SameFor, HasRow;
    var r := l.raw;
    NewInputUnused(lib, s, s'.db, r);
    NewInputTables(lib, s.db, s'.db, s.hasty, r);
    NewInputFrame(lib, s, s'.db, l.t, r);
    assert LocalStep(lib, s, s', l.t, Decoding(r, false));
    LocalStepKeeps(lib, s, s', l.t, Decoding(r, false));
  }

  lemma NewInputTables(lib: Library, db: Db, db': Db, hasty: set<RawId>, r: RawId)
    requires TablesOk(lib, db, hasty) && r !in db.raws && r in db'.raws && db'.raws[r].status == Accepted
    requires db' == db.(raws := db.raws[r := db'.raws[r]])
    ensures TablesOk(lib, db', hasty)
  {
    forall q | q in db.quar ensures QuarRowOk(lib, db'.raws, q) { assert QuarRowOk(lib, db.raws, q); }
    forall e | e in db.norm ensures NormRowOk(lib, db'.raws, db.norm[e]) { assert NormRowOk(lib, db.raws, db.norm[e]); }
    forall x | x in db'.raws && x !in hasty ensures FinalRowOk(lib, db', x) {
      if x != r {
        assert FinalRowOk(lib, db, x);
        assert SameFor(db, db', x);
        forall o: nat ensures HasRow(db', Child(x, o)) == HasRow(db, Child(x, o)) { SameHasRow(db, db', x, o); }
      }
    }
  }

  // ----- rows added for one input

  /** A row added for a child that had none, to an input still being worked on. */
  ghost predicate RowAdded(lib: Library, db: Db, db': Db, c: Child)
  {
    && OneRow(db') && RowsOk(lib, db') && Rows(db') == Rows(db) + 1
    && db'.raws == db.raws
    && (forall r :: r in db.raws && r != c.raw ==> SameFor(db, db', r))
    && (forall c': Child :: HasRow(db', c') == (c' == c || HasRow(db, c')))
  }

  lemma NormFrame(db: Db, c: Child, newId: EventId, r: RawId)
    requires r in db.raws && r != c.raw && newId !in db.norm
    ensures SameFor(db, db.(norm := db.norm[newId := c]), r)
  {
    assert NormOf(db.(norm := db.norm[newId := c]), r) == NormOf(db, r);
  }

  lemma NormAdded(lib: Library, db: Db, c: Child, newId: EventId)
    requires OneRow(db) && RowsOk(lib, db) && NormRowOk(lib, db.raws, c) && !HasRow(db, c) && newId !in db.norm
    ensures RowAdded(lib, db, AddNorm(db, c, newId), c)
  {
    var db' := AddNorm(db, c, newId);
    AddNormRows(lib, db, c, newId);
    forall c': Child ensures HasRow(db', c') == (c' == c || HasRow(db, c')) { AddNormHas(db, c, newId, c'); }
    forall r | r in db.raws && r != c.raw ensures SameFor(db, db', r) { NormFrame(db, c, newId, r); }
  }

  lemma QuarFrame(db: Db, q: QRow, r: RawId)
    requires r in db.raws && r != q.child.raw
    ensures SameFor(db, AddQuar(db, q), r)
  {
    assert QuarOf(AddQuar(db, q), r) == QuarOf(db, r);
  }

  lemma QuarAdded(lib: Library, db: Db, q: QRow)
    requires OneRow(db) && RowsOk(lib, db) && QuarRowOk(lib, db.raws, q) && !HasRow(db, q.child)
    ensures RowAdded(lib, db, AddQuar(db, q), q.child)
  {
    var db' := AddQuar(db, q);
    assert q !in db.quar;
    AddQuarRows(lib, db, q);
    forall c': Child ensures HasRow(db', c') == (c' == q.child || HasRow(db, c')) { AddQuarHas(db, q, c'); }
    forall r | r in db.raws && r != q.child.raw ensures SameFor(db, db', r) { QuarFrame(db, q, r); }
  }

  /** A child without a row belongs to an input that is not finalised (or is hasty). */
  lemma AddedFinalOk(lib: Library, db: Db, db': Db, hasty: set<RawId>, c: Child)
    requires FinalOk(lib, db, hasty) && RowAdded(lib, db, db', c) && c.raw in db.raws
    requires !HasRow(db, c) && (c.ord < Count(lib, db.raws, c.raw) || Count(lib, db.raws, c.raw) == 0)
    ensures FinalOk(lib, db', hasty)
  {
    if c.raw !in hasty { assert FinalRowOk(lib, db, c.raw); }
    FinalFrame(lib, db, db', hasty, c.raw);
  }

  lemma OthersSame(lib: Library, s: State, db': Db, t: nat, r: RawId)
    requires Inv(lib, s) && t < |s.threads| && RawOf(s.threads[t]) == Some(r)
    requires forall x :: x in s.db.raws && x != r ==> SameFor(s.db, db', x)
    ensures forall j :: 0 <= j < |s.threads| && j != t && RawOf(s.threads[j]).Some? ==>
      SameFor(s.db, db', RawOf(s.threads[j]).value)
  {
    forall j | 0 <= j < |s.threads| && j != t && RawOf(s.threads[j]).Some?
      ensures SameFor(s.db, db', RawOf(s.threads[j]).value)
    {
      ThreadRawKnown(lib, s, j);
    }
  }

  lemma WrittenOk(lib: Library, db: Db, db': Db, hasty: set<RawId>, th: Thread)
    requires th.Working? && ThreadOk(lib, db, hasty, th) && RowAdded(lib, db, db', Child(th.raw, th.i))
    ensures var th' := Written(th.raw, th.recovering, th.n, th.i, th.unresolved, th.left);
      ThreadOk(lib, db', hasty, th') && Due(db', th') == Due(db, th)
  {
    hide OneRow, RowsOk, SameFor;
    forall o | th.i + 1 <= o < th.n ensures HasRow(db', Child(th.raw, o)) == HasRow(db, Child(th.raw, o)) {
    }
    SameMissing(db, db', th.raw, th.i + 1, th.n);
  }

  lemma RowWrittenKeeps(lib: Library, s: State, t: nat, s': State)
    requires Inv(lib, s) && t < |s.threads| && s.threads[t].Working?
    requires var th := s.threads[t];
      && RowAdded(lib, s.db, s'.db, Child(th.raw, th.i))
      && s' == Put(s, t, Written(th.raw, th.recovering, th.n, th.i, th.unresolved, th.left)).(db := s'.db)
    ensures Inv(lib, s')
  {
    hide FinalOk, OneRow, RowsOk, HasRow, SameFor, SumSkew, SumDue, Missing;
    var th := s.threads[t];
    assert ThreadOk(lib, s.db, s.hasty, th);
    AddedTables(lib, s.db, s'.db, Child(th.raw, th.i));
    AddedFinalOk(lib, s.db, s'.db, s.hasty, Child(th.raw, th.i));
    WrittenOk(lib, s.db, s'.db, s.hasty, th);
    OthersSame(lib, s, s'.db, t, th.raw);
    assert LocalStep(lib, s, s', t, s'.threads[t]);
    LocalStepKeeps(lib, s, s', t, s'.threads[t]);
  }

  lemma NormalizeKeeps(lib: Library, s: State, l: Label, s': State)
    requires Inv(lib, s) && l.Normalize? && Step(lib, s, l) == Some(s')
    ensures Inv(lib, s')
  {
    var th := s.threads[l.t];
    assert ThreadOk(lib, s.db, s.hasty, th);
    NormAdded(lib, s.db, Child(th.raw, th.i), l.newId);
    RowWrittenKeeps(lib, s, l.t, s');
  }

  lemma QuarantineKeeps(lib: Library, s: State, l: Label, s': State)
    requires Inv(lib, s) && l.Quarantine? && Step(lib, s, l) == Some(s')
    ensures Inv(lib, s')
  {
    hide FinalOk, OneRow, RowsOk, SameFor, SumSkew, SumDue;
    var th := s.threads[l.t];
    assert ThreadOk(lib, s.db, s.hasty, th);
    QuarAdded(lib, s.db, QRow(Child(th.raw, th.i), l.stage, l.reason));
    RowWrittenKeeps(lib, s, l.t, s');
  }

  lemma GiveUpKeeps(lib: Library, s: State, l: Label, s': State)
    requires Inv(lib, s) && l.GiveUp? && Step(lib, s, l) == Some(s')
    ensures Inv(lib, s')
  {
    assert ThreadOk(lib, s.db, s.hasty, s.threads[l.t]);
    assert ThreadOk(lib, s.db, s.hasty, s'.threads[l.t]);
    PureStepKeeps(lib, s, s', l.t, s'.threads[l.t]);
  }

  lemma CheckKeeps(lib: Library, s: State, t: nat, ok: bool, s': State)
    requires Inv(lib, s) && t < |s.threads| && CheckStep(s, t, ok) == Some(s')
    ensures Inv(lib, s')
  {
    hide FinalOk, OneRow, RowsOk, SameFor, SumSkew, SumDue;
    var th := s.threads[t];
    assert ThreadOk(lib, s.db, s.hasty, th);
    PureStepKeeps(lib, s, s', t, s'.threads[t]);
  }

  // ----- decoding

  /** Batch expansion: `delta` makes this input's share of `pending` the children still missing. */
  lemma ExpandOk(lib: Library, db: Db, hasty: set<RawId>, th: Thread)
    requires OneRow(db) && RowsOk(lib, db) && th.Decoding? && ThreadOk(lib, db, hasty, th)
    requires Count(lib, db.raws, th.raw) > 0
    ensures var r, n := th.raw, Count(lib, db.raws, th.raw);
      && ThreadOk(lib, db, hasty, Expanding(r, th.recovering, n, n - Completed(db, r) - 1))
      && (!th.recovering ==> Completed(db, r) == 0)
      && (!th.recovering && n == 1 ==> ThreadOk(lib, db, hasty, Looping(r, false, 1, 0, false, 0))
                                       && Due(db, Looping(r, false, 1, 0, false, 0)) == 1)
  {
    var n := Count(lib, db.raws, th.raw);
    CompletedPlusMissing(lib, db, th.raw);
    if !th.recovering { NoneMissing(db, th.raw, 0, n); }
  }

  lemma ExpandKeeps(lib: Library, s: State, t: nat, ok: bool, s': State)
    requires Inv(lib, s) && t < |s.threads| && DecodeStep(lib, s, t, ok) == Some(s') && !s'.threads[t].WholeWritten?
    ensures Inv(lib, s')
  {
    hide SumSkew, SumDue, FinalOk, RowsOk, OneRow, Exclusive, HasRow;
    var th := s.threads[t];
    assert ThreadOk(lib, s.db, s.hasty, th);
    if Count(lib, s.db.raws, th.raw) > 0 { ExpandOk(lib, s.db, s.hasty, th); }
    assert ThreadOk(lib, s.db, s.hasty, s'.threads[t]);
    PureStepKeeps(lib, s, s', t, s'.threads[t]);
  }

  /** The rows of an input without children are its one quarantine row, or nothing. */
  lemma WholeUnused(lib: Library, db: Db, r: RawId)
    requires RowsOk(lib, db) && r in db.raws && Count(lib, db.raws, r) == 0 && WholeRow(lib, db.raws, r) !in db.quar
    ensures !HasRow(db, Child(r, 0))
  {
  }

  lemma AddedTables(lib: Library, db: Db, db': Db, c: Child)
    requires RowAdded(lib, db, db', c) && c.raw in db.raws
    ensures OneRow(db') && RowsOk(lib, db') && Rows(db') == Rows(db) + 1 && db'.raws == db.raws
    ensures forall x :: x in db.raws && x != c.raw ==> SameFor(db, db', x)
  {
  }

  lemma WholeAddedKeeps(lib: Library, s: State, t: nat, s': State)
    requires Inv(lib, s) && t < |s.threads| && s.threads[t].Decoding? && s.threads[t].raw in s.db.raws
    requires Count(lib, s.db.raws, s.threads[t].raw) == 0
    requires RowAdded(lib, s.db, s'.db, Child(s.threads[t].raw, 0)) && !HasRow(s.db, Child(s.threads[t].raw, 0))
    requires s' == Put(s, t, WholeWritten(s.threads[t].raw, true)).(db := s'.db)
    ensures Inv(lib, s')
  {
    hide FinalOk, OneRow, RowsOk, HasRow, SameFor, SumSkew, SumDue;
    var r := s.threads[t].raw;
    AddedFinalOk(lib, s.db, s'.db, s.hasty, Child(r, 0));
    AddedTables(lib, s.db, s'.db, Child(r, 0));
    OthersSame(lib, s, s'.db, t, r);
    assert LocalStep(lib, s, s', t, WholeWritten(r, true));
    LocalStepKeeps(lib, s, s', t, WholeWritten(r, true));
  }

  /** An input with no children: its one row is added, or is already there. */
  lemma WholeKeeps(lib: Library, s: State, t: nat, s': State)
    requires Inv(lib, s) && t < |s.threads| && s.threads[t].Decoding? && s.threads[t].raw in s.db.raws
    requires Count(lib, s.db.raws, s.threads[t].raw) == 0
    requires var q := WholeRow(lib, s.db.raws, s.threads[t].raw);
      s' == Put(s, t, WholeWritten(s.threads[t].raw, q !in s.db.quar)).(db := AddQuar(s.db, q))
    ensures Inv(lib, s')
  {
    var r := s.threads[t].raw;
    var q := WholeRow(lib, s.db.raws, r);
    if q in s.db.quar {
      assert s'.db == s.db;
      PureStepKeeps(lib, s, s', t, WholeWritten(r, false));
    } else {
      WholeUnused(lib, s.db, r);
      QuarAdded(lib, s.db, q);
      WholeAddedKeeps(lib, s, t, s');
    }
  }

  lemma DecodeKeeps(lib: Library, s: State, t: nat, ok: bool, s': State)
    requires Inv(lib, s) && t < |s.threads| && DecodeStep(lib, s, t, ok) == Some(s')
    ensures Inv(lib, s')
  {
    if s'.threads[t].WholeWritten? { WholeKeeps(lib, s, t, s'); } else { ExpandKeeps(lib, s, t, ok, s'); }
  }

  // ----- finishing

  lemma EndLoopKeeps(lib: Library, s: State, l: Label, s': State)
    requires Inv(lib, s) && l.EndLoop? && Step(lib, s, l) == Some(s')
    ensures Inv(lib, s')
  {
    assert ThreadOk(lib, s.db, s.hasty, s.threads[l.t]);
    PureStepKeeps(lib, s, s', l.t, s'.threads[l.t]);
  }

  lemma StatusTables(lib: Library, db: Db, hasty: set<RawId>, r: RawId, status: Status)
    requires TablesOk(lib, db, hasty) && FinishOk(lib, db, hasty, r, status)
    ensures TablesOk(lib, SetStatus(db, r, status), hasty)
    ensures forall x :: x in db.raws ==> SameFor(db, SetStatus(db, r, status), x)
  {
    var db' := SetStatus(db, r, status);
    StatusRows(lib, db, r, status);
    forall x | x in db.raws ensures SameFor(db, db', x) {
      assert NormOf(db', x) == NormOf(db, x) && QuarOf(db', x) == QuarOf(db, x);
    }
    FinalFrame(lib, db, db', hasty, r);
  }

  lemma StatusWritten(lib: Library, s: State, t: nat, s': State)
    requires Inv(lib, s) && t < |s.threads| && s.threads[t].Finishing? && s.threads[t].raw in s.db.raws
    requires s' == Put(s, t, Idle).(db := SetStatus(s.db, s.threads[t].raw, s.threads[t].status))
    ensures Inv(lib, s')
  {
    var th := s.threads[t];
    assert ThreadOk(lib, s.db, s.hasty, th);
    StatusTables(lib, s.db, s.hasty, th.raw, th.status);
    OthersSame(lib, s, s'.db, t, th.raw);
    assert LocalStep(lib, s, s', t, Idle);
    LocalStepKeeps(lib, s, s', t, Idle);
  }

  lemma FinishKeeps(lib: Library, s: State, l: Label, s': State)
    requires Inv(lib, s) && l.Finish? && Step(lib, s, l) == Some(s')
    ensures Inv(lib, s')
  {
    if l.ok { StatusWritten(lib, s, l.t, s'); } else { PureStepKeeps(lib, s, s', l.t, Idle); }
  }

  // ----- replay and restart

  lemma ResolveSame(db: Db, q: QRow, newId: EventId, r: RawId)
    requires q in db.quar && q.child.raw in db.raws && newId !in db.norm && !HasNorm(db, q.child)
    requires r in db.raws && r != q.child.raw
    ensures SameFor(db, Resolve(db, q, newId), r) && Resolve(db, q, newId).raws[r] == db.raws[r]
  {
    var db' := Resolve(db, q, newId);
    assert NormOf(db', r) == NormOf(db, r);
    assert QuarOf(db', r) == QuarOf(db, r);
  }

  /** The replay transaction finalises the parent with the status derived from its rows; that is
      right exactly when every child has its row. */
  lemma ResolveFinal(lib: Library, db: Db, q: QRow, newId: EventId)
    requires OneRow(db) && RowsOk(lib, db) && q in db.quar && NormRowOk(lib, db.raws, q.child) && newId !in db.norm
    ensures q.child.raw in Resolve(db, q, newId).raws
    ensures FinalRowOk(lib, Resolve(db, q, newId), q.child.raw) <==>
      Complete(db, q.child.raw, Count(lib, db.raws, q.child.raw))
  {
    var db', r := Resolve(db, q, newId), q.child.raw;
    ResolveRows(lib, db, q, newId);
    var moved := AddNorm(db, q.child, newId).(quar := db.quar - {q});
    assert NormOf(db', r) == NormOf(moved, r) && QuarOf(db', r) == QuarOf(moved, r);
  }

  lemma ResolveTables(lib: Library, db: Db, hasty: set<RawId>, q: QRow, newId: EventId)
    requires TablesOk(lib, db, hasty) && q in db.quar && NormRowOk(lib, db.raws, q.child) && newId !in db.norm
    requires q.child.raw in hasty || Complete(db, q.child.raw, Count(lib, db.raws, q.child.raw))
    ensures TablesOk(lib, Resolve(db, q, newId), hasty)
  {
    var db', r := Resolve(db, q, newId), q.child.raw;
    ResolveRows(lib, db, q, newId);
    assert !HasNorm(db, q.child);
    forall x | x in db.raws && x != r ensures SameFor(db, db', x) && db'.raws[x].status == db.raws[x].status {
      ResolveSame(db, q, newId, x);
    }
    if r !in hasty { ResolveFinal(lib, db, q, newId); }
    FinalFrame(lib, db, db', hasty, r);
  }

  lemma ReplayKeeps(lib: Library, s: State, l: Label, s': State)
    requires Inv(lib, s) && l.Replay? && Step(lib, s, l) == Some(s')
    ensures Inv(lib, s')
  {
    var q, r := l.q, l.q.child.raw;
    assert FinalOk(lib, s.db, s'.hasty);
    ResolveTables(lib, s.db, s'.hasty, q, l.newId);
    ResolveRows(lib, s.db, q, l.newId);
    assert !HasNorm(s.db, q.child);
    forall j | 0 <= j < |s.threads|
      ensures ThreadOk(lib, s'.db, s'.hasty, s.threads[j]) && Due(s'.db, s.threads[j]) == Due(s.db, s.threads[j])
    {
      ThreadRawKnown(lib, s, j);
      if RawOf(s.threads[j]) == Some(r) {
        SameRowsThread(lib, s.db, s'.db, s.hasty, s'.hasty, s.threads[j]);
      } else {
        if RawOf(s.threads[j]).Some? { ResolveSame(s.db, q, l.newId, RawOf(s.threads[j]).value); }
        ThreadFrame(lib, s.db, s'.db, s.hasty, s'.hasty, s.threads[j]);
      }
    }
    SumDueSame(s.db, s'.db, s.threads);
  }

  lemma {:induction false} IdleSums(db: Db, threads: seq<Thread>)
    requires forall t :: 0 <= t < |threads| ==> threads[t] == Idle
    ensures SumSkew(threads) == 0 && SumDue(db, threads) == 0
  {
    if threads != [] { IdleSums(db, threads[1..]); }
  }

  lemma {:induction false} SetOfNoDup(order: seq<RawId>)
    requires NoDup(order)
    ensures |Elements(order)| == |order|
  {
    var all := Elements(order);
    if order == [] {
      assert all == {};
    } else {
      var rest := Elements(order[1..]);
      SetOfNoDup(order[1..]);
      assert order[0] !in order[1..];
      assert all == rest + {order[0]};
      assert |all| == |rest| + 1;
    }
  }

  lemma RestartKeeps(lib: Library, s: State, l: Label, s': State)
    requires Inv(lib, s) && l.Restart? && Step(lib, s, l) == Some(s')
    ensures Inv(lib, s')
  {
    SetOfNoDup(l.order);
    IdleSums(s'.db, s'.threads);
  }

  lemma StepKeeps(lib: Library, s: State, l: Label, s': State)
    requires Inv(lib, s) && Step(lib, s, l) == Some(s')
    ensures Inv(lib, s')
  {
    match l
    case Submit(_, _) => SubmitKeeps(lib, s, l, s');
    case SubmitSync(_, _) => SubmitKeeps(lib, s, l, s');
    case Take(_) => SubmitKeeps(lib, s, l, s');
    case Tick(t) => TickKeeps(lib, s, t, s');
    case LoadFail(_) => LoadFailKeeps(lib, s, l, s');
    case LoadNew(_, _) => LoadNewKeeps(lib, s, l, s');
    case LoadDuplicate(_, _) => LoadDuplicateKeeps(lib, s, l, s');
    case LoadExisting(_) => LoadExistingKeeps(lib, s, l, s');
    case Decode(t, ok) => DecodeKeeps(lib, s, t, ok, s');
    case Check(t, ok) => CheckKeeps(lib, s, t, ok, s');
    case Normalize(_, _) => NormalizeKeeps(lib, s, l, s');
    case Quarantine(_, _, _) => QuarantineKeeps(lib, s, l, s');
    case GiveUp(_) => GiveUpKeeps(lib, s, l, s');
    case EndLoop(_, _) => EndLoopKeeps(lib, s, l, s');
    case Finish(_, _) => FinishKeeps(lib, s, l, s');
    case Replay(_, _) => ReplayKeeps(lib, s, l, s');
    case Restart(_) => RestartKeeps(lib, s, l, s');
  }
}
