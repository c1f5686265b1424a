/** The raw store tables the pipeline works on, each SQL transaction one change. */
module PipelineStore {
  import opened Wrappers

  type RawId = nat
  type EventId = nat

  datatype Status = Accepted | Normalized | Quarantined | Partial

  datatype FileKey = FileKey(fileId: string, offset: nat)

  datatype RawRow = RawRow(payload: string, status: Status, file: Option<FileKey>)

  datatype Child = Child(raw: RawId, ord: nat)

  /** A quarantine row; the table has one row per (raw, ordinal, stage, reason). */
  datatype QRow = QRow(child: Child, stage: string, reason: string)

  /** What the decoder registry makes of a payload: nothing, or n child records numbered from 0. */
  datatype Decoded = Failed(stage: string) | Children(n: nat)

  datatype Library = Library(decode: string -> Decoded, digest: string -> string)

  datatype Db = Db(raws: map<RawId, RawRow>, norm: map<EventId, Child>, quar: set<QRow>)

  // ----- queries

  function NormOf(db: Db, r: RawId): set<EventId> { set e | e in db.norm && db.norm[e].raw == r }

  function QuarOf(db: Db, r: RawId): set<QRow> { set q | q in db.quar && q.child.raw == r }

  ghost predicate HasNorm(db: Db, c: Child) { exists e :: e in db.norm && db.norm[e] == c }

  ghost predicate HasQuar(db: Db, c: Child) { exists q :: q in db.quar && q.child == c }

  /** HasCompletedChild. */
  ghost predicate HasRow(db: Db, c: Child) { HasNorm(db, c) || HasQuar(db, c) }

  /** CountCompletedChildren. */
  function Completed(db: Db, r: RawId): nat { |NormOf(db, r)| + |QuarOf(db, r)| }

  /** The parent status the pipeline and the replay transaction derive from the counts. */
  function Derived(db: Db, r: RawId): Status
  {
    if |NormOf(db, r)| == 0 && |QuarOf(db, r)| > 0 then Quarantined
    else if |QuarOf(db, r)| > 0 then Partial
    else Normalized
  }

  function AcceptedRaws(db: Db): set<RawId> { set r | r in db.raws && db.raws[r].status == Accepted }

  function Rows(db: Db): nat { |db.norm| + |db.quar| }

  // ----- changes

  function SetStatus(db: Db, r: RawId, status: Status): Db
    requires r in db.raws
  {
    db.(raws := db.raws[r := db.raws[r].(status := status)])
  }

  /** The quarantine upsert. */
  function AddQuar(db: Db, q: QRow): Db { db.(quar := db.quar + {q}) }

  /** storeNormalizedTx: a child that already has an event keeps its event ID. */
  ghost function StoredId(db: Db, c: Child, newId: EventId): EventId
  {
    if HasNorm(db, c) then var e :| e in db.norm && db.norm[e] == c; e else newId
  }

  ghost function AddNorm(db: Db, c: Child, newId: EventId): Db
  {
    db.(norm := db.norm[StoredId(db, c, newId) := c])
  }

  /** ResolveQuarantineWithOutbox: store the event, delete the row, derive the parent status. */
  ghost function Resolve(db: Db, q: QRow, newId: EventId): Db
    requires q.child.raw in db.raws
  {
    var moved := AddNorm(db, q.child, newId).(quar := db.quar - {q});
    SetStatus(moved, q.child.raw, Derived(moved, q.child.raw))
  }

  // ----- what the tables keep

  /** At most one row across both tables for every child. */
  ghost predicate OneRow(db: Db)
  {
    && (forall e, e' :: e in db.norm && e' in db.norm && db.norm[e] == db.norm[e'] ==> e == e')
    && (forall q, q' :: q in db.quar && q' in db.quar && q.child == q'.child ==> q == q')
    && (forall e, q :: e in db.norm && q in db.quar ==> db.norm[e] != q.child)
  }

  /** The row for an input that yields no children. */
  function WholeRow(lib: Library, raws: map<RawId, RawRow>, r: RawId): QRow
    requires r in raws
  {
    match lib.decode(raws[r].payload)
    case Failed(stage) => QRow(Child(r, 0), stage, "parse_error")
    case Children(_) => QRow(Child(r, 0), "decode", "empty_payload")
  }

  function Count(lib: Library, raws: map<RawId, RawRow>, r: RawId): nat
    requires r in raws
  {
    match lib.decode(raws[r].payload) case Failed(_) => 0 case Children(n) => n
  }

  /** Rows belong to stored inputs and to children those inputs have. */
  ghost predicate NormRowOk(lib: Library, raws: map<RawId, RawRow>, c: Child)
  {
    c.raw in raws && c.ord < Count(lib, raws, c.raw)
  }

  ghost predicate QuarRowOk(lib: Library, raws: map<RawId, RawRow>, q: QRow)
  {
    q.child.raw in raws &&
    if Count(lib, raws, q.child.raw) == 0 then q == WholeRow(lib, raws, q.child.raw)
    else q.child.ord < Count(lib, raws, q.child.raw)
  }

  ghost predicate RowsOk(lib: Library, db: Db)
  {
    && (forall e :: e in db.norm ==> NormRowOk(lib, db.raws, db.norm[e]))
    && (forall q :: q in db.quar ==> QuarRowOk(lib, db.raws, q))
  }

  ghost predicate Complete(db: Db, r: RawId, n: nat) { forall o :: 0 <= o < n ==> HasRow(db, Child(r, o)) }

  /** A finalised parent with children: every child has its row, and the status is the derived one. */
  ghost predicate FinalRowOk(lib: Library, db: Db, r: RawId)
    requires r in db.raws
  {
    db.raws[r].status != Accepted && Count(lib, db.raws, r) > 0 ==>
      Complete(db, r, Count(lib, db.raws, r)) && db.raws[r].status == Derived(db, r)
  }

  ghost predicate FinalOk(lib: Library, db: Db, hasty: set<RawId>)
  {
    forall r :: r in db.raws && r !in hasty ==> FinalRowOk(lib, db, r)
  }

  // ----- counting children

  /** Children from `i` up to `n` without a row. */
  ghost function Missing(db: Db, r: RawId, i: nat, n: nat): nat
    decreases n - i
  {
    if i >= n then 0 else (if HasRow(db, Child(r, i)) then 0 else 1) + Missing(db, r, i + 1, n)
  }

  ghost function NormBelow(db: Db, r: RawId,
                           k: nat): set<EventId> { set e | e in db.norm && db.norm[e].raw == r && db.norm[e].ord < k }

  ghost function QuarBelow(db: Db, r: RawId,
                           k: nat): set<QRow> { set q | q in db.quar && q.child.raw == r && q.child.ord < k }

  lemma NormBelowNext(db: Db, r: RawId, k: nat)
    requires OneRow(db)
    ensures |NormBelow(db, r, k + 1)| == |NormBelow(db, r, k)| + if HasNorm(db, Child(r, k)) then 1 else 0
  {
    var below, next := NormBelow(db, r, k), NormBelow(db, r, k + 1);
    assert below <= next;
    if HasNorm(db, Child(r, k)) {
      var e :| e in db.norm && db.norm[e] == Child(r, k);
      forall x | x in next ensures x in below + {e} {
        if x !in below { assert db.norm[x] == Child(r, k) == db.norm[e]; }
      }
      assert next == below + {e} && e !in below;
    } else {
      forall x | x in next ensures x in below {
        assert db.norm[x] != Child(r, k);
      }
      assert next == below;
    }
  }

  lemma QuarBelowNext(db: Db, r: RawId, k: nat)
    requires OneRow(db)
    ensures |QuarBelow(db, r, k + 1)| == |QuarBelow(db, r, k)| + if HasQuar(db, Child(r, k)) then 1 else 0
  {
    var below, next := QuarBelow(db, r, k), QuarBelow(db, r, k + 1);
    assert below <= next;
    if HasQuar(db, Child(r, k)) {
      var q :| q in db.quar && q.child == Child(r, k);
      forall x | x in next ensures x in below + {q} {
        if x !in below { assert x.child == Child(r, k) == q.child; }
      }
      assert next == below + {q} && q !in below;
    } else {
      forall x | x in next ensures x in below {
        assert x.child != Child(r, k);
      }
      assert next == below;
    }
  }

  lemma {:induction false} RowsPlusMissing(db: Db, r: RawId, k: nat, n: nat)
    requires OneRow(db) && k <= n
    ensures |NormBelow(db, r, n)| + |QuarBelow(db, r, n)| + Missing(db, r, k, n)
         == |NormBelow(db, r, k)| + |QuarBelow(db, r, k)| + (n - k)
    decreases n - k
  {
    if k < n {
      NormBelowNext(db, r, k);
      QuarBelowNext(db, r, k);
      RowsPlusMissing(db, r, k + 1, n);
    }
  }

  /** The number of rows of an input is exactly the number of its children that have one. */
  lemma CompletedPlusMissing(lib: Library, db: Db, r: RawId)
    requires OneRow(db) && RowsOk(lib, db) && r in db.raws && Count(lib, db.raws, r) > 0
    ensures Completed(db, r) + Missing(db, r, 0, Count(lib, db.raws, r)) == Count(lib, db.raws, r)
  {
    var n := Count(lib, db.raws, r);
    RowsPlusMissing(db, r, 0, n);
    assert NormBelow(db, r, 0) == {} && QuarBelow(db, r, 0) == {};
    assert NormBelow(db, r, n) == NormOf(db, r);
    assert QuarBelow(db, r, n) == QuarOf(db, r);
  }

  // ----- frames

  /** `db'` has the same input and the same rows for `r`. */
  ghost predicate SameFor(db: Db, db': Db, r: RawId)
  {
    && r in db.raws && r in db'.raws && db'.raws[r].payload == db.raws[r].payload
    && NormOf(db', r) == NormOf(db, r) && QuarOf(db', r) == QuarOf(db, r)
    && (forall e :: e in NormOf(db, r) ==> db'.norm[e] == db.norm[e])
  }

  lemma SameHasRow(db: Db, db': Db, r: RawId, o: nat)
    requires SameFor(db, db', r)
    ensures HasNorm(db', Child(r, o)) == HasNorm(db, Child(r, o))
    ensures HasQuar(db', Child(r, o)) == HasQuar(db, Child(r, o))
  {
    var c := Child(r, o);
    if HasNorm(db, c) { var e :| e in db.norm && db.norm[e] == c; assert e in NormOf(db, r) && e in NormOf(db', r); }
    if HasNorm(db', c) { var e :| e in db'.norm && db'.norm[e] == c; assert e in NormOf(db', r) && e in NormOf(db, r); }
    if HasQuar(db, c) { var q :| q in db.quar && q.child == c; assert q in QuarOf(db, r) && q in QuarOf(db', r); }
    if HasQuar(db', c) { var q :| q in db'.quar && q.child == c; assert q in QuarOf(db', r) && q in QuarOf(db, r); }
  }

  /** Rows that exist for the same children leave the same children missing. */
  lemma {:induction false} SameMissing(db: Db, db': Db, r: RawId, i: nat, n: nat)
    requires forall o :: i <= o < n ==> HasRow(db', Child(r, o)) == HasRow(db, Child(r, o))
    ensures Missing(db', r, i, n) == Missing(db, r, i, n)
    decreases n - i
  {
    if i < n { SameMissing(db, db', r, i + 1, n); }
  }

  lemma {:induction false} NoneMissing(db: Db, r: RawId, i: nat, n: nat)
    requires i <= n && forall o :: i <= o < n ==> !HasRow(db, Child(r, o))
    ensures Missing(db, r, i, n) == n - i
    decreases n - i
  {
    if i < n { NoneMissing(db, r, i + 1, n); }
  }

  // ----- adding and moving rows

  lemma AddNormRows(lib: Library, db: Db, c: Child, newId: EventId)
    requires OneRow(db) && RowsOk(lib, db) && NormRowOk(lib, db.raws, c) && !HasRow(db, c) && newId !in db.norm
    ensures var db' := AddNorm(db, c, newId);
      db' == db.(norm := db.norm[newId := c]) && OneRow(db') && RowsOk(lib, db') && Rows(db') == Rows(db) + 1
  {
  }

  lemma AddNormHas(db: Db, c: Child, newId: EventId, c': Child)
    requires newId !in db.norm
    ensures HasRow(db.(norm := db.norm[newId := c]), c') == (c' == c || HasRow(db, c'))
  {
    var db' := db.(norm := db.norm[newId := c]);
    assert db'.norm[newId] == c;
    if HasNorm(db, c') { var e :| e in db.norm && db.norm[e] == c'; assert e in db'.norm && db'.norm[e] == c'; }
    if HasNorm(db', c') && c' != c {
      var e :| e in db'.norm && db'.norm[e] == c';
      assert e in db.norm && db.norm[e] == c';
    }
  }

  lemma AddQuarRows(lib: Library, db: Db, q: QRow)
    requires OneRow(db) && RowsOk(lib, db) && QuarRowOk(lib, db.raws, q) && (q in db.quar || !HasRow(db, q.child))
    ensures var db' := AddQuar(db, q);
      OneRow(db') && RowsOk(lib, db') && Rows(db') == Rows(db) + if q in db.quar then 0 else 1
  {
    var db' := AddQuar(db, q);
    if q in db.quar { assert db' == db; }
  }

  lemma AddQuarHas(db: Db, q: QRow, c': Child)
    ensures HasRow(AddQuar(db, q), c') == (c' == q.child || HasRow(db, c'))
  {
    var db' := AddQuar(db, q);
    assert q in db'.quar;
    if HasQuar(db, c') { var x :| x in db.quar && x.child == c'; assert x in db'.quar && x.child == c'; }
    if HasQuar(db', c') && c' != q.child {
      var x :| x in db'.quar && x.child == c';
      assert x in db.quar && x.child == c';
    }
  }

  lemma DropQuarHas(db: Db, q: QRow, c': Child)
    requires OneRow(db) && q in db.quar
    ensures HasRow(db.(quar := db.quar - {q}), c') == (c' != q.child && HasRow(db, c'))
  {
    var db' := db.(quar := db.quar - {q});
    if HasQuar(db, c') && c' != q.child {
      var x :| x in db.quar && x.child == c';
      assert x in db'.quar && x.child == c';
    }
    if HasQuar(db', c') { var x :| x in db'.quar && x.child == c'; assert x in db.quar && x.child == c'; }
    if HasNorm(db, c') { var e :| e in db.norm && db.norm[e] == c'; assert e in db'.norm; }
    if HasNorm(db', c') { var e :| e in db'.norm && db'.norm[e] == c'; assert e in db.norm; }
  }

  lemma DropQuarRows(lib: Library, db: Db, q: QRow)
    requires OneRow(db) && RowsOk(lib, db) && q in db.quar
    ensures var db' := db.(quar := db.quar - {q}); OneRow(db') && RowsOk(lib, db') && Rows(db') == Rows(db) - 1
  {
  }

  lemma StatusRows(lib: Library, db: Db, r: RawId, status: Status)
    requires OneRow(db) && RowsOk(lib, db) && r in db.raws
    ensures var db' := SetStatus(db, r, status); OneRow(db') && RowsOk(lib, db') && Rows(db') == Rows(db)
    ensures forall c :: HasRow(SetStatus(db, r, status), c) == HasRow(db, c)
  {
    var db' := SetStatus(db, r, status);
    forall q | q in db.quar ensures QuarRowOk(lib, db'.raws, q) { assert QuarRowOk(lib, db.raws, q); }
    forall e | e in db.norm ensures NormRowOk(lib, db'.raws, db.norm[e]) { assert NormRowOk(lib, db.raws, db.norm[e]); }
  }

  /** A replay moves one child from quarantine to normalized: no child gains or loses its row. */
  lemma ResolveRows(lib: Library, db: Db, q: QRow, newId: EventId)
    requires OneRow(db) && RowsOk(lib, db) && q in db.quar && NormRowOk(lib, db.raws, q.child) && newId !in db.norm
    ensures var db' := Resolve(db, q, newId);
      && OneRow(db') && RowsOk(lib, db') && Rows(db') == Rows(db)
      && (forall c' :: HasRow(db', c') == HasRow(db, c'))
  {
    var dropped := db.(quar := db.quar - {q});
    var moved := dropped.(norm := dropped.norm[newId := q.child]);
    assert !HasNorm(db, q.child);
    assert Resolve(db, q, newId) == SetStatus(moved, q.child.raw, Derived(moved, q.child.raw));
    DropQuarRows(lib, db, q);
    DropQuarHas(db, q, q.child);
    AddNormRows(lib, dropped, q.child, newId);
    StatusRows(lib, moved, q.child.raw, Derived(moved, q.child.raw));
    forall c' ensures HasRow(moved, c') == HasRow(db, c') {
      DropQuarHas(db, q, c');
      AddNormHas(dropped, q.child, newId, c');
      if c' == q.child { assert HasQuar(db, c'); }
    }
  }
}
