/** What the pipeline guarantees over whole runs. */
module PipelineTheorems {
  import opened Wrappers
  import opened PipelineStore
  import opened PipelineRun
  import opened PipelineSafety

  /** An empty store, no records, every goroutine idle. */
  function Init(workers: nat): State
  {
    State(Db(map[], map[], {}), [], seq(workers, i => Idle), 0, 0, 0, 0, {})
  }

  ghost predicate Run(lib: Library, ss: seq<State>, ls: seq<Label>)
  {
    && |ss| == |ls| + 1 && (exists workers: nat :: ss[0] == Init(workers))
    && forall i :: 0 <= i < |ls| ==> Step(lib, ss[i], ls[i]) == Some(ss[i + 1])
  }

  lemma InitInv(lib: Library, workers: nat)
    ensures Inv(lib, Init(workers))
  {
    IdleSums(Init(workers).db, Init(workers).threads);
  }

  lemma {:induction false} RunInv(lib: Library, ss: seq<State>, ls: seq<Label>, i: nat)
    requires Run(lib, ss, ls) && i < |ss|
    ensures Inv(lib, ss[i])
  {
    if i == 0 {
      var workers: nat :| ss[0] == Init(workers);
      InitInv(lib, workers);
    } else {
      RunInv(lib, ss, ls, i - 1);
      StepKeeps(lib, ss[i - 1], ls[i - 1], ss[i]);
    }
  }

  // ----- exactly one outcome per child

  function RowsFor(db: Db, c: Child): nat
  {
    |set e | e in db.norm && db.norm[e] == c| + |set q | q in db.quar && q.child == c|
  }

  lemma RowsForAtMostOne(db: Db, c: Child)
    requires OneRow(db)
    ensures RowsFor(db, c) == if HasRow(db, c) then 1 else 0
  {
    var es, qs := set e | e in db.norm && db.norm[e] == c, set q | q in db.quar && q.child == c;
    if HasNorm(db, c) {
      var e :| e in db.norm && db.norm[e] == c;
      assert es == {e} && qs == {};
    } else if HasQuar(db, c) {
      var q :| q in db.quar && q.child == c;
      assert qs == {q} && es == {};
    } else {
      assert es == {} && qs == {};
    }
  }

  /** In every reachable state a child has at most one row across both tables; a finalised
      parent with n > 0 children, not replayed before it was finalised, has exactly one for each,
      and its status is the one derived from the counts. */
  lemma ExactlyOneOutcome(lib: Library, ss: seq<State>, ls: seq<Label>, i: nat, c: Child)
    requires Run(lib, ss, ls) && i < |ss|
    ensures RowsFor(ss[i].db, c) <= 1
    ensures var db, r := ss[i].db, c.raw;
      r in db.raws && db.raws[r].status != Accepted && c.ord < Count(lib, db.raws, r) && r !in ss[i].hasty ==>
        RowsFor(db, c) == 1 && db.raws[r].status == Derived(db, r)
  {
    RunInv(lib, ss, ls, i);
    RowsForAtMostOne(ss[i].db, c);
    if c.raw in ss[i].db.raws && c.raw !in ss[i].hasty { assert FinalRowOk(lib, ss[i].db, c.raw); }
  }

  // ----- loss accounting

  datatype Stats = Stats(accepted: int, normalized: int, quarantined: int, pending: int)

  /** Stats (pipeline.go:803-810): the two row counts come from the tables. */
  function StatsOf(s: State): Stats { Stats(s.accepted, |s.db.norm|, |s.db.quar|, s.pending) }

  /** VerifyInvariant (model.go:137-145). */
  predicate VerifyInvariant(st: Stats) { st.accepted == st.normalized + st.quarantined + st.pending }

  /** No goroutine is between a row commit or counter update and the counter update that goes with it. */
  predicate Quiet(s: State) { forall t :: 0 <= t < |s.threads| ==> Skew(s.threads[t]) == 0 }

  lemma {:induction false} QuietSum(threads: seq<Thread>)
    requires forall t :: 0 <= t < |threads| ==> Skew(threads[t]) == 0
    ensures SumSkew(threads) == 0
  {
    if threads != [] { QuietSum(threads[1..]); }
  }

  /** In every quiet reachable state the accounting equation holds exactly when no quarantine row
      was written a second time for the same undecodable input since the last restart; and once all
      work is done, what is still pending is exactly what was given up. */
  lemma LossAccounting(lib: Library, ss: seq<State>, ls: seq<Label>, i: nat)
    requires Run(lib, ss, ls) && i < |ss| && Quiet(ss[i])
    ensures VerifyInvariant(StatsOf(ss[i])) <==> ss[i].overcount == 0
    ensures ss[i].queue == [] && (forall t :: 0 <= t < |ss[i].threads| ==> ss[i].threads[t].Idle?) ==>
      ss[i].pending == ss[i].stuck
  {
    RunInv(lib, ss, ls, i);
    QuietSum(ss[i].threads);
    if forall t :: 0 <= t < |ss[i].threads| ==> ss[i].threads[t].Idle? { IdleSums(ss[i].db, ss[i].threads); }
  }

  /** An input the decoder fails on whose row is already there. */
  ghost predicate Repeats(lib: Library, s: State, l: Label)
  {
    && l.Decode? && l.ok && l.t < |s.threads| && s.threads[l.t].Decoding?
    && s.threads[l.t].recovering && s.threads[l.t].raw in s.db.raws
    && lib.decode(s.db.raws[s.threads[l.t].raw].payload).Failed?
    && WholeRow(lib, s.db.raws, s.threads[l.t].raw) in s.db.quar
  }

  ghost predicate NoRepeat(s: State)
  {
    s.overcount == 0 && forall t :: 0 <= t < |s.threads| && s.threads[t].WholeWritten? ==> s.threads[t].added
  }

  lemma WholeRowHas(lib: Library, db: Db, r: RawId)
    requires r in db.raws
    ensures WholeRow(lib, db.raws, r) in db.quar ==> HasRow(db, Child(r, 0))
  {
    if WholeRow(lib, db.raws, r) in db.quar { assert HasQuar(db, Child(r, 0)); }
  }

  lemma DecodeNoRepeat(lib: Library, s: State, l: Label, s': State)
    requires Inv(lib, s) && NoRepeat(s) && l.Decode? && Step(lib, s, l) == Some(s') && !Repeats(lib, s, l)
    ensures NoRepeat(s')
  {
    hide TickStep, LoadStep, CheckStep, ChildStep, EndStep, QueueStep, ReplayStep, RestartStep, TablesOk, Balanced,
         Exclusive;
    if s'.threads[l.t].WholeWritten? {
      var r := s.threads[l.t].raw;
      assert ThreadOk(lib, s.db, s.hasty, s.threads[l.t]);
      WholeRowHas(lib, s.db, r);
    }
  }

  lemma TickNoRepeat(s: State, t: nat, s': State)
    requires NoRepeat(s) && t < |s.threads| && TickStep(s, t) == Some(s')
    ensures NoRepeat(s')
  {
  }

  lemma LoadNoRepeat(lib: Library, s: State, l: Label, s': State)
    requires NoRepeat(s) && (l.LoadFail? || l.LoadNew? || l.LoadDuplicate? || l.LoadExisting?)
    requires l.t < |s.threads| && LoadStep(lib, s, l) == Some(s')
    ensures NoRepeat(s')
  {
  }

  lemma ChildNoRepeat(lib: Library, s: State, l: Label, s': State)
    requires NoRepeat(s) && (l.Normalize? || l.Quarantine? || l.GiveUp? || l.Check?)
    requires Step(lib, s, l) == Some(s')
    ensures NoRepeat(s')
  {
  }

  lemma OtherNoRepeat(lib: Library, s: State, l: Label, s': State)
    requires NoRepeat(s) &&
      (l.Submit? || l.SubmitSync? || l.Take? || l.EndLoop? || l.Finish? || l.Replay? || l.Restart?)
    requires Step(lib, s, l) == Some(s')
    ensures NoRepeat(s')
  {
  }

  /** Only a recovery of an undecodable input whose row is already there counts a unit twice. */
  lemma StepNoRepeat(lib: Library, s: State, l: Label, s': State)
    requires Inv(lib, s) && NoRepeat(s) && Step(lib, s, l) == Some(s') && !Repeats(lib, s, l)
    ensures NoRepeat(s')
  {
    hide DecodeStep, TickStep, LoadStep, CheckStep, ChildStep, EndStep, QueueStep, ReplayStep, RestartStep, Inv,
        NoRepeat;
    if l.Decode? { DecodeNoRepeat(lib, s, l, s'); }
    else if l.Tick? { TickNoRepeat(s, l.t, s'); }
    else if l.LoadFail? || l.LoadNew? || l.LoadDuplicate? || l.LoadExisting? { LoadNoRepeat(lib, s, l, s'); }
    else if l.Normalize? || l.Quarantine? || l.GiveUp? || l.Check? { ChildNoRepeat(lib, s, l, s'); }
    else { OtherNoRepeat(lib, s, l, s'); }
  }

  lemma {:induction false} RunNoRepeat(lib: Library, ss: seq<State>, ls: seq<Label>, i: nat)
    requires Run(lib, ss, ls) && i < |ss|
    requires forall j :: 0 <= j < i ==> !Repeats(lib, ss[j], ls[j])
    ensures NoRepeat(ss[i])
  {
    if i > 0 {
      RunNoRepeat(lib, ss, ls, i - 1);
      RunInv(lib, ss, ls, i - 1);
      StepNoRepeat(lib, ss[i - 1], ls[i - 1], ss[i]);
    }
  }

  /** Loss accounting, for every run in which no undecodable input is processed again while its
      quarantine row is there and its parent still waits. */
  lemma LossAccountingHolds(lib: Library, ss: seq<State>, ls: seq<Label>, i: nat)
    requires Run(lib, ss, ls) && i < |ss| && Quiet(ss[i])
    requires forall j :: 0 <= j < i ==> !Repeats(lib, ss[j], ls[j])
    ensures VerifyInvariant(StatsOf(ss[i]))
  {
    RunNoRepeat(lib, ss, ls, i);
    LossAccounting(lib, ss, ls, i);
  }
}
