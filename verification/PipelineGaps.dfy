/** Where the pipeline does not keep its promises, and exactly when. */
module PipelineGaps {
  import opened Wrappers
  import opened PipelineStore
  import opened PipelineRun
  import opened PipelineSafety
  import opened PipelineTheorems

  /** A run given by its labels. */
  ghost predicate Reaches(lib: Library, s: State, ls: seq<Label>, s': State)
    decreases |ls|
  {
    if ls == [] then s' == s
    else Step(lib, s, ls[0]).Some? && Reaches(lib, Step(lib, s, ls[0]).value, ls[1..], s')
  }

  lemma ThenStep(lib: Library, s: State, l: Label, s1: State, ls: seq<Label>, s': State)
    requires Step(lib, s, l) == Some(s1) && Reaches(lib, s1, ls, s')
    ensures Reaches(lib, s, [l] + ls, s')
  {
    assert ([l] + ls)[1..] == ls;
  }

  lemma PutOne(s: State, th: Thread)
    requires |s.threads| == 1
    ensures Put(s, 0, th) == s.(threads := [th])
  {
  }

  lemma {:induction false} ReachesThen(lib: Library, s: State, ls: seq<Label>, s1: State, ls': seq<Label>, s2: State)
    requires Reaches(lib, s, ls, s1) && Reaches(lib, s1, ls', s2)
    ensures Reaches(lib, s, ls + ls', s2)
    decreases |ls|
  {
    hide Step;
    if ls == [] {
      assert ls + ls' == ls';
    } else {
      ReachesThen(lib, Step(lib, s, ls[0]).value, ls[1..], s1, ls', s2);
      assert (ls + ls')[1..] == ls[1..] + ls';
    }
  }

  const UNDECODABLE := RawRow("x", Accepted, None)

  const UNDECODABLE_ROW := QRow(Child(0, 0), "decode", "parse_error")

  /** Undecodable bytes arrive, and their quarantine row is committed ... */
  lemma QuarantineCommitted(lib: Library, s3: State, s4: State)
    requires lib.decode("x") == Failed("decode")
    requires s3 == State(Db(map[0 := UNDECODABLE], map[], {}), [], [Decoding(0, false)], 1, 1, 0, 0, {})
    requires s4 == State(s3.db.(quar := {UNDECODABLE_ROW}), [], [WholeWritten(0, true)], 1, 1, 0, 0, {})
    ensures Reaches(lib, Init(1), [SubmitSync(0, New("x", None)), Tick(0), LoadNew(0, 0), Decode(0, true)], s4)
  {
    var rec := New("x", None);
    var s0 := Init(1);
    assert s0.threads == [Idle];
    var s1 := s0.(threads := [SyncHalf(rec)], accepted := 1);
    var s2 := s0.(threads := [Begin(rec)], accepted := 1, pending := 1);
    PutOne(s0, SyncHalf(rec));
    PutOne(s1, Begin(rec));
    PutOne(s2, Decoding(0, false));
    assert s2.db.raws[0 := UNDECODABLE] == s3.db.raws;
    PutOne(s3, WholeWritten(0, true));
    assert AddQuar(s3.db, UNDECODABLE_ROW) == s4.db;
    ThenStep(lib, s3, Decode(0, true), s4, [], s4);
    ThenStep(lib, s2, LoadNew(0, 0), s3, [Decode(0, true)], s4);
    ThenStep(lib, s1, Tick(0), s2, [LoadNew(0, 0), Decode(0, true)], s4);
    ThenStep(lib, s0, SubmitSync(0, rec), s1, [Tick(0), LoadNew(0, 0), Decode(0, true)], s4);
  }

  /** ... then the process dies before the parent status is written, and is restarted ... */
  lemma RestartedOnce(lib: Library, s4: State, s6: State)
    requires s4.db == Db(map[0 := UNDECODABLE], map[], {UNDECODABLE_ROW}) && |s4.threads| == 1 && s4.hasty == {}
    requires s6 == State(s4.db, [], [Begin(Existing(0))], 2, 1, 0, 0, {})
    ensures Reaches(lib, s4, [Restart([0]), Take(0)], s6)
  {
    var s5 := State(s4.db, [Existing(0)], [Idle], 2, 1, 0, 0, {});
    assert AcceptedRaws(s4.db) == {0} && Elements([0]) == {0};
    assert seq(|s4.threads|, i => Idle) == [Idle];
    assert seq(|[0]|, i requires 0 <= i < |[0]| => Existing([0][i])) == [Existing(0)];
    PutOne(s5, Begin(Existing(0)));
    assert s5.queue[1..] == [];
    ThenStep(lib, s5, Take(0), s6, [], s6);
    ThenStep(lib, s4, Restart([0]), s5, [Take(0)], s6);
  }

  /** ... and the recovery takes the input off `pending` without adding a row. */
  lemma QuarantinedAgain(lib: Library, s6: State, s9: State)
    requires lib.decode("x") == Failed("decode")
    requires s6 == State(Db(map[0 := UNDECODABLE], map[], {UNDECODABLE_ROW}), [], [Begin(Existing(0))], 2, 1, 0, 0, {})
    requires s9 == State(s6.db, [], [Finishing(0, Quarantined)], 2, 0, 1, 0, {})
    ensures Reaches(lib, s6, [LoadExisting(0), Decode(0, true), Tick(0)], s9)
  {
    var s7 := State(s6.db, [], [Decoding(0, true)], 2, 1, 0, 0, {});
    var s8 := State(s6.db, [], [WholeWritten(0, false)], 2, 1, 0, 0, {});
    PutOne(s6, Decoding(0, true));
    PutOne(s7, WholeWritten(0, false));
    PutOne(s8, Finishing(0, Quarantined));
    assert AddQuar(s6.db, UNDECODABLE_ROW) == s6.db;
    ThenStep(lib, s8, Tick(0), s9, [], s9);
    ThenStep(lib, s7, Decode(0, true), s8, [Tick(0)], s9);
    ThenStep(lib, s6, LoadExisting(0), s7, [Decode(0, true), Tick(0)], s9);
  }

  /** The accounting equation can fail: a reachable quiet state that violates it. */
  lemma AccountingFails(lib: Library) returns (ls: seq<Label>, s: State)
    requires lib.decode("x") == Failed("decode")
    ensures Reaches(lib, Init(1), ls, s) && Quiet(s) && !VerifyInvariant(StatsOf(s))
  {
    hide Step;
    var db := Db(map[0 := UNDECODABLE], map[], {});
    var db' := db.(quar := {UNDECODABLE_ROW});
    var s3 := State(db, [], [Decoding(0, false)], 1, 1, 0, 0, {});
    var s4 := State(db', [], [WholeWritten(0, true)], 1, 1, 0, 0, {});
    var s6 := State(db', [], [Begin(Existing(0))], 2, 1, 0, 0, {});
    s := State(db', [], [Finishing(0, Quarantined)], 2, 0, 1, 0, {});
    QuarantineCommitted(lib, s3, s4);
    RestartedOnce(lib, s4, s6);
    QuarantinedAgain(lib, s6, s);
    var before := [SubmitSync(0, New("x", None)), Tick(0), LoadNew(0, 0), Decode(0, true)];
    ReachesThen(lib, Init(1), before, s4, [Restart([0]), Take(0)], s6);
    ReachesThen(lib, Init(1), before + [Restart([0]), Take(0)], s6, [LoadExisting(0), Decode(0, true), Tick(0)], s);
    ls := before + [Restart([0]), Take(0)] + [LoadExisting(0), Decode(0, true), Tick(0)];
  }

  // ----- a repeated quarantine breaks the accounting equation until the next restart

  lemma LoadOvercount(lib: Library, s: State, l: Label, s': State)
    requires l.LoadFail? || l.LoadNew? || l.LoadDuplicate? || l.LoadExisting?
    requires l.t < |s.threads| && LoadStep(lib, s, l) == Some(s')
    ensures s'.overcount == s.overcount
  {
  }

  lemma OvercountStays(lib: Library, s: State, l: Label, s': State)
    requires Step(lib, s, l) == Some(s') && !l.Restart?
    ensures s'.overcount >= s.overcount
  {
    hide LoadStep, RestartStep;
    if l.LoadFail? || l.LoadNew? || l.LoadDuplicate? || l.LoadExisting? { LoadOvercount(lib, s, l, s'); }
  }

  lemma {:induction false} RunOvercount(lib: Library, ss: seq<State>, ls: seq<Label>, k: nat, i: nat)
    requires Run(lib, ss, ls) && k <= i < |ss| && forall j :: k <= j < i ==> !ls[j].Restart?
    ensures ss[i].overcount >= ss[k].overcount
  {
    hide Step;
    if k < i {
      RunOvercount(lib, ss, ls, k, i - 1);
      OvercountStays(lib, ss[i - 1], ls[i - 1], ss[i]);
    }
  }

  lemma {:induction false} OvercountPositive(lib: Library, ss: seq<State>, ls: seq<Label>, i: nat)
    requires Run(lib, ss, ls) && i < |ss|
    ensures ss[i].overcount >= 0
  {
    hide Step;
    if i > 0 {
      OvercountPositive(lib, ss, ls, i - 1);
      var s, l, s' := ss[i - 1], ls[i - 1], ss[i];
      if l.Restart? { RestartCounts(lib, s, l, s'); } else { OvercountStays(lib, s, l, s'); }
    }
  }

  lemma RestartCounts(lib: Library, s: State, l: Label, s': State)
    requires l.Restart? && Step(lib, s, l) == Some(s')
    ensures s'.overcount == 0
  {
  }

  /** The repeated quarantine is followed by nothing but its own counter update. */
  lemma StaysWritten(lib: Library, s: State, l: Label, s': State, t: nat)
    requires Step(lib, s, l) == Some(s') && !l.Restart? && l != Tick(t)
    requires t < |s.threads| && s.threads[t].WholeWritten?
    ensures t < |s'.threads| && s'.threads[t] == s.threads[t]
  {
    hide RestartStep, Hasty;
  }

  lemma {:induction false} RunWritten(lib: Library, ss: seq<State>, ls: seq<Label>, j: nat, k: nat, t: nat)
    requires Run(lib, ss, ls) && j <= k < |ss| && t < |ss[j].threads| && ss[j].threads[t].WholeWritten?
    requires forall x :: j <= x < k ==> !ls[x].Restart? && ls[x] != Tick(t)
    ensures t < |ss[k].threads| && ss[k].threads[t] == ss[j].threads[t]
  {
    hide Step;
    if j < k {
      RunWritten(lib, ss, ls, j, k - 1, t);
      StaysWritten(lib, ss[k - 1], ls[k - 1], ss[k], t);
    }
  }

  lemma RepeatWritten(lib: Library, s: State, l: Label, s': State)
    requires Repeats(lib, s, l) && Step(lib, s, l) == Some(s')
    ensures l.Decode? && l.t < |s'.threads| && s'.threads[l.t] == WholeWritten(s.threads[l.t].raw, false)
  {
  }

  lemma TickCounts(lib: Library, s: State, s': State, t: nat)
    requires t < |s.threads| && s.threads[t].WholeWritten? && !s.threads[t].added && Step(lib, s, Tick(t)) == Some(s')
    ensures s'.overcount == s.overcount + 1
  {
  }

  /** A step in which an undecodable input is processed again, and the counter update that follows it:
      from then on the equation fails in every quiet state up to the next restart. */
  lemma RepeatBreaks(lib: Library, ss: seq<State>, ls: seq<Label>, j: nat, k: nat, i: nat)
    requires Run(lib, ss, ls) && j < k < i < |ss| && Repeats(lib, ss[j], ls[j]) && ls[k] == Tick(ls[j].t)
    requires forall x :: j <= x < i ==> !ls[x].Restart?
    requires forall x :: j < x < k ==> ls[x] != Tick(ls[j].t)
    requires Quiet(ss[i])
    ensures !VerifyInvariant(StatsOf(ss[i]))
  {
    hide Step, Repeats;
    RepeatWritten(lib, ss[j], ls[j], ss[j + 1]);
    RunWritten(lib, ss, ls, j + 1, k, ls[j].t);
    OvercountPositive(lib, ss, ls, k);
    TickCounts(lib, ss[k], ss[k + 1], ls[j].t);
    RunOvercount(lib, ss, ls, k + 1, i);
    LossAccounting(lib, ss, ls, i);
  }

  // ----- a replay that comes too early

  /** A replay is too early exactly when it, or the status write of a worker that is about to finish,
      leaves a finalised parent with a missing child or a wrong status. */
  lemma HastyIff(lib: Library, s: State, l: Label, s': State)
    requires Inv(lib, s) && l.Replay? && Step(lib, s, l) == Some(s') && l.q.child.raw !in s.hasty
    ensures var r := l.q.child.raw;
      && r in s'.db.raws
      && (FinalRowOk(lib, s'.db, r) <==> Complete(s.db, r, Count(lib, s.db.raws, r)))
      && (r in s'.hasty <==>
            || !FinalRowOk(lib, s'.db, r)
            || exists t :: 0 <= t < |s'.threads| && WritesWrong(lib, s'.db, s'.threads[t], r))
  {
    hide Inv, Complete, Derived;
    InvTables(lib, s);
    var r, db' := l.q.child.raw, s'.db;
    ResolveRows(lib, s.db, l.q, l.newId);
    ResolveFinal(lib, s.db, l.q, l.newId);
    CompleteSame(s.db, db', r, Count(lib, s.db.raws, r));
    if Complete(s.db, r, Count(lib, s.db.raws, r)) {
      forall t | 0 <= t < |s.threads|
        ensures Overtaken(s.threads[t], r, Derived(db', r)) <==> WritesWrong(lib, db', s.threads[t], r)
      {
        if s.threads[t].Finishing? { WrongStatus(lib, db', r, s.threads[t].status); }
      }
    }
  }

  /** A worker that is about to write a status its parent must not have. */
  ghost predicate WritesWrong(lib: Library, db: Db, th: Thread, r: RawId)
  {
    th.Finishing? && th.raw == r && r in db.raws && !FinalRowOk(lib, SetStatus(db, r, th.status), r)
  }

  lemma InvTables(lib: Library, s: State)
    requires Inv(lib, s)
    ensures OneRow(s.db) && RowsOk(lib, s.db)
  {
  }

  lemma CompleteSame(db: Db, db': Db, r: RawId, n: nat)
    requires forall c :: HasRow(db', c) == HasRow(db, c)
    ensures Complete(db', r, n) == Complete(db, r, n)
  {
  }

  lemma WrongStatus(lib: Library, db: Db, r: RawId, status: Status)
    requires r in db.raws && Count(lib, db.raws, r) > 0 && Complete(db, r, Count(lib, db.raws, r))
    ensures FinalRowOk(lib, SetStatus(db, r, status), r) <==> status == Accepted || status == Derived(db, r)
  {
    var db' := SetStatus(db, r, status);
    assert NormOf(db', r) == NormOf(db, r) && QuarOf(db', r) == QuarOf(db, r);
    forall c ensures HasRow(db', c) == HasRow(db, c) {
      assert HasNorm(db', c) == HasNorm(db, c) && HasQuar(db', c) == HasQuar(db, c);
    }
  }

  const BATCH := RawRow("ab", Accepted, None)

  const BATCH_ROW := QRow(Child(0, 0), "parser_match", "unknown_source")

  /** A batch of two arrives, and its first child is quarantined ... */
  lemma FirstQuarantined(lib: Library, s5: State, s8: State)
    requires lib.decode("ab") == Children(2)
    requires s5 == State(Db(map[0 := BATCH], map[], {}), [], [Looping(0, false, 2, 0, false, 0)], 2, 2, 0, 0, {})
    requires s8 == State(s5.db.(quar := {BATCH_ROW}), [], [Looping(0, false, 2, 1, false, 0)], 2, 1, 0, 0, {})
    ensures Reaches(lib, s5, [Check(0, true), Quarantine(0, "parser_match", "unknown_source"), Tick(0)], s8)
  {
    var s6 := s5.(threads := [Working(0, false, 2, 0, false, 0)]);
    var s7 := s8.(threads := [Written(0, false, 2, 0, false, 0)], pending := 2);
    PutOne(s5, s6.threads[0]);
    PutOne(s6, s7.threads[0]);
    PutOne(s7, s8.threads[0]);
    assert AddQuar(s5.db, BATCH_ROW) == s8.db;
    ThenStep(lib, s7, Tick(0), s8, [], s8);
    ThenStep(lib, s6, Quarantine(0, "parser_match", "unknown_source"), s7, [Tick(0)], s8);
    ThenStep(lib, s5, Check(0, true), s6, [Quarantine(0, "parser_match", "unknown_source"), Tick(0)], s8);
  }

  lemma BatchLoaded(lib: Library, s3: State)
    requires s3 == State(Db(map[0 := BATCH], map[], {}), [], [Decoding(0, false)], 1, 1, 0, 0, {})
    ensures Reaches(lib, Init(1), [SubmitSync(0, New("ab", None)), Tick(0), LoadNew(0, 0)], s3)
  {
    var rec := New("ab", None);
    var s0 := Init(1);
    assert s0.threads == [Idle];
    var s1 := s0.(threads := [SyncHalf(rec)], accepted := 1);
    var s2 := s0.(threads := [Begin(rec)], accepted := 1, pending := 1);
    PutOne(s0, SyncHalf(rec));
    PutOne(s1, Begin(rec));
    PutOne(s2, Decoding(0, false));
    assert s2.db.raws[0 := BATCH] == s3.db.raws;
    ThenStep(lib, s2, LoadNew(0, 0), s3, [], s3);
    ThenStep(lib, s1, Tick(0), s2, [LoadNew(0, 0)], s3);
    ThenStep(lib, s0, SubmitSync(0, rec), s1, [Tick(0), LoadNew(0, 0)], s3);
  }

  lemma BatchExpanded(lib: Library, s3: State, s5: State)
    requires lib.decode("ab") == Children(2)
    requires s3 == State(Db(map[0 := BATCH], map[], {}), [], [Decoding(0, false)], 1, 1, 0, 0, {})
    requires s5 == State(s3.db, [], [Looping(0, false, 2, 0, false, 0)], 2, 2, 0, 0, {})
    ensures Reaches(lib, s3, [Decode(0, true), Tick(0)], s5)
  {
    var s4 := s5.(threads := [Expanding(0, false, 2, 1)], pending := 1);
    PutOne(s3, Expanding(0, false, 2, 1));
    PutOne(s4, s5.threads[0]);
    ThenStep(lib, s4, Tick(0), s5, [], s5);
    ThenStep(lib, s3, Decode(0, true), s4, [Tick(0)], s5);
  }

  /** ... its second child cannot be written, so the parent waits for a retry ... */
  lemma SecondGivenUp(lib: Library, s8: State, s12: State)
    requires s8 == State(Db(map[0 := BATCH], map[], {BATCH_ROW}), [], [Looping(0, false, 2, 1, false, 0)], 2, 1, 0,
        0, {})
    requires s12 == s8.(threads := [Idle], stuck := 1)
    ensures Reaches(lib, s8, [Check(0, true), GiveUp(0), EndLoop(0, true), Finish(0, true)], s12)
  {
    var s9 := s8.(threads := [Working(0, false, 2, 1, false, 0)]);
    var s10 := s8.(threads := [Looping(0, false, 2, 2, true, 1)]);
    var s11 := s8.(threads := [Finishing(0, Accepted)], stuck := 1);
    PutOne(s8, s9.threads[0]);
    PutOne(s9, s10.threads[0]);
    PutOne(s10, s11.threads[0]);
    PutOne(s11, Idle);
    assert SetStatus(s8.db, 0, Accepted) == s8.db;
    ThenStep(lib, s11, Finish(0, true), s12, [], s12);
    ThenStep(lib, s10, EndLoop(0, true), s11, [Finish(0, true)], s12);
    ThenStep(lib, s9, GiveUp(0), s10, [EndLoop(0, true), Finish(0, true)], s12);
    ThenStep(lib, s8, Check(0, true), s9, [GiveUp(0), EndLoop(0, true), Finish(0, true)], s12);
  }

  /** ... and a replay of the first child finalises the parent: the second one is never retried. */
  lemma HastyReplayExample(lib: Library) returns (ls: seq<Label>, s: State)
    requires lib.decode("ab") == Children(2)
    ensures Reaches(lib, Init(1), ls, s) && 0 in s.db.raws
    ensures s.db.raws[0].status == Normalized && !HasRow(s.db, Child(0, 1)) && 0 in s.hasty
  {
    var db := Db(map[0 := BATCH], map[], {});
    var s5 := State(db, [], [Looping(0, false, 2, 0, false, 0)], 2, 2, 0, 0, {});
    var s8 := State(db.(quar := {BATCH_ROW}), [], [Looping(0, false, 2, 1, false, 0)], 2, 1, 0, 0, {});
    var s12 := s8.(threads := [Idle], stuck := 1);
    var s3 := State(db, [], [Decoding(0, false)], 1, 1, 0, 0, {});
    var l0, l1 := [SubmitSync(0, New("ab", None)), Tick(0), LoadNew(0, 0)], [Decode(0, true), Tick(0)];
    var l2 := [Check(0, true), Quarantine(0, "parser_match", "unknown_source"), Tick(0)];
    var l3 := [Check(0, true), GiveUp(0), EndLoop(0, true), Finish(0, true)];
    BatchLoaded(lib, s3);
    BatchExpanded(lib, s3, s5);
    ReachesThen(lib, Init(1), l0, s3, l1, s5);
    FirstQuarantined(lib, s5, s8);
    SecondGivenUp(lib, s8, s12);
    s := HastyReplayed(lib, s12);
    Joined(lib, Init(1), l0 + l1, s5, l2, s8, l3, s12, Replay(BATCH_ROW, 7), s);
    ls := l0 + l1 + l2 + l3 + [Replay(BATCH_ROW, 7)];
  }

  lemma Joined(lib: Library, s0: State, l1: seq<Label>, s1: State, l2: seq<Label>, s2: State, l3: seq<Label>, s3: State,
               l: Label, s4: State)
    requires Reaches(lib, s0, l1, s1) && Reaches(lib, s1, l2, s2) && Reaches(lib, s2, l3, s3) &&
      Step(lib, s3, l) == Some(s4)
    ensures Reaches(lib, s0, l1 + l2 + l3 + [l], s4)
  {
    hide Step;
    ThenStep(lib, s3, l, s4, [], s4);
    assert [l] + [] == [l];
    ReachesThen(lib, s0, l1, s1, l2, s2);
    ReachesThen(lib, s0, l1 + l2, s2, l3, s3);
    ReachesThen(lib, s0, l1 + l2 + l3, s3, [l], s4);
  }

  lemma HastyReplayed(lib: Library, s: State) returns (s': State)
    requires lib.decode("ab") == Children(2) && s.db == Db(map[0 := BATCH], map[], {BATCH_ROW})
    ensures Step(lib, s, Replay(BATCH_ROW, 7)) == Some(s') && 0 in s'.db.raws
    ensures s'.db.raws[0].status == Normalized && !HasRow(s'.db, Child(0, 1)) && 0 in s'.hasty
  {
    var q, db' := BATCH_ROW, Resolve(s.db, BATCH_ROW, 7);
    var moved := s.db.(norm := map[7 := Child(0, 0)], quar := {});
    assert AddNorm(s.db, q.child, 7).(quar := s.db.quar - {q}) == moved;
    assert QuarOf(moved, 0) == {};
    assert !HasRow(s.db, Child(0, 1));
    assert !Complete(s.db, 0, 2);
    s' := s.(db := db', hasty := s.hasty + {0});
  }

  // ----- batches without children

  function EmptyRun(t: nat, recovering: bool): seq<Label>
  {
    [Decode(t, true), if recovering then EndLoop(t, true) else Tick(t), Finish(t, true)]
  }

  lemma ThreeSteps(lib: Library, s: State, s1: State, s2: State, s3: State, a: Label, b: Label, c: Label)
    requires Step(lib, s, a) == Some(s1) && Step(lib, s1, b) == Some(s2) && Step(lib, s2, c) == Some(s3)
    ensures Reaches(lib, s, [a, b, c], s3)
  {
    hide Step;
    ThenStep(lib, s2, c, s3, [], s3);
    ThenStep(lib, s1, b, s2, [c], s3);
    ThenStep(lib, s, a, s1, [b, c], s3);
    assert [a] + ([b] + ([c] + [])) == [a, b, c] && [b] + [c] == [b, c] && [a] + [b, c] == [a, b, c];
  }

  /** The rows of an input without children are its one quarantine row, or nothing. */
  lemma EmptyRows(lib: Library, db: Db, r: RawId)
    requires RowsOk(lib, db) && r in db.raws && Count(lib, db.raws, r) == 0
    ensures NormOf(db, r) == {} && QuarOf(db, r) == if HasRow(db, Child(r, 0)) then {WholeRow(lib, db.raws, r)} else {}
  {
    forall e | e in db.norm ensures db.norm[e].raw != r { assert NormRowOk(lib, db.raws, db.norm[e]); }
    forall q | q in QuarOf(db, r) ensures q == WholeRow(lib, db.raws, r) { assert QuarRowOk(lib, db.raws, q); }
    if HasRow(db, Child(r, 0)) {
      assert HasQuar(db, Child(r, 0));
      var q :| q in db.quar && q.child == Child(r, 0);
      assert q in QuarOf(db, r);
    } else {
      forall q | q in db.quar ensures q.child.raw != r {
        assert QuarRowOk(lib, db.raws, q) && !HasQuar(db, Child(r, 0));
      }
    }
  }

  /** What becomes of a batch without children: it ends with a row, and quarantined, exactly when it
      was not being recovered or the row was already there; otherwise it ends as normalized with no
      row at all, and its unit stays pending. */
  lemma EmptyBatch(lib: Library, s: State, t: nat) returns (s': State)
    requires Inv(lib, s) && t < |s.threads| && s.threads[t].Decoding? && s.threads[t].raw in s.db.raws
    requires lib.decode(s.db.raws[s.threads[t].raw].payload) == Children(0)
    ensures Reaches(lib, s, EmptyRun(t, s.threads[t].recovering), s') && s'.threads == s.threads[t := Idle]
    ensures var r, c := s.threads[t].raw, Child(s.threads[t].raw, 0);
      && r in s'.db.raws
      && (HasRow(s'.db, c) <==> !s.threads[t].recovering || HasRow(s.db, c))
      && s'.db.raws[r].status == (if HasRow(s'.db, c) then Quarantined else Normalized)
      && s'.stuck == s.stuck + if s.threads[t].recovering then 1 else 0
  {
    if s.threads[t].recovering { s' := EmptyRecovered(lib, s, t); } else { s' := EmptyFirst(lib, s, t); }
  }

  lemma LoopEmpty(lib: Library, s: State, t: nat)
    requires t < |s.threads| && s.threads[t].Decoding? && s.threads[t].raw in s.db.raws && s.threads[t].recovering
    requires lib.decode(s.db.raws[s.threads[t].raw].payload) == Children(0)
    ensures DecodeStep(lib, s, t, true) == Some(Put(s, t, Looping(s.threads[t].raw, true, 0, 0, false, 1)))
  {
  }

  lemma WriteEmpty(lib: Library, s: State, t: nat)
    requires t < |s.threads| && s.threads[t].Decoding? && s.threads[t].raw in s.db.raws && !s.threads[t].recovering
    requires lib.decode(s.db.raws[s.threads[t].raw].payload) == Children(0)
    ensures var r, q := s.threads[t].raw, WholeRow(lib, s.db.raws, s.threads[t].raw);
      DecodeStep(lib, s, t, true) == Some(Put(s, t, WholeWritten(r, q !in s.db.quar)).(db := AddQuar(s.db, q)))
  {
  }

  lemma EndEmpty(s: State, t: nat, r: RawId, status: Status)
    requires t < |s.threads| && s.threads[t] == Looping(r, true, 0, 0, false, 1) && Derived(s.db, r) == status
    ensures EndStep(s, EndLoop(t, true)) == Some(Put(s, t, Finishing(r, status)).(stuck := s.stuck + 1))
  {
  }

  lemma EndStatus(s: State, t: nat, r: RawId, status: Status)
    requires t < |s.threads| && s.threads[t] == Finishing(r, status) && r in s.db.raws
    ensures EndStep(s, Finish(t, true)) == Some(Put(s, t, Idle).(db := SetStatus(s.db, r, status)))
  {
  }

  lemma EmptyRecovered(lib: Library, s: State, t: nat) returns (s': State)
    requires Inv(lib, s) && t < |s.threads| && s.threads[t].Decoding? && s.threads[t].raw in s.db.raws
    requires lib.decode(s.db.raws[s.threads[t].raw].payload) == Children(0) && s.threads[t].recovering
    ensures Reaches(lib, s, EmptyRun(t, true), s') && s'.threads == s.threads[t := Idle] && s'.stuck == s.stuck + 1
    ensures var r, c := s.threads[t].raw, Child(s.threads[t].raw, 0);
      && r in s'.db.raws && HasRow(s'.db, c) == HasRow(s.db, c)
      && s'.db.raws[r].status == if HasRow(s.db, c) then Quarantined else Normalized
  {
    hide Inv, RowsOk, OneRow, HasRow, DecodeStep, EndStep, CheckStep, ChildStep, LoadStep, ReplayStep, RestartStep,
        QueueStep;
    InvTables(lib, s);
    var r := s.threads[t].raw;
    var status := if HasRow(s.db, Child(r, 0)) then Quarantined else Normalized;
    assert Derived(s.db, r) == status by { EmptyRows(lib, s.db, r); }
    hide Derived;
    StatusRows(lib, s.db, r, status);
    var s1 := Put(s, t, Looping(r, true, 0, 0, false, 1));
    var s2 := Put(s1, t, Finishing(r, status)).(stuck := s.stuck + 1);
    s' := Put(s2, t, Idle).(db := SetStatus(s.db, r, status));
    assert Step(lib, s, Decode(t, true)) == Some(s1) by { LoopEmpty(lib, s, t); }
    assert Step(lib, s1, EndLoop(t, true)) == Some(s2) by { EndEmpty(s1, t, r, status); }
    assert Step(lib, s2, Finish(t, true)) == Some(s') by { EndStatus(s2, t, r, status); }
    ThreeSteps(lib, s, s1, s2, s', Decode(t, true), EndLoop(t, true), Finish(t, true));
  }

  lemma NoWholeRow(lib: Library, s: State, t: nat)
    requires Inv(lib, s) && t < |s.threads| && s.threads[t].Decoding? && !s.threads[t].recovering
    ensures s.threads[t].raw in s.db.raws && WholeRow(lib, s.db.raws, s.threads[t].raw) !in s.db.quar
  {
    assert ThreadOk(lib, s.db, s.hasty, s.threads[t]);
    WholeRowHas(lib, s.db, s.threads[t].raw);
  }

  lemma SameWholeRow(lib: Library, raws: map<RawId, RawRow>, raws': map<RawId, RawRow>, r: RawId)
    requires r in raws && r in raws' && raws'[r].payload == raws[r].payload
    ensures WholeRow(lib, raws', r) == WholeRow(lib, raws, r)
  {
  }

  lemma EmptyFirst(lib: Library, s: State, t: nat) returns (s': State)
    requires Inv(lib, s) && t < |s.threads| && s.threads[t].Decoding? && s.threads[t].raw in s.db.raws
    requires lib.decode(s.db.raws[s.threads[t].raw].payload) == Children(0) && !s.threads[t].recovering
    ensures Reaches(lib, s, EmptyRun(t, false), s') && s'.threads == s.threads[t := Idle] && s'.stuck == s.stuck
    ensures var r, c := s.threads[t].raw, Child(s.threads[t].raw, 0);
      r in s'.db.raws && HasRow(s'.db, c) && s'.db.raws[r].status == Quarantined
  {
    hide Inv, DecodeStep, EndStep, CheckStep, ChildStep, LoadStep, ReplayStep, RestartStep, QueueStep, WholeRow;
    NoWholeRow(lib, s, t);
    var r := s.threads[t].raw;
    var q := WholeRow(lib, s.db.raws, r);
    var s1 := Put(s, t, WholeWritten(r, true)).(db := AddQuar(s.db, q));
    var s2 := Put(s1, t, Finishing(r, Quarantined)).(pending := s.pending - 1);
    s' := Put(s2, t, Idle).(db := SetStatus(s1.db, r, Quarantined));
    assert q in s'.db.quar;
    WholeRowHas(lib, s'.db, r);
    assert WholeRow(lib, s'.db.raws, r) == q by { SameWholeRow(lib, s.db.raws, s'.db.raws, r); }
    assert Step(lib, s, Decode(t, true)) == Some(s1) by { WriteEmpty(lib, s, t); }
    assert Step(lib, s1, Tick(t)) == Some(s2);
    assert Step(lib, s2, Finish(t, true)) == Some(s') by { EndStatus(s2, t, r, Quarantined); }
    ThreeSteps(lib, s, s1, s2, s', Decode(t, true), Tick(t), Finish(t, true));
  }
}
