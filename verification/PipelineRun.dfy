/** The pipeline as a state machine: any number of submitters and workers interleaved at
    every counter update and SQL transaction, crashes and restarts anywhere, and replays. */
module PipelineRun {
  import opened Wrappers
  import opened PipelineStore

  datatype Rec = New(payload: string, file: Option<FileKey>) | Existing(raw: RawId)

  /** Where a goroutine is in Submit, SubmitSync or processRecord.  Each state is the point
      before one atomic action; `left` counts children given up so far. */
  datatype Thread =
    | Idle
    | Submitted                // on the channel, `accepted` not yet added
    | SubmittedHalf            // `accepted` added, `pending` not
    | SyncHalf(rec: Rec)       // SubmitSync: `accepted` added, `pending` not
    | Begin(rec: Rec)
    | RefuseHalf               // `accepted` taken back, `pending` not
    | Decoding(raw: RawId, recovering: bool)
    | Expanding(raw: RawId, recovering: bool, n: nat, delta: int)  // delta added to `accepted`
    | Looping(raw: RawId, recovering: bool, n: nat, i: nat, unresolved: bool, left: nat)
    | Working(raw: RawId, recovering: bool, n: nat, i: nat, unresolved: bool, left: nat)
    | Written(raw: RawId, recovering: bool, n: nat, i: nat, unresolved: bool, left: nat)
    | WholeWritten(raw: RawId, added: bool)
    | Finishing(raw: RawId, status: Status)

  /** `overcount`, `stuck` and `hasty` are history variables: units counted twice by a repeated
      quarantine, units of `pending` whose processing ended without an outcome, and inputs
      replayed too early. */
  datatype State = State(db: Db, queue: seq<Rec>, threads: seq<Thread>, accepted: int, pending: int,
                         overcount: int, stuck: int, hasty: set<RawId>)

  datatype Label =
    | Submit(t: nat, rec: Rec)
    | SubmitSync(t: nat, rec: Rec)
    | Take(t: nat)
    | Tick(t: nat)                        // the next counter update
    | LoadFail(t: nat)
    | LoadNew(t: nat, raw: RawId)
    | LoadDuplicate(t: nat, raw: RawId)
    | LoadExisting(t: nat)
    | Decode(t: nat, ok: bool)            // ok: the query or quarantine write succeeded
    | Check(t: nat, ok: bool)
    | Normalize(t: nat, newId: EventId)
    | Quarantine(t: nat, stage: string, reason: string)
    | GiveUp(t: nat)
    | EndLoop(t: nat, ok: bool)
    | Finish(t: nat, ok: bool)
    | Replay(q: QRow, newId: EventId)
    | Restart(order: seq<RawId>)

  function RawOf(th: Thread): Option<RawId>
  {
    match th
    case Decoding(r, _) => Some(r)
    case Expanding(r, _, _, _) => Some(r)
    case Looping(r, _, _, _, _, _) => Some(r)
    case Working(r, _, _, _, _, _) => Some(r)
    case Written(r, _, _, _, _, _) => Some(r)
    case WholeWritten(r, _) => Some(r)
    case Finishing(r, _) => Some(r)
    case _ => None
  }

  predicate Busy(threads: seq<Thread>, r: RawId)
  {
    exists t :: 0 <= t < |threads| && RawOf(threads[t]) == Some(r)
  }

  function Put(s: State, t: nat, th: Thread): State
    requires t < |s.threads|
  {
    s.(threads := s.threads[t := th])
  }

  function TickStep(s: State, t: nat): Option<State>
    requires t < |s.threads|
  {
    match s.threads[t]
    case Submitted => Some(Put(s, t, SubmittedHalf).(accepted := s.accepted + 1))
    case SubmittedHalf => Some(Put(s, t, Idle).(pending := s.pending + 1))
    case SyncHalf(rec) => Some(Put(s, t, Begin(rec)).(pending := s.pending + 1))
    case RefuseHalf => Some(Put(s, t, Idle).(pending := s.pending - 1))
    case Expanding(r, rec, n, delta) => Some(Put(s, t, Looping(r, rec, n, 0, false, 0)).(pending := s.pending + delta))
    case Written(r, rec, n, i, u, left) =>
      Some(Put(s, t, Looping(r, rec, n, i + 1, u, left)).(pending := s.pending - 1))
    case WholeWritten(r, added) =>
      Some(Put(s, t, Finishing(r, Quarantined)).(pending := s.pending - 1,
                                                 overcount := s.overcount + if added then 0 else 1))
    case _ => None
  }

  predicate SameFile(db: Db, r: RawId, rec: Rec)
  {
    rec.New? && rec.file.Some? && r in db.raws && db.raws[r].file == rec.file
  }

  /** Store (store.go:189-264) and the refusals that follow it (pipeline.go:325-336). */
  ghost function LoadStep(lib: Library, s: State, l: Label): Option<State>
    requires l.LoadFail? || l.LoadNew? || l.LoadDuplicate? || l.LoadExisting?
    requires l.t < |s.threads|
  {
    if !s.threads[l.t].Begin? then None
    else
      var rec := s.threads[l.t].rec;
      match l
      case LoadFail(t) => Some(Put(s, t, RefuseHalf).(accepted := s.accepted - 1))
      case LoadNew(t, r) =>
        if rec.New? && r !in s.db.raws && !exists r' :: SameFile(s.db, r', rec) then
          Some(Put(s, t, Decoding(r, false)).(db := s.db.(raws := s.db.raws[r := RawRow(rec.payload, Accepted,
              rec.file)])))
        else None
      case LoadDuplicate(t, r) =>
        if SameFile(s.db, r, rec) && lib.digest(rec.payload) == lib.digest(s.db.raws[r].payload)
           && !Busy(s.threads, r) then
          if s.db.raws[r].status == Accepted then Some(Put(s, t, Decoding(r, true)))
          else Some(Put(s, t, RefuseHalf).(accepted := s.accepted - 1))
        else None
      case LoadExisting(t) =>
        if rec.Existing? && rec.raw in s.db.raws && !Busy(s.threads, rec.raw) then
          Some(Put(s, t, Decoding(rec.raw, true)))
        else None
  }

  /** Decode and batch expansion (pipeline.go:348-414). */
  function DecodeStep(lib: Library, s: State, t: nat, ok: bool): Option<State>
    requires t < |s.threads|
  {
    if !s.threads[t].Decoding? || s.threads[t].raw !in s.db.raws then None
    else
      var r, recovering := s.threads[t].raw, s.threads[t].recovering;
      var decoded := lib.decode(s.db.raws[r].payload);
      if decoded.Children? && (decoded.n > 0 || recovering) then
        if recovering && !ok then Some(Put(s, t, Finishing(r, Accepted)).(stuck := s.stuck + 1))
        else if decoded.n == 0 then Some(Put(s, t, Looping(r, true, 0, 0, false, 1)))
        else if recovering then
          var delta := decoded.n - Completed(s.db, r) - 1;
          Some(Put(s, t, Expanding(r, true, decoded.n, delta)).(accepted := s.accepted + delta))
        else if decoded.n > 1 then
          Some(Put(s, t, Expanding(r, false, decoded.n, decoded.n - 1)).(accepted := s.accepted + decoded.n - 1))
        else Some(Put(s, t, Looping(r, false, 1, 0, false, 0)))
      else if ok then
        var q := WholeRow(lib, s.db.raws, r);
        Some(Put(s, t, WholeWritten(r, q !in s.db.quar)).(db := AddQuar(s.db, q)))
      else Some(Put(s, t, Finishing(r, Accepted)).(stuck := s.stuck + 1))
  }

  /** The head of the child loop (pipeline.go:424-434). */
  ghost function CheckStep(s: State, t: nat, ok: bool): Option<State>
    requires t < |s.threads|
  {
    match s.threads[t]
    case Looping(r, recovering, n, i, u, left) =>
      if i >= n then None
      else if !recovering then Some(Put(s, t, Working(r, recovering, n, i, u, left)))
      else
        var done := HasRow(s.db, Child(r, i));
        if !ok then Some(Put(s, t, Looping(r, recovering, n, i + 1, true, left + if done then 0 else 1)))
        else if done then Some(Put(s, t, Looping(r, recovering, n, i + 1, u, left)))
        else Some(Put(s, t, Working(r, recovering, n, i, u, left)))
    case _ => None
  }

  /** The outcome of one child (pipeline.go:446-619). */
  ghost function ChildStep(s: State, l: Label): Option<State>
    requires (l.Normalize? || l.Quarantine? || l.GiveUp?) && l.t < |s.threads|
  {
    match s.threads[l.t]
    case Working(r, recovering, n, i, u, left) =>
      (match l
       case Normalize(t, newId) =>
         if newId in s.db.norm then None
         else Some(Put(s, t, Written(r, recovering, n, i, u, left)).(db := AddNorm(s.db, Child(r, i), newId)))
       case Quarantine(t, stage, reason) =>
         Some(Put(s, t, Written(r, recovering, n, i, u, left)).(db := AddQuar(s.db, QRow(Child(r, i), stage, reason))))
       case GiveUp(t) => Some(Put(s, t, Looping(r, recovering, n, i + 1, true, left + 1))))
    case _ => None
  }

  /** The end of processRecord (pipeline.go:622-641). */
  function EndStep(s: State, l: Label): Option<State>
    requires (l.EndLoop? || l.Finish?) && l.t < |s.threads|
  {
    match s.threads[l.t]
    case Looping(r, _, n, i, u, left) =>
      if !l.EndLoop? || i < n then None
      else Some(Put(s, l.t, Finishing(r, if u || !l.ok then Accepted else Derived(s.db, r))).(stuck := s.stuck + left))
    case Finishing(r, status) =>
      if !l.Finish? || r !in s.db.raws then None
      else Some(Put(s, l.t, Idle).(db := if l.ok then SetStatus(s.db, r, status) else s.db))
    case _ => None
  }

  /** Replay (pipeline.go:696-772); a child it cannot match is rolled back, so there is no step. */
  ghost function ReplayStep(lib: Library, s: State, q: QRow, newId: EventId): Option<State>
  {
    var r := q.child.raw;
    if q in s.db.quar && r in s.db.raws && q.child.ord < Count(lib, s.db.raws, r) && newId !in s.db.norm then
      Some(s.(db := Resolve(s.db, q, newId),
              hasty := s.hasty + if Hasty(lib, s, q, newId) then {r} else {}))
    else None
  }

  /** A replay comes too early: a sibling of the child has no row yet, or a worker is about to write a
      parent status that the replay has made wrong. */
  ghost predicate Hasty(lib: Library, s: State, q: QRow, newId: EventId)
    requires q.child.raw in s.db.raws
  {
    var r, status := q.child.raw, Derived(Resolve(s.db, q, newId), q.child.raw);
    || !Complete(s.db, r, Count(lib, s.db.raws, r))
    || exists t :: 0 <= t < |s.threads| && Overtaken(s.threads[t], r, status)
  }

  predicate Overtaken(th: Thread, r: RawId, status: Status)
  {
    th.Finishing? && th.raw == r && th.status != Accepted && th.status != status
  }

  predicate NoDup(order: seq<RawId>) { forall i, j :: 0 <= i < j < |order| ==> order[i] != order[j] }

  function Elements(order: seq<RawId>): set<RawId> { set r | r in order }

  /** A crash at any point, then New and Start (pipeline.go:132-147, 167-173). */
  function RestartStep(s: State, order: seq<RawId>): Option<State>
  {
    if NoDup(order) && Elements(order) == AcceptedRaws(s.db) then
      var waiting := |AcceptedRaws(s.db)|;
      Some(State(s.db, seq(|order|, i requires 0 <= i < |order| => Existing(order[i])), seq(|s.threads|, i => Idle),
                 Rows(s.db) + waiting, waiting, 0, 0, s.hasty))
    else None
  }

  /** Submit, SubmitSync and a worker's receive (pipeline.go:177-262, 281-286). */
  function QueueStep(s: State, l: Label): Option<State>
    requires (l.Submit? || l.SubmitSync? || l.Take?) && l.t < |s.threads|
  {
    if !s.threads[l.t].Idle? then None
    else if l.Submit? then
      if l.rec.New? then Some(Put(s, l.t, Submitted).(queue := s.queue + [l.rec])) else None
    else if l.SubmitSync? then
      if l.rec.New? then Some(Put(s, l.t, SyncHalf(l.rec)).(accepted := s.accepted + 1)) else None
    else
      if s.queue != [] then Some(Put(s, l.t, Begin(s.queue[0])).(queue := s.queue[1..])) else None
  }

  ghost function Step(lib: Library, s: State, l: Label): Option<State>
  {
    if l.Replay? then ReplayStep(lib, s, l.q, l.newId)
    else if l.Restart? then RestartStep(s, l.order)
    else if l.t >= |s.threads| then None
    else if l.Submit? || l.SubmitSync? || l.Take? then QueueStep(s, l)
    else if l.Tick? then TickStep(s, l.t)
    else if l.Decode? then DecodeStep(lib, s, l.t, l.ok)
    else if l.Check? then CheckStep(s, l.t, l.ok)
    else if l.EndLoop? || l.Finish? then EndStep(s, l)
    else if l.Normalize? || l.Quarantine? || l.GiveUp? then ChildStep(s, l)
    else LoadStep(lib, s, l)
  }

  // ----- what each thread owes

  /** accepted - rows - pending while this thread is between two updates. */
  function Skew(th: Thread): int
  {
    match th
    case SubmittedHalf => 1
    case SyncHalf(_) => 1
    case RefuseHalf => -1
    case Expanding(_, _, _, delta) => delta
    case Written(_, _, _, _, _, _) => -1
    case WholeWritten(_, added) => if added then -1 else 0
    case _ => 0
  }

  /** The units of `pending` this thread still has to discharge. */
  ghost function Due(db: Db, th: Thread): int
  {
    match th
    case Submitted => -1
    case SubmittedHalf => -1
    case Begin(_) => 1
    case RefuseHalf => 1
    case Decoding(_, _) => 1
    case Expanding(_, _, _, _) => 1
    case Looping(r, _, n, i, _, left) => Missing(db, r, i, n) + left
    case Working(r, _, n, i, _, left) => Missing(db, r, i, n) + left
    case Written(r, _, n, i, _, left) => Missing(db, r, i + 1, n) + left + 1
    case WholeWritten(_, _) => 1
    case _ => 0
  }

  function SumSkew(threads: seq<Thread>): int
  {
    if threads == [] then 0 else Skew(threads[0]) + SumSkew(threads[1..])
  }

  ghost function SumDue(db: Db, threads: seq<Thread>): int
  {
    if threads == [] then 0 else Due(db, threads[0]) + SumDue(db, threads[1..])
  }

  lemma {:induction false} SumSkewPut(threads: seq<Thread>, t: nat, th: Thread)
    requires t < |threads|
    ensures SumSkew(threads[t := th]) == SumSkew(threads) - Skew(threads[t]) + Skew(th)
  {
    if t == 0 {
      assert threads[0 := th][1..] == threads[1..];
    } else {
      assert threads[t := th][1..] == threads[1..][t - 1 := th];
      SumSkewPut(threads[1..], t - 1, th);
    }
  }

  lemma {:induction false} SumDueSame(db: Db, db': Db, threads: seq<Thread>)
    requires forall j :: 0 <= j < |threads| ==> Due(db', threads[j]) == Due(db, threads[j])
    ensures SumDue(db', threads) == SumDue(db, threads)
  {
    if threads != [] { SumDueSame(db, db', threads[1..]); }
  }

  lemma {:induction false} SumDuePut(db: Db, db': Db, threads: seq<Thread>, t: nat, th: Thread)
    requires t < |threads|
    requires forall j :: 0 <= j < |threads| && j != t ==> Due(db', threads[j]) == Due(db, threads[j])
    ensures SumDue(db', threads[t := th]) == SumDue(db, threads) - Due(db, threads[t]) + Due(db', th)
  {
    if t == 0 {
      assert threads[0 := th][1..] == threads[1..];
      SumDueSame(db, db', threads[1..]);
    } else {
      assert threads[t := th][1..] == threads[1..][t - 1 := th];
      SumDuePut(db, db', threads[1..], t - 1, th);
    }
  }

  // ----- the invariant

  ghost predicate NoRowsFrom(db: Db, r: RawId, i: nat) { forall o :: i <= o ==> !HasRow(db, Child(r, o)) }

  ghost predicate InLoop(lib: Library, db: Db, r: RawId, recovering: bool, n: nat, i: nat, from: nat, unresolved: bool)
  {
    && r in db.raws && lib.decode(db.raws[r].payload) == Children(n) && i <= n
    && (!recovering ==> NoRowsFrom(db, r, from))
    && (!unresolved ==> Complete(db, r, i))
  }

  ghost predicate FinishOk(lib: Library, db: Db, hasty: set<RawId>, r: RawId, status: Status)
  {
    && r in db.raws
    && (status != Accepted && Count(lib, db.raws, r) > 0 ==>
          Complete(db, r, Count(lib, db.raws, r)) && (r !in hasty ==> status == Derived(db, r)))
  }

  /** What holds of the tables while a thread is at this point of processRecord. */
  ghost predicate ThreadOk(lib: Library, db: Db, hasty: set<RawId>, th: Thread)
  {
    match th
    case Decoding(r, recovering) => r in db.raws && (!recovering ==> NoRowsFrom(db, r, 0))
    case Expanding(r, recovering, n, delta) =>
      InLoop(lib, db, r, recovering, n, 0, 0, false) && 1 + delta == Missing(db, r, 0, n)
    case Looping(r, recovering, n, i, u, _) => InLoop(lib, db, r, recovering, n, i, i, u)
    case Working(r, recovering, n, i, u, _) =>
      i < n && InLoop(lib, db, r, recovering, n, i, i, u) && !HasRow(db, Child(r, i))
    case Written(r, recovering, n, i, u, _) =>
      i < n && InLoop(lib, db, r, recovering, n, i, i + 1, u) && HasRow(db, Child(r, i))
    case WholeWritten(r, _) => r in db.raws && Count(lib, db.raws, r) == 0
    case Finishing(r, status) => FinishOk(lib, db, hasty, r, status)
    case _ => true
  }

  ghost predicate ThreadsOk(lib: Library, db: Db, hasty: set<RawId>, threads: seq<Thread>)
  {
    forall t :: 0 <= t < |threads| ==> ThreadOk(lib, db, hasty, threads[t])
  }

  /** One worker at a time per input. */
  predicate Exclusive(threads: seq<Thread>)
  {
    forall t, t' :: 0 <= t < t' < |threads| && RawOf(threads[t]).Some? ==> RawOf(threads[t]) != RawOf(threads[t'])
  }

  ghost predicate TablesOk(lib: Library, db: Db, hasty: set<RawId>)
  {
    OneRow(db) && RowsOk(lib, db) && FinalOk(lib, db, hasty)
  }

  ghost predicate Balanced(s: State)
  {
    && s.accepted == Rows(s.db) + s.pending + SumSkew(s.threads) + s.overcount
    && s.pending == |s.queue| + SumDue(s.db, s.threads) + s.stuck
  }

  ghost predicate Inv(lib: Library, s: State)
  {
    && TablesOk(lib, s.db, s.hasty)
    && ThreadsOk(lib, s.db, s.hasty, s.threads)
    && Exclusive(s.threads)
    && Balanced(s)
  }
}
